/** What the training protocol guarantees over whole runs. */
module FederatedTheorems {
  import opened Dataset
  import opened MapSums
  import opened NaiveBayes
  import opened NaiveBayesLaws
  import opened Prediction
  import opened Wire
  import opened Training
  import opened Wrappers
  import opened FederatedRound
  import Aggregator

  /** The invariant holds in every state of every run. */
  lemma {:induction false} RunKeepsInv(c: Config, states: seq<State>, actions: seq<Action>)
    requires IsRun(c, states, actions)
    ensures forall s :: s in states ==> Inv(c, s)
  {
    if actions == [] {
      InitInv(c);
      assert states == [INIT];
    } else {
      var n := |actions| - 1;
      PrefixRun(c, states, actions);
      RunKeepsInv(c, states[..n + 1], actions[..n]);
      assert states[n] == states[..n + 1][n];
      assert StepAt(c, states, actions, n);
      StepKeepsInv(c, states[n], actions[n], states[n + 1]);
      assert states == states[..n + 1] + [states[n + 1]];
    }
  }

  lemma PrefixRun(c: Config, states: seq<State>, actions: seq<Action>)
    requires IsRun(c, states, actions) && actions != []
    ensures IsRun(c, states[..|actions|], actions[..|actions| - 1])
  {
    var n := |actions| - 1;
    var ss, aa := states[..n + 1], actions[..n];
    forall i | 0 <= i < n
      ensures StepAt(c, ss, aa, i)
    {
      assert StepAt(c, states, actions, i);
    }
  }

  // ----- Federated training is central training -----

  /** The files of a round hold, one shard per file, a sharding of a training set. */
  ghost predicate HoldShards(c: Config, paths: seq<Bytes>, shards: seq<seq<Record>>) {
    && |paths| == |shards|
    && forall i :: 0 <= i < |paths| ==> paths[i] in c.files && c.files[paths[i]] == Encode(shards[i])
  }

  ghost predicate AllSafe(records: seq<Record>) {
    forall r :: r in records ==> TsvSafe(r)
  }

  lemma ShardIsRead(c: Config, path: Bytes, shard: seq<Record>)
    requires path in c.files && c.files[path] == Encode(shard) && AllSafe(shard)
    ensures LoadFrom(c.files, path) == Loaded(shard)
  {
    RoundTripExactlyWhenSafe(shard);
  }

  /** What workers load, given that each file is read back as its shard. */
  lemma {:induction false} LoadedShards(c: Config, paths: seq<Bytes>, shards: seq<seq<Record>>)
    requires |paths| == |shards|
    requires forall i :: 0 <= i < |paths| ==> LoadFrom(c.files, paths[i]) == Loaded(shards[i])
    ensures AllReadable(c, paths) && Shards(c, paths) == shards
  {
    if paths != [] {
      var n := |paths| - 1;
      LoadedShards(c, paths[..n], shards[..n]);
      assert paths == paths[..n] + [paths[n]];
      assert shards == shards[..n] + [shards[n]];
    }
  }

  lemma ShardsAreRead(c: Config, paths: seq<Bytes>, shards: seq<seq<Record>>)
    requires HoldShards(c, paths, shards) && AllSafe(Flatten(shards))
    ensures AllReadable(c, paths) && Shards(c, paths) == shards
  {
    forall i | 0 <= i < |paths|
      ensures LoadFrom(c.files, paths[i]) == Loaded(shards[i])
    {
      forall r | r in shards[i]
        ensures TsvSafe(r)
      {
        FlattenMembers(shards, r);
      }
      ShardIsRead(c, paths[i], shards[i]);
    }
    LoadedShards(c, paths, shards);
  }

  /** Every model the coordinator ever evaluates for a round is the one a single trainer would have
      got from the whole training set, and its metrics are an evaluation of that model: whatever the
      number of workers, the sharding, the order of delivery, the losses and whatever happens to other
      rounds, as long as no packet of the round itself was duplicated. */
  lemma FederatedEqualsCentral(c: Config, states: seq<State>, actions: seq<Action>, s: State, e: Evaluation,
                               shards: seq<seq<Record>>, train: seq<Record>)
    requires IsRun(c, states, actions) && s in states && e in s.evaluated && e.round !in s.duplicated
    requires e.round in s.paths ==> HoldShards(c, s.paths[e.round], shards)
    requires Flatten(shards) == train && AllSafe(train)
    ensures e.model == CentralModel(train)
    ensures IsEvaluation(CentralModel(train), c.test, e.metrics)
  {
    RunKeepsInv(c, states, actions);
    assert EvaluationOk(c, s, e);
    ShardsAreRead(c, s.paths[e.round], shards);
    FederatedIsCentral(shards);
  }

  /** When the central model decides for every test text whether it is spam, the reported metrics are
      those of central training. */
  lemma FederatedMetricsEqualCentral(c: Config, states: seq<State>, actions: seq<Action>, s: State, e: Evaluation,
                                     shards: seq<seq<Record>>, train: seq<Record>, central: Metrics)
    requires IsRun(c, states, actions) && s in states && e in s.evaluated && e.round !in s.duplicated
    requires e.round in s.paths ==> HoldShards(c, s.paths[e.round], shards)
    requires Flatten(shards) == train && AllSafe(train)
    requires IsEvaluation(CentralModel(train), c.test, central)
    requires SpamDecided(CentralModel(train), c.test)
    ensures e.metrics == central
  {
    FederatedEqualsCentral(c, states, actions, s, e, shards, train);
    EvaluationIsOrderFree(CentralModel(train), c.test, e.metrics, central);
  }

  /** A model is only ever made from all the contributions of its round: it is the one a single trainer
      gets from everything the round's workers read, whatever the files hold. */
  lemma ModelsAreComplete(c: Config, states: seq<State>, actions: seq<Action>, s: State, e: Evaluation)
    requires IsRun(c, states, actions) && s in states && e in s.evaluated && e.round !in s.duplicated
    ensures e.round in s.paths && AllReadable(c, s.paths[e.round])
    ensures e.model == CentralModel(Flatten(Shards(c, s.paths[e.round])))
    ensures |Shards(c, s.paths[e.round])| == |c.ids|
  {
    RunKeepsInv(c, states, actions);
    assert EvaluationOk(c, s, e);
    FederatedIsCentral(Shards(c, s.paths[e.round]));
    ShardsLength(c, s.paths[e.round]);
  }

  lemma {:induction false} ShardsLength(c: Config, paths: seq<Bytes>)
    requires AllReadable(c, paths)
    ensures |Shards(c, paths)| == |paths|
  {
    if paths != [] {
      ShardsLength(c, paths[..|paths| - 1]);
    }
  }

  /** No round none of whose packets was duplicated is ever evaluated twice. */
  lemma AtMostOnce(c: Config, states: seq<State>, actions: seq<Action>, s: State, r: int)
    requires IsRun(c, states, actions) && s in states && r !in s.duplicated
    ensures EvalCount(s.evaluated, r) <= 1
  {
    RunKeepsInv(c, states, actions);
    if r in s.paths {
      assert RoundInv(c, s, r);
    } else {
      assert Idle(c, s, r);
    }
  }

  // ----- Rounds that miss an update -----

  /** The updates of round r that are still to come or already collected. */
  ghost function Remaining(c: Config, s: State, r: int): nat {
    SumBy(s.net, Promise(r)) + |Aggregator.Pending(s.agg, r)|
  }

  /** A packet that is, or may become, an update of round r. */
  function Promise(r: int): Packet -> nat {
    (p: Packet) =>
      if (p.TrainRequest? && p.round == r) || (p.ToAggregator? && p.msg.Update? && p.msg.update.round == r) then 1 else 0
  }

  lemma {:induction false} NoPromise(net: seq<Packet>, r: int)
    requires forall p :: p in net ==> Promise(r)(p) == 0
    ensures SumBy(net, Promise(r)) == 0
  {
    if net != [] {
      var n := |net| - 1;
      assert net[n] in net;
      NoPromise(net[..n], r);
    }
  }

  lemma {:induction false} RequestsPromise(q: int, paths: seq<Bytes>, r: int)
    ensures SumBy(Requests(q, paths), Promise(r)) == if q == r then |paths| else 0
  {
    if paths != [] {
      var n := |paths| - 1;
      RequestsPromise(q, paths[..n], r);
      SumByNext(Requests(q, paths[..n]), TrainRequest(n, q, paths[n]), Promise(r));
    }
  }

  lemma StartPromises(net: seq<Packet>, q: int, workers: nat, paths: seq<Bytes>, r: int)
    ensures SumBy(net + ([ToAggregator(Aggregator.Trigger(q, workers))] + Requests(q, paths)), Promise(r))
            == SumBy(net, Promise(r)) + if q == r then |paths| else 0
  {
    var t := ToAggregator(Aggregator.Trigger(q, workers));
    SumByAppend(net, [t] + Requests(q, paths), Promise(r));
    SumByAppend([t], Requests(q, paths), Promise(r));
    SumBySingle(t, Promise(r));
    RequestsPromise(q, paths, r);
  }

  /** Once an update of an unfinished round is missing it stays missing, and the round unfinished. */
  lemma MissingStaysMissing(c: Config, s: State, a: Action, s': State, r: int)
    requires Inv(c, s) && Next(c, s, a, s') && Misses(c, s, r) && r !in s'.duplicated
    ensures Misses(c, s', r)
  {
    match a {
      case Start(paths) =>
        if |paths| == |c.ids| {
          StartPromises(s.net, s'.roundID, |c.ids|, paths, r);
        } else {
          assert s.net + [] == s.net;
        }
      case Train(k) =>
        var p := s.net[k];
        var reply := WorkerReply(c.files, c.ids[p.worker], p.round, p.path);
        SumByReplace(s.net, k, reply, Promise(r));
        if reply != [] {
          SumBySingle(reply[0], Promise(r));
          assert reply == [reply[0]];
        }
      case Collect(k) =>
        MissingAtAggregator(c, s, k, s', r);
      case Evaluate(k, _, _) =>
        SumByRemove(s.net, k, Promise(r));
      case Lose(k) =>
        SumByRemove(s.net, k, Promise(r));
      case Duplicate(k) =>
        NoPromiseElsewhere(s.net[k], r);
        SumByNext(s.net, s.net[k], Promise(r));
    }
  }

  lemma MissingAtAggregator(c: Config, s: State, k: nat, s': State, r: int)
    requires Inv(c, s) && Next(c, s, Collect(k), s') && Misses(c, s, r)
    ensures r !in s'.done && Remaining(c, s', r) < |c.ids|
  {
    var m := s.net[k].msg;
    var more := ModelPackets(Aggregator.Step(s.agg, m).1);
    SumByReplace(s.net, k, more, Promise(r));
    NoPromise(more, r);
    if m.Round() == r {
      TooFewToFire(c, s, k, r);
      Aggregator.StepForRound(s.agg, m, r);
    } else {
      BatchesElsewhere(s.agg, m, r);
      Aggregator.StepForRound(s.agg, m, r);
    }
  }

  lemma TooFewToFire(c: Config, s: State, k: nat, r: int)
    requires Inv(c, s) && k < |s.net| && s.net[k].ToAggregator? && s.net[k].msg.Round() == r
    requires r in s.paths && r !in s.duplicated && Remaining(c, s, r) < |c.ids|
    ensures Aggregator.Step(s.agg, s.net[k].msg).1 == []
  {
    var m := s.net[k].msg;
    SumByMember(s.net, s.net[k], Promise(r));
    if Aggregator.Step(s.agg, m).1 != [] {
      BatchIsComplete(c, s, k);
      AllSomeCounts(Got(s, m));
      ContributionsLength(c, s.paths[r]);
    }
  }

  /** An unfinished round, with no packet duplicated, of which too few updates are left. */
  ghost predicate Misses(c: Config, s: State, r: int) {
    r in s.paths && r !in s.done && r !in s.duplicated && Remaining(c, s, r) < |c.ids|
  }

  lemma MissesNext(c: Config, states: seq<State>, actions: seq<Action>, j: nat, r: int)
    requires IsRun(c, states, actions) && j < |actions| && Misses(c, states[j], r) && r !in states[j + 1].duplicated
    ensures Misses(c, states[j + 1], r)
  {
    InvAt(c, states, actions, j);
    assert StepAt(c, states, actions, j);
    MissingStaysMissing(c, states[j], actions[j], states[j + 1], r);
  }

  lemma {:induction false} MissesOn(c: Config, states: seq<State>, actions: seq<Action>, i: nat, j: nat, r: int)
    requires IsRun(c, states, actions) && i <= j < |states| && Misses(c, states[i], r) && r !in states[j].duplicated
    ensures Misses(c, states[j], r)
  {
    if i < j {
      assert StepAt(c, states, actions, j - 1);
      MissesOn(c, states, actions, i, j - 1, r);
      MissesNext(c, states, actions, j - 1, r);
    }
  }

  /** A round that misses an update, because it was lost or its file could not be read, never
      produces a model. */
  lemma MissingUpdateMeansNoModel(c: Config, states: seq<State>, actions: seq<Action>, i: nat, j: nat, r: int)
    requires IsRun(c, states, actions) && i <= j < |states| && Misses(c, states[i], r) && r !in states[j].duplicated
    ensures Misses(c, states[j], r) && EvalCount(states[j].evaluated, r) == 0
  {
    MissesOn(c, states, actions, i, j, r);
    InvAt(c, states, actions, j);
    NoEvaluationYet(c, states[j], r);
  }

  lemma InvAt(c: Config, states: seq<State>, actions: seq<Action>, i: nat)
    requires IsRun(c, states, actions) && i < |states|
    ensures Inv(c, states[i])
  {
    RunKeepsInv(c, states, actions);
    assert states[i] in states;
  }

  lemma NoEvaluationYet(c: Config, s: State, r: int)
    requires Inv(c, s) && r in s.paths && r !in s.done && r !in s.duplicated
    ensures EvalCount(s.evaluated, r) == 0
  {
    assert RoundInv(c, s, r);
  }

  // ----- When a round's model arrives -----

  /** Whether step j loses a packet of round r. */
  ghost predicate LosesPacketOf(states: seq<State>, actions: seq<Action>, j: nat, r: int)
    requires j < |actions| && |states| == |actions| + 1
  {
    actions[j].Lose? && actions[j].k < |states[j].net| && states[j].net[actions[j].k].Round() == r
  }

  /** The bookkeeping of losses is what it says. */
  lemma {:induction false} LostExactlyWhen(c: Config, states: seq<State>, actions: seq<Action>, i: nat, r: int)
    requires IsRun(c, states, actions) && i < |states|
    ensures r in states[i].lost <==> exists j :: 0 <= j < i && LosesPacketOf(states, actions, j, r)
  {
    if i > 0 {
      LostExactlyWhen(c, states, actions, i - 1, r);
      assert StepAt(c, states, actions, i - 1);
      if LosesPacketOf(states, actions, i - 1, r) {
        assert r in states[i].lost;
      }
    }
  }

  /** Whether step j duplicates a packet of round r. */
  ghost predicate DuplicatesPacketOf(states: seq<State>, actions: seq<Action>, j: nat, r: int)
    requires j < |actions| && |states| == |actions| + 1
  {
    actions[j].Duplicate? && actions[j].k < |states[j].net| && states[j].net[actions[j].k].Round() == r
  }

  /** And so is the bookkeeping of duplications. */
  lemma {:induction false} DuplicatedExactlyWhen(c: Config, states: seq<State>, actions: seq<Action>, i: nat, r: int)
    requires IsRun(c, states, actions) && i < |states|
    ensures r in states[i].duplicated <==> exists j :: 0 <= j < i && DuplicatesPacketOf(states, actions, j, r)
  {
    if i > 0 {
      DuplicatedExactlyWhen(c, states, actions, i - 1, r);
      assert StepAt(c, states, actions, i - 1);
      if DuplicatesPacketOf(states, actions, i - 1, r) {
        assert r in states[i].duplicated;
      }
    }
  }

  /** A finished round without its model, or an unfinished one without its trigger or an update. */
  ghost predicate Lacking(c: Config, s: State, r: int) {
    if r in s.done then Models(s.net, r) + EvalCount(s.evaluated, r) == 0
    else Triggers(s.net, r) + Known(s, r) == 0 || Remaining(c, s, r) < |c.ids|
  }

  /** There are never more updates than workers, and a round that lost a packet lacks something. */
  ghost predicate LossShows(c: Config, s: State, r: int) {
    && (r !in s.done ==> Remaining(c, s, r) <= |c.ids|)
    && (r in s.lost ==> Lacking(c, s, r))
  }

  lemma NoPromiseElsewhere(p: Packet, r: int)
    requires p.Round() != r
    ensures Promise(r)(p) == 0 && IsTrigger(r)(p) == 0 && IsModel(r)(p) == 0
  {
  }

  lemma StartShows(c: Config, s: State, paths: seq<Bytes>, s': State, r: int)
    requires Inv(c, s) && Next(c, s, Start(paths), s') && r in s'.paths
    requires r in s.paths ==> LossShows(c, s, r)
    ensures LossShows(c, s', r)
  {
    if |paths| != |c.ids| {
      assert s.net + [] == s.net;
    } else if r in s.paths {
      StartCarries(c, s.net, s'.roundID, paths, r, None);
      StartPromises(s.net, s'.roundID, |c.ids|, paths, r);
    } else {
      NothingPromised(c, s, r);
      StartPromises(s.net, s'.roundID, |c.ids|, paths, r);
    }
  }

  lemma NothingPromised(c: Config, s: State, r: int)
    requires Inv(c, s) && r !in s.paths
    ensures SumBy(s.net, Promise(r)) == 0 && Aggregator.Pending(s.agg, r) == [] && r !in s.lost && r !in s.done
  {
    assert Idle(c, s, r);
    forall p | p in s.net
      ensures Promise(r)(p) == 0
    {
      assert PacketOk(c, s, p);
    }
    NoPromise(s.net, r);
  }

  lemma TrainShows(c: Config, s: State, k: nat, s': State, r: int)
    requires Next(c, s, Train(k), s') && LossShows(c, s, r)
    ensures LossShows(c, s', r)
  {
    var p := s.net[k];
    var reply := WorkerReply(c.files, c.ids[p.worker], p.round, p.path);
    NetReplace(c, s.net, k, reply, r);
    SumByReplace(s.net, k, reply, Promise(r));
    if reply != [] {
      assert reply == [reply[0]];
      OnePacket(c, reply[0], r);
      SumBySingle(reply[0], Promise(r));
    }
  }

  lemma EvaluateShows(c: Config, s: State, k: nat, model: GlobalModel, metrics: Metrics, s': State, r: int)
    requires Next(c, s, Evaluate(k, model, metrics), s') && LossShows(c, s, r)
    ensures LossShows(c, s', r)
  {
    NetReplace(c, s.net, k, [], r);
    assert Without(s.net, k) + [] == s'.net;
    SumByRemove(s.net, k, Promise(r));
    SumByNext(s.evaluated, Evaluation(s.net[k].model.round, model, metrics), IsEvaluationOf(r));
  }

  /** What a round can lose: a model once it is finished, its trigger or an update before. */
  lemma LoseShows(c: Config, s: State, k: nat, s': State, r: int)
    requires Inv(c, s) && Next(c, s, Lose(k), s') && r in s.paths && r !in s.duplicated && LossShows(c, s, r)
    ensures LossShows(c, s', r)
  {
    var p := s.net[k];
    NetReplace(c, s.net, k, [], r);
    assert Without(s.net, k) + [] == s'.net;
    SumByRemove(s.net, k, Promise(r));
    if p.Round() != r {
      NoPromiseElsewhere(p, r);
    } else {
      assert RoundInv(c, s, r);
      match p {
        case TrainRequest(_, _, path) => SumByMember(s.net, p, OwedBy(c, r, Contribution(c, path)));
        case ToAggregator(Update(u)) => SumByMember(s.net, p, OwedBy(c, r, Some(FromUpdate(u))));
        case ToAggregator(Trigger(_, _)) => SumByMember(s.net, p, IsTrigger(r));
        case ToCoordinator(_) => SumByMember(s.net, p, IsModel(r));
      }
    }
  }

  lemma CollectShows(c: Config, s: State, k: nat, s': State, r: int)
    requires Inv(c, s) && Next(c, s, Collect(k), s') && r in s.paths && r !in s.duplicated && LossShows(c, s, r)
    ensures LossShows(c, s', r)
  {
    var m := s.net[k].msg;
    var batches := Aggregator.Step(s.agg, m).1;
    if m.Round() != r {
      PassedBy(c, s, k, s', r);
    } else if batches == [] {
      Waited(c, s, k, s', r);
    } else {
      Fired(c, s, k, s', r);
    }
  }

  lemma PassedBy(c: Config, s: State, k: nat, s': State, r: int)
    requires Next(c, s, Collect(k), s') && s.net[k].msg.Round() != r && LossShows(c, s, r)
    ensures LossShows(c, s', r)
  {
    var batches := Aggregator.Step(s.agg, s.net[k].msg).1;
    BatchesElsewhere(s.agg, s.net[k].msg, r);
    Aggregator.StepForRound(s.agg, s.net[k].msg, r);
    PacketsElsewhere(c, s.net, k, batches, r);
    PromisesElsewhere(s.net, k, ModelPackets(batches), r);
  }

  lemma PromisesElsewhere(net: seq<Packet>, k: nat, more: seq<Packet>, r: int)
    requires k < |net| && net[k].Round() != r
    requires forall p :: p in more ==> p.ToCoordinator?
    ensures SumBy(Without(net, k) + more, Promise(r)) == SumBy(net, Promise(r))
  {
    SumByReplace(net, k, more, Promise(r));
    NoPromiseElsewhere(net[k], r);
    NoPromise(more, r);
  }

  lemma Waited(c: Config, s: State, k: nat, s': State, r: int)
    requires Inv(c, s) && Next(c, s, Collect(k), s') && s.net[k].msg.Round() == r && r !in s.duplicated && LossShows(c, s, r)
    requires Aggregator.Step(s.agg, s.net[k].msg).1 == []
    ensures LossShows(c, s', r)
  {
    CollectedIsOpen(c, s, k);
    Aggregator.StepForRound(s.agg, s.net[k].msg, r);
    assert ModelPackets([]) == [];
    CargoMoves(c, s, k, []);
    SumByReplace(s.net, k, [], Promise(r));
  }

  /** A round that has lost a packet does not reach the point where the aggregator fires. */
  lemma Fired(c: Config, s: State, k: nat, s': State, r: int)
    requires Inv(c, s) && Next(c, s, Collect(k), s') && s.net[k].msg.Round() == r && r !in s.duplicated && LossShows(c, s, r)
    requires Aggregator.Step(s.agg, s.net[k].msg).1 != []
    ensures LossShows(c, s', r)
  {
    var m := s.net[k].msg;
    CollectedIsOpen(c, s, k);
    BatchIsComplete(c, s, k);
    assert Aggregator.Batch(r, Got(s, m)) in Aggregator.Step(s.agg, m).1;
    if r in s.lost {
      if Remaining(c, s, r) < |c.ids| {
        TooFewToFire(c, s, k, r);
      } else {
        Aggregator.StepForRound(s.agg, m, r);
        if m.Trigger? {
          SumByMember(s.net, s.net[k], IsTrigger(r));
        }
      }
    }
  }

  lemma StepShows(c: Config, s: State, a: Action, s': State, r: int)
    requires Inv(c, s) && Next(c, s, a, s') && r in s'.paths && r !in s'.duplicated
    requires r in s.paths ==> LossShows(c, s, r)
    ensures LossShows(c, s', r)
  {
    match a {
      case Start(paths) => StartShows(c, s, paths, s', r);
      case Train(k) => TrainShows(c, s, k, s', r);
      case Collect(k) => CollectShows(c, s, k, s', r);
      case Evaluate(k, model, metrics) => EvaluateShows(c, s, k, model, metrics, s', r);
      case Lose(k) => LoseShows(c, s, k, s', r);
      case Duplicate(k) =>
        NoPromiseElsewhere(s.net[k], r);
        CopiedElsewhere(c, s.net, s.net[k], r);
        SumByNext(s.net, s.net[k], Promise(r));
    }
  }

  lemma {:induction false} RunShows(c: Config, states: seq<State>, actions: seq<Action>, i: nat, r: int)
    requires IsRun(c, states, actions) && i < |states| && r in states[i].paths && r !in states[i].duplicated
    ensures LossShows(c, states[i], r)
  {
    RunKeepsInv(c, states, actions);
    if i > 0 {
      assert states[i - 1] in states;
      assert StepAt(c, states, actions, i - 1);
      if r in states[i - 1].paths {
        RunShows(c, states, actions, i - 1, r);
      }
      StepShows(c, states[i - 1], actions[i - 1], states[i], r);
    }
  }

  /** An intact round without packets in flight has all its updates and its trigger at the
      aggregator, which is when it fires: it cannot be unfinished. */
  lemma QuiescentRoundIsDone(c: Config, s: State, r: int)
    requires s.net == [] && PathsOk(c, s) && r in s.paths
    ensures !Open(c, s, r, true)
  {
    if Open(c, s, r, true) {
      var held := multiset(AllSome(Aggregator.Pending(s.agg, r)));
      forall o
        ensures held[o] == Full(c, s, r)[o]
      {
        assert Around(c, s, r, o) == Full(c, s, r)[o];
      }
      assert held == Full(c, s, r);
      AllSomeCounts(Aggregator.Pending(s.agg, r));
      ContributionsLength(c, s.paths[r]);
    }
  }

  /** When no packet is left in flight, a round has been evaluated exactly once if all its workers
      could read their files and none of its packets was lost, and otherwise not at all, provided none of
      its packets was duplicated. Losses and duplications in other rounds do not matter. */
  lemma EvaluatedExactlyWhen(c: Config, states: seq<State>, actions: seq<Action>, r: int)
    requires IsRun(c, states, actions) && states[|actions|].net == []
    requires r in states[|actions|].paths && r !in states[|actions|].duplicated
    ensures var s := states[|actions|];
            EvalCount(s.evaluated, r) == if AllReadable(c, s.paths[r]) && r !in s.lost then 1 else 0
  {
    var s := states[|actions|];
    RunKeepsInv(c, states, actions);
    assert s in states;
    assert RoundInv(c, s, r);
    RunShows(c, states, actions, |actions|, r);
    if Intact(c, s, r) && r !in s.done {
      QuiescentRoundIsDone(c, s, r);
    }
  }

  /** A round no packet of which was lost or duplicated ends with the evaluation of the centrally trained model. */
  lemma CentralModelArrives(c: Config, states: seq<State>, actions: seq<Action>, r: int, shards: seq<seq<Record>>)
    returns (e: Evaluation)
    requires IsRun(c, states, actions) && states[|actions|].net == []
    requires r in states[|actions|].paths && r !in states[|actions|].lost && r !in states[|actions|].duplicated
    requires HoldShards(c, states[|actions|].paths[r], shards) && AllSafe(Flatten(shards))
    ensures EvalCount(states[|actions|].evaluated, r) == 1
    ensures e in states[|actions|].evaluated && e.round == r && e.model == CentralModel(Flatten(shards))
  {
    var s := states[|actions|];
    ShardsAreRead(c, s.paths[r], shards);
    EvaluatedExactlyWhen(c, states, actions, r);
    e := SumByPositive(s.evaluated, IsEvaluationOf(r));
    FederatedEqualsCentral(c, states, actions, s, e, shards, Flatten(shards));
  }

  // ----- Round ids -----

  /** The rounds of t are those of s, with the same paths, and rounds with larger ids. */
  ghost predicate Extends(s: State, t: State) {
    && s.roundID <= t.roundID
    && (forall r :: r in s.paths ==> r in t.paths && t.paths[r] == s.paths[r])
    && (forall r :: r in t.paths && r !in s.paths ==> r > s.roundID)
  }

  lemma StepExtends(c: Config, s: State, a: Action, s': State)
    requires PathsOk(c, s) && Next(c, s, a, s')
    ensures Extends(s, s')
  {
  }

  lemma ExtendsTransitive(s: State, t: State, u: State)
    requires Extends(s, t) && Extends(t, u)
    ensures Extends(s, u)
  {
  }

  /** Round ids only grow: a round once started keeps its id and its paths, and every later start
      takes a larger id. */
  lemma {:induction false} RoundsNeverReused(c: Config, states: seq<State>, actions: seq<Action>, i: nat, j: nat)
    requires IsRun(c, states, actions) && i <= j < |states|
    ensures Extends(states[i], states[j])
  {
    if i < j {
      RoundsNeverReused(c, states, actions, i, j - 1);
      RunKeepsInv(c, states, actions);
      assert states[j - 1] in states;
      assert StepAt(c, states, actions, j - 1);
      StepExtends(c, states[j - 1], actions[j - 1], states[j]);
      ExtendsTransitive(states[i], states[j - 1], states[j]);
    }
  }

  // ----- Quiescence -----

  /** How many deliveries a packet can still cause. */
  function Weight(): Packet -> nat {
    (p: Packet) => match p case TrainRequest(_, _, _) => 3 case ToAggregator(_) => 2 case ToCoordinator(_) => 1
  }

  /** Every step other than a start or a duplication uses the network up. */
  lemma DeliveryUsesUp(c: Config, s: State, a: Action, s': State)
    requires Next(c, s, a, s') && !a.Start? && !a.Duplicate?
    ensures SumBy(s'.net, Weight()) < SumBy(s.net, Weight())
  {
    match a {
      case Train(k) =>
        var p := s.net[k];
        var reply := WorkerReply(c.files, c.ids[p.worker], p.round, p.path);
        SumByReplace(s.net, k, reply, Weight());
        if reply != [] {
          SumBySingle(reply[0], Weight());
          assert reply == [reply[0]];
        }
      case Collect(k) =>
        var batches := Aggregator.Step(s.agg, s.net[k].msg).1;
        var more := ModelPackets(batches);
        SumByReplace(s.net, k, more, Weight());
        Aggregator.StepForRound(s.agg, s.net[k].msg, s.net[k].msg.Round());
        if batches != [] {
          assert more == [more[0]];
          SumBySingle(more[0], Weight());
        }
      case Evaluate(k, _, _) =>
        SumByRemove(s.net, k, Weight());
      case Lose(k) =>
        SumByRemove(s.net, k, Weight());
    }
  }

  /** The steps of a run after its i-th state are bounded by the weight of the network there, as long
      as no new round is started and nothing is duplicated. */
  lemma {:induction false} DeliveriesEnd(c: Config, states: seq<State>, actions: seq<Action>, i: nat, j: nat)
    requires IsRun(c, states, actions) && i <= j < |states|
    requires forall k :: i <= k < j ==> !actions[k].Start? && !actions[k].Duplicate?
    ensures (j - i) + SumBy(states[j].net, Weight()) <= SumBy(states[i].net, Weight())
  {
    if i < j {
      DeliveriesEnd(c, states, actions, i, j - 1);
      assert StepAt(c, states, actions, j - 1);
      DeliveryUsesUp(c, states[j - 1], actions[j - 1], states[j]);
    }
  }

  /** As long as a packet is in flight some actor can take it: the protocol is never stuck. */
  lemma NeverStuck(c: Config, s: State) returns (a: Action, s': State)
    requires Inv(c, s) && s.net != []
    ensures !a.Lose? && !a.Duplicate? && !a.Start? && Next(c, s, a, s')
  {
    var p := s.net[0];
    assert PacketOk(c, s, p);
    match p {
      case TrainRequest(i, q, path) =>
        a := Train(0);
        s' := s.(net := Without(s.net, 0) + WorkerReply(c.files, c.ids[i], q, path));
      case ToAggregator(m) =>
        a := Collect(0);
        var (agg, batches) := Aggregator.Step(s.agg, m);
        s' := s.(agg := agg, net := Without(s.net, 0) + ModelPackets(batches), done := s.done + BatchRounds(batches));
      case ToCoordinator(m) =>
        var model := RebuildExists(m);
        var metrics := EvaluationExists(model, c.test);
        a := Evaluate(0, model, metrics);
        s' := s.(net := Without(s.net, 0), evaluated := s.evaluated + [Evaluation(m.round, model, metrics)]);
    }
  }
}
