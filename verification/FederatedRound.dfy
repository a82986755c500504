/** Federated training as a distributed protocol: a coordinator, any number of workers and an
    aggregator, connected by a network that reorders, loses and duplicates packets. Any number of
    rounds may be under way at the same time. */
module FederatedRound {
  import opened Dataset
  import opened MapSums
  import opened NaiveBayes
  import opened NaiveBayesLaws
  import opened Prediction
  import opened Wire
  import opened Training
  import opened Wrappers
  import Aggregator

  /** What does not change: the workers, the files they can read and the test set. */
  datatype Config = Config(ids: seq<Bytes>, files: map<Bytes, Bytes>, test: seq<Record>)

  /** A model the coordinator evaluated, and the metrics it got. */
  datatype Evaluation = Evaluation(round: int, model: GlobalModel, metrics: Metrics)

  /** The state of the actors and of the network. Bookkeeping: the paths each round was started
      with, the rounds aggregated so far, and the rounds a packet of which was lost or duplicated. */
  datatype State = State(
    roundID: int,
    agg: Aggregator.State,
    net: seq<Packet>,
    evaluated: seq<Evaluation>,
    paths: map<int, seq<Bytes>>,
    done: set<int>,
    lost: set<int>,
    duplicated: set<int>)

  const INIT: State := State(0, Aggregator.INIT, [], [], map[], {}, {}, {})

  /** A step of one actor on the k-th packet in flight, the start of a round, a loss or a duplication. */
  datatype Action =
    | Start(paths: seq<Bytes>)
    | Train(k: nat)
    | Collect(k: nat)
    | Evaluate(k: nat, model: GlobalModel, metrics: Metrics)
    | Lose(k: nat)
    | Duplicate(k: nat)

  function BatchRounds(batches: seq<Aggregator.Batch>): set<int> {
    set b | b in batches :: b.round
  }

  ghost function ModelPackets(batches: seq<Aggregator.Batch>): seq<Packet> {
    seq(|batches|, i requires 0 <= i < |batches| => ToCoordinator(ToMessage(batches[i].round, ModelOf(batches[i].counts))))
  }

  ghost predicate Next(c: Config, s: State, a: Action, s': State) {
    match a
    case Start(paths) =>
      var (roundID, sent) := StartRound(s.roundID, |c.ids|, paths);
      s' == s.(roundID := roundID, net := s.net + sent,
               paths := if roundID != s.roundID then s.paths[roundID := paths] else s.paths)
    case Train(k) =>
      && k < |s.net| && s.net[k].TrainRequest? && s.net[k].worker < |c.ids|
      && s' == s.(net := Without(s.net, k)
                         + WorkerReply(c.files, c.ids[s.net[k].worker], s.net[k].round, s.net[k].path))
    case Collect(k) =>
      && k < |s.net| && s.net[k].ToAggregator?
      && var (agg, batches) := Aggregator.Step(s.agg, s.net[k].msg);
         s' == s.(agg := agg, net := Without(s.net, k) + ModelPackets(batches), done := s.done + BatchRounds(batches))
    case Evaluate(k, model, metrics) =>
      && k < |s.net| && s.net[k].ToCoordinator?
      && IsRebuilt(s.net[k].model, model) && IsEvaluation(model, c.test, metrics)
      && s' == s.(net := Without(s.net, k),
                  evaluated := s.evaluated + [Evaluation(s.net[k].model.round, model, metrics)])
    case Lose(k) =>
      k < |s.net| && s' == s.(net := Without(s.net, k), lost := s.lost + {s.net[k].Round()})
    case Duplicate(k) =>
      k < |s.net| && s' == s.(net := s.net + [s.net[k]], duplicated := s.duplicated + {s.net[k].Round()})
  }

  ghost predicate IsRun(c: Config, states: seq<State>, actions: seq<Action>) {
    && |states| == |actions| + 1
    && states[0] == INIT
    && forall i :: 0 <= i < |actions| ==> StepAt(c, states, actions, i)
  }

  ghost predicate StepAt(c: Config, states: seq<State>, actions: seq<Action>, i: nat)
    requires i < |actions| && |states| == |actions| + 1
  {
    Next(c, states[i], actions[i], states[i + 1])
  }

  // ----- What a round is worth -----

  /** The counts a worker gets from a file, if it can read it. */
  function Contribution(c: Config, path: Bytes): Option<LocalCounts> {
    match LoadFrom(c.files, path)
    case Loaded(records) => Some(CountsOf(records))
    case Failed(_) => None
  }

  function Contributions(c: Config, paths: seq<Bytes>): seq<Option<LocalCounts>> {
    if paths == [] then []
    else Contributions(c, paths[..|paths| - 1]) + [Contribution(c, paths[|paths| - 1])]
  }

  function AllSome(us: seq<LocalCounts>): seq<Option<LocalCounts>> {
    if us == [] then [] else AllSome(us[..|us| - 1]) + [Some(us[|us| - 1])]
  }

  ghost predicate AllReadable(c: Config, paths: seq<Bytes>) {
    forall p :: p in paths ==> LoadFrom(c.files, p).Loaded?
  }

  /** The shards the workers of a round read. */
  function Shards(c: Config, paths: seq<Bytes>): seq<seq<Record>>
    requires forall p :: p in paths ==> LoadFrom(c.files, p).Loaded?
  {
    if paths == [] then []
    else
      var n := |paths| - 1;
      Shards(c, paths[..n]) + [LoadFrom(c.files, paths[n]).records]
  }

  lemma LocalsNext(shards: seq<seq<Record>>, shard: seq<Record>)
    ensures AllSome(Locals(shards + [shard])) == AllSome(Locals(shards)) + [Some(CountsOf(shard))]
  {
    assert (shards + [shard])[..|shards|] == shards;
    var us := Locals(shards + [shard]);
    assert us == Locals(shards) + [CountsOf(shard)];
    assert us[..|shards|] == Locals(shards);
  }

  lemma {:induction false} ContributionsOfShards(c: Config, paths: seq<Bytes>)
    requires AllReadable(c, paths)
    ensures Contributions(c, paths) == AllSome(Locals(Shards(c, paths)))
  {
    if paths != [] {
      var n := |paths| - 1;
      ContributionsOfShards(c, paths[..n]);
      assert paths[n] in paths;
      LocalsNext(Shards(c, paths[..n]), LoadFrom(c.files, paths[n]).records);
    }
  }

  lemma {:induction false} ContributionsLength(c: Config, paths: seq<Bytes>)
    ensures |Contributions(c, paths)| == |paths|
    ensures None in Contributions(c, paths) <==> !AllReadable(c, paths)
  {
    if paths != [] {
      var n := |paths| - 1;
      assert paths == paths[..n] + [paths[n]];
      ContributionsLength(c, paths[..n]);
    }
  }

  lemma {:induction false} AllSomeCounts(us: seq<LocalCounts>)
    ensures |AllSome(us)| == |us| && None !in AllSome(us)
    ensures forall u :: multiset(AllSome(us))[Some(u)] == multiset(us)[u]
  {
    if us != [] {
      var n := |us| - 1;
      assert us == us[..n] + [us[n]];
      AllSomeCounts(us[..n]);
    }
  }

  /** Wrapping loses nothing. */
  lemma AllSomeInjective(us: seq<LocalCounts>, vs: seq<LocalCounts>)
    requires multiset(AllSome(us)) == multiset(AllSome(vs))
    ensures multiset(us) == multiset(vs)
  {
    AllSomeCounts(us);
    AllSomeCounts(vs);
    forall u
      ensures multiset(us)[u] == multiset(vs)[u]
    {
      assert multiset(AllSome(us))[Some(u)] == multiset(AllSome(vs))[Some(u)];
    }
  }

  lemma NoneMissing(c: Config, paths: seq<Bytes>, got: seq<LocalCounts>)
    requires multiset(AllSome(got)) == multiset(Contributions(c, paths))
    ensures AllReadable(c, paths)
  {
    AllSomeCounts(got);
    ContributionsLength(c, paths);
    assert None !in multiset(AllSome(got));
    assert None !in multiset(Contributions(c, paths));
  }

  /** Collected counts that are, as a multiset, all contributions of a round give the round's model. */
  lemma CompleteBatch(c: Config, paths: seq<Bytes>, got: seq<LocalCounts>)
    requires multiset(AllSome(got)) == multiset(Contributions(c, paths))
    ensures AllReadable(c, paths)
    ensures ModelOf(got) == ModelOf(Locals(Shards(c, paths)))
  {
    NoneMissing(c, paths, got);
    ContributionsOfShards(c, paths);
    AllSomeInjective(got, Locals(Shards(c, paths)));
    ModelIgnoresOrder(got, Locals(Shards(c, paths)));
  }

  // ----- The packets in flight, seen from one round -----

  /** Whether a packet carries contribution o of round r: as a request that will produce it or as
      the update itself. */
  predicate Carries(c: Config, p: Packet, r: int, o: Option<LocalCounts>) {
    match p
    case TrainRequest(_, q, path) => q == r && Contribution(c, path) == o
    case ToAggregator(Update(u)) => u.round == r && Some(FromUpdate(u)) == o
    case _ => false
  }

  function OwedBy(c: Config, r: int, o: Option<LocalCounts>): Packet -> nat {
    (p: Packet) => if Carries(c, p, r, o) then 1 else 0
  }

  function IsTrigger(r: int): Packet -> nat {
    (p: Packet) => if p.ToAggregator? && p.msg.Trigger? && p.msg.round == r then 1 else 0
  }

  function IsModel(r: int): Packet -> nat {
    (p: Packet) => if p.ToCoordinator? && p.model.round == r then 1 else 0
  }

  function IsEvaluationOf(r: int): Evaluation -> nat {
    (e: Evaluation) => if e.round == r then 1 else 0
  }

  /** How often contribution o of round r is on its way. */
  function Owed(c: Config, net: seq<Packet>, r: int, o: Option<LocalCounts>): nat {
    SumBy(net, OwedBy(c, r, o))
  }

  function Triggers(net: seq<Packet>, r: int): nat {
    SumBy(net, IsTrigger(r))
  }

  function Models(net: seq<Packet>, r: int): nat {
    SumBy(net, IsModel(r))
  }

  function EvalCount(evaluated: seq<Evaluation>, r: int): nat {
    SumBy(evaluated, IsEvaluationOf(r))
  }

  // ----- The invariant -----

  /** How often contribution o of round r is on its way or held by the aggregator. */
  ghost function Around(c: Config, s: State, r: int, o: Option<LocalCounts>): nat {
    Owed(c, s.net, r, o) + multiset(AllSome(Aggregator.Pending(s.agg, r)))[o]
  }

  ghost function Full(c: Config, s: State, r: int): multiset<Option<LocalCounts>>
    requires r in s.paths
  {
    multiset(Contributions(c, s.paths[r]))
  }

  /** A finished round has left nothing behind but its one model. */
  ghost predicate Finished(c: Config, s: State, r: int, intact: bool) {
    && (forall o :: Owed(c, s.net, r, o) == 0)
    && Triggers(s.net, r) == 0
    && Aggregator.Pending(s.agg, r) == []
    && r !in s.agg.expected
    && Models(s.net, r) + EvalCount(s.evaluated, r) <= 1
    && (intact ==> Models(s.net, r) + EvalCount(s.evaluated, r) == 1)
  }

  function Known(s: State, r: int): nat {
    if r in s.agg.expected then 1 else 0
  }

  /** In an unfinished round nothing is around more often than it was sent. */
  ghost predicate Open(c: Config, s: State, r: int, intact: bool)
    requires r in s.paths
  {
    && (forall o :: Around(c, s, r, o) <= Full(c, s, r)[o])
    && (intact ==> forall o :: Around(c, s, r, o) == Full(c, s, r)[o])
    && Triggers(s.net, r) + Known(s, r) <= 1
    && (intact ==> Triggers(s.net, r) + Known(s, r) == 1)
    && (r in s.agg.expected ==> s.agg.expected[r] == |c.ids| && |Aggregator.Pending(s.agg, r)| < |c.ids|)
    && Models(s.net, r) == 0
    && EvalCount(s.evaluated, r) == 0
  }

  /** The workers of the round can read their files and none of its packets was lost. */
  ghost predicate Intact(c: Config, s: State, r: int)
    requires r in s.paths
  {
    r !in s.lost && AllReadable(c, s.paths[r])
  }

  ghost predicate RoundInv(c: Config, s: State, r: int)
    requires r in s.paths
  {
    if r in s.done then Finished(c, s, r, Intact(c, s, r)) else Open(c, s, r, Intact(c, s, r))
  }

  /** A round that was not started has left no trace. */
  ghost predicate Idle(c: Config, s: State, r: int) {
    && (forall o :: Owed(c, s.net, r, o) == 0)
    && Triggers(s.net, r) == 0
    && Aggregator.Pending(s.agg, r) == []
    && r !in s.agg.expected
    && Models(s.net, r) == 0
    && EvalCount(s.evaluated, r) == 0
    && r !in s.done && r !in s.lost && r !in s.duplicated
  }

  /** The model of a round. */
  ghost function RoundModel(c: Config, paths: seq<Bytes>): GlobalModel
    requires AllReadable(c, paths)
  {
    ModelOf(Locals(Shards(c, paths)))
  }

  ghost predicate PacketOk(c: Config, s: State, p: Packet) {
    match p
    case TrainRequest(i, q, path) => q in s.paths && i < |c.ids|
    case ToAggregator(Trigger(q, n)) => q in s.paths && n == |c.ids|
    case ToAggregator(Update(u)) => u.round in s.paths
    case ToCoordinator(m) =>
      && m.round in s.paths
      && (m.round !in s.duplicated ==>
            m.round in s.done && AllReadable(c, s.paths[m.round])
            && m == ToMessage(m.round, RoundModel(c, s.paths[m.round])))
  }

  ghost predicate EvaluationOk(c: Config, s: State, e: Evaluation) {
    && e.round in s.paths
    && IsEvaluation(e.model, c.test, e.metrics)
    && (e.round !in s.duplicated ==>
          e.round in s.done && AllReadable(c, s.paths[e.round]) && e.model == RoundModel(c, s.paths[e.round]))
  }

  ghost predicate PathsOk(c: Config, s: State) {
    && s.roundID >= 0
    && (forall r :: r in s.paths <==> 1 <= r <= s.roundID)
    && (forall r :: r in s.paths ==> |s.paths[r]| == |c.ids|)
    && (forall r :: r in s.done ==> r in s.paths && (r !in s.duplicated ==> AllReadable(c, s.paths[r])))
  }

  /** Every round none of whose packets was duplicated is in order, whether or not it has been started. */
  ghost predicate RoundsOk(c: Config, s: State) {
    && (forall r :: r in s.paths && r !in s.duplicated ==> RoundInv(c, s, r))
    && (forall r :: r !in s.paths ==> Idle(c, s, r))
  }

  ghost predicate Inv(c: Config, s: State) {
    && PathsOk(c, s)
    && (forall p :: p in s.net ==> PacketOk(c, s, p))
    && (forall e :: e in s.evaluated ==> EvaluationOk(c, s, e))
    && RoundsOk(c, s)
  }

  lemma InitInv(c: Config)
    ensures Inv(c, INIT)
  {
  }

  // ----- Start -----

  lemma {:induction false} RequestsCarry(c: Config, q: int, paths: seq<Bytes>, r: int, o: Option<LocalCounts>)
    ensures Owed(c, Requests(q, paths), r, o) == if q == r then multiset(Contributions(c, paths))[o] else 0
    ensures Triggers(Requests(q, paths), r) == 0 && Models(Requests(q, paths), r) == 0
  {
    if paths != [] {
      var n := |paths| - 1;
      var p := TrainRequest(n, q, paths[n]);
      RequestsCarry(c, q, paths[..n], r, o);
      SumByNext(Requests(q, paths[..n]), p, OwedBy(c, r, o));
      SumByNext(Requests(q, paths[..n]), p, IsTrigger(r));
      SumByNext(Requests(q, paths[..n]), p, IsModel(r));
    }
  }

  /** What the start of round q adds to the network. */
  lemma StartCarries(c: Config, net: seq<Packet>, q: int, paths: seq<Bytes>, r: int, o: Option<LocalCounts>)
    ensures var net' := net + ([ToAggregator(Aggregator.Trigger(q, |c.ids|))] + Requests(q, paths));
            && Owed(c, net', r, o) == Owed(c, net, r, o) + (if q == r then multiset(Contributions(c, paths))[o] else 0)
            && Triggers(net', r) == Triggers(net, r) + (if q == r then 1 else 0)
            && Models(net', r) == Models(net, r)
  {
    var t := ToAggregator(Aggregator.Trigger(q, |c.ids|));
    var sent := [t] + Requests(q, paths);
    RequestsCarry(c, q, paths, r, o);
    SumByAppend(net, sent, OwedBy(c, r, o));
    SumByAppend([t], Requests(q, paths), OwedBy(c, r, o));
    SumBySingle(t, OwedBy(c, r, o));
    SumByAppend(net, sent, IsTrigger(r));
    SumByAppend([t], Requests(q, paths), IsTrigger(r));
    SumBySingle(t, IsTrigger(r));
    SumByAppend(net, sent, IsModel(r));
    SumByAppend([t], Requests(q, paths), IsModel(r));
    SumBySingle(t, IsModel(r));
  }

  lemma {:induction false} RequestsOk(c: Config, s: State, q: int, paths: seq<Bytes>)
    requires q in s.paths && |paths| <= |c.ids|
    ensures forall p :: p in Requests(q, paths) ==> PacketOk(c, s, p)
  {
    if paths != [] {
      RequestsOk(c, s, q, paths[..|paths| - 1]);
    }
  }

  lemma StartKeepsInv(c: Config, s: State, paths: seq<Bytes>, s': State)
    requires Inv(c, s) && Next(c, s, Start(paths), s')
    ensures Inv(c, s')
  {
    if |paths| == |c.ids| {
      StartPackets(c, s, paths, s');
      forall r
        ensures r in s'.paths && r !in s'.duplicated ==> RoundInv(c, s', r)
        ensures r !in s'.paths ==> Idle(c, s', r)
      {
        StartRoundInv(c, s, paths, s', r);
      }
    } else {
      assert s.net + [] == s.net;
      assert s' == s;
    }
  }

  lemma StartPackets(c: Config, s: State, paths: seq<Bytes>, s': State)
    requires Inv(c, s) && Next(c, s, Start(paths), s') && |paths| == |c.ids|
    ensures PathsOk(c, s')
    ensures forall p :: p in s'.net ==> PacketOk(c, s', p)
    ensures forall e :: e in s'.evaluated ==> EvaluationOk(c, s', e)
  {
    var q := s'.roundID;
    assert q !in s.paths;
    RequestsOk(c, s', q, paths);
    forall p | p in s'.net
      ensures PacketOk(c, s', p)
    {
      if p in s.net {
        assert PacketOk(c, s, p);
      }
    }
    forall e | e in s'.evaluated
      ensures EvaluationOk(c, s', e)
    {
      assert EvaluationOk(c, s, e);
    }
  }

  lemma StartRoundInv(c: Config, s: State, paths: seq<Bytes>, s': State, r: int)
    requires Inv(c, s) && Next(c, s, Start(paths), s') && |paths| == |c.ids|
    ensures r in s'.paths && r !in s'.duplicated ==> RoundInv(c, s', r)
    ensures r !in s'.paths ==> Idle(c, s', r)
  {
    var q := s'.roundID;
    forall o
      ensures Owed(c, s'.net, r, o) == Owed(c, s.net, r, o) + if q == r then multiset(Contributions(c, paths))[o] else 0
    {
      StartCarries(c, s.net, q, paths, r, o);
    }
    StartCarries(c, s.net, q, paths, r, None);
    if r == q {
      FreshRound(c, s, s', r);
    } else {
      assert SameView(c, s, s', r);
      KeepView(c, s, s', r);
    }
  }

  /** Nothing about round r differs between two states. */
  ghost predicate SameView(c: Config, s: State, s': State, r: int) {
    && (forall o :: Owed(c, s'.net, r, o) == Owed(c, s.net, r, o))
    && Triggers(s'.net, r) == Triggers(s.net, r)
    && Models(s'.net, r) == Models(s.net, r)
    && SameActors(s, s', r)
  }

  ghost predicate SameActors(s: State, s': State, r: int) {
    && Aggregator.Pending(s'.agg, r) == Aggregator.Pending(s.agg, r)
    && (r in s'.agg.expected <==> r in s.agg.expected)
    && (r in s.agg.expected ==> s'.agg.expected[r] == s.agg.expected[r])
    && EvalCount(s'.evaluated, r) == EvalCount(s.evaluated, r)
    && (r in s'.done <==> r in s.done)
    && (r in s'.lost <==> r in s.lost)
    && (r in s'.duplicated <==> r in s.duplicated)
    && (r in s'.paths <==> r in s.paths)
    && (r in s.paths ==> s'.paths[r] == s.paths[r])
  }

  lemma KeepView(c: Config, s: State, s': State, r: int)
    requires SameView(c, s, s', r) && RoundsOk(c, s)
    ensures r in s'.paths && r !in s'.duplicated ==> RoundInv(c, s', r)
    ensures r !in s'.paths ==> Idle(c, s', r)
  {
    if r !in s.paths {
      assert Idle(c, s, r);
    } else if r !in s.duplicated {
      assert RoundInv(c, s, r);
      if r !in s.done {
        assert forall o :: Around(c, s', r, o) == Around(c, s, r, o);
      }
    }
  }

  lemma FreshRound(c: Config, s: State, s': State, r: int)
    requires Idle(c, s, r) && r in s'.paths
    requires s'.agg == s.agg && s'.evaluated == s.evaluated && s'.done == s.done && s'.lost == s.lost
    requires forall o :: Owed(c, s'.net, r, o) == Owed(c, s.net, r, o) + Full(c, s', r)[o]
    requires Triggers(s'.net, r) == Triggers(s.net, r) + 1
    requires Models(s'.net, r) == Models(s.net, r)
    ensures RoundInv(c, s', r)
  {
    assert multiset(AllSome([])) == multiset{};
    assert forall o :: Around(c, s', r, o) == Full(c, s', r)[o];
  }

  // ----- Packets taken out of the network -----

  /** The network after its k-th packet is replaced by others. */
  lemma NetReplace(c: Config, net: seq<Packet>, k: nat, more: seq<Packet>, r: int)
    requires k < |net|
    ensures var net' := Without(net, k) + more;
            && (forall o :: Owed(c, net', r, o) + OwedBy(c, r, o)(net[k]) == Owed(c, net, r, o) + Owed(c, more, r, o))
            && Triggers(net', r) + IsTrigger(r)(net[k]) == Triggers(net, r) + Triggers(more, r)
            && Models(net', r) + IsModel(r)(net[k]) == Models(net, r) + Models(more, r)
  {
    forall o
      ensures Owed(c, Without(net, k) + more, r, o) + OwedBy(c, r, o)(net[k]) == Owed(c, net, r, o) + Owed(c, more, r, o)
    {
      SumByReplace(net, k, more, OwedBy(c, r, o));
    }
    SumByReplace(net, k, more, IsTrigger(r));
    SumByReplace(net, k, more, IsModel(r));
  }

  lemma OnePacket(c: Config, p: Packet, r: int)
    ensures forall o :: Owed(c, [p], r, o) == OwedBy(c, r, o)(p)
    ensures Triggers([p], r) == IsTrigger(r)(p)
    ensures Models([p], r) == IsModel(r)(p)
  {
    forall o
      ensures Owed(c, [p], r, o) == OwedBy(c, r, o)(p)
    {
      SumBySingle(p, OwedBy(c, r, o));
    }
    SumBySingle(p, IsTrigger(r));
    SumBySingle(p, IsModel(r));
  }

  /** Packets kept are as good as before when rounds are only started and finished. */
  lemma PacketsKept(c: Config, s: State, s': State, k: nat, more: seq<Packet>)
    requires Inv(c, s)
    requires k < |s.net| && s'.net == Without(s.net, k) + more
    requires s'.paths == s.paths && s.done <= s'.done && s.duplicated <= s'.duplicated
    requires forall p :: p in more ==> PacketOk(c, s', p)
    ensures forall p :: p in s'.net ==> PacketOk(c, s', p)
  {
    forall p | p in s'.net
      ensures PacketOk(c, s', p)
    {
      if p !in more {
        assert p in s.net;
        assert PacketOk(c, s, p);
      }
    }
  }

  lemma EvaluationsKept(c: Config, s: State, s': State)
    requires forall e :: e in s.evaluated ==> EvaluationOk(c, s, e)
    requires s'.evaluated == s.evaluated && s'.paths == s.paths && s.done <= s'.done && s.duplicated <= s'.duplicated
    ensures forall e :: e in s'.evaluated ==> EvaluationOk(c, s', e)
  {
    forall e | e in s'.evaluated
      ensures EvaluationOk(c, s', e)
    {
      assert EvaluationOk(c, s, e);
    }
  }

  /** A packet is no concern of other rounds. */
  lemma DroppedElsewhere(c: Config, s: State, s': State, k: nat, r: int)
    requires k < |s.net| && s.net[k].Round() != r
    requires s' == s.(net := Without(s.net, k), lost := s'.lost) && (r in s'.lost <==> r in s.lost)
    ensures SameView(c, s, s', r)
  {
    NetReplace(c, s.net, k, [], r);
    assert Without(s.net, k) + [] == s'.net;
  }

  /** A packet that disappears takes its cargo with it; its round is then not intact. */
  lemma DroppedHere(c: Config, s: State, s': State, k: nat, r: int)
    requires k < |s.net| && s' == s.(net := Without(s.net, k), lost := s'.lost)
    requires r in s.paths && RoundInv(c, s, r) && !Intact(c, s', r)
    ensures RoundInv(c, s', r)
  {
    NetReplace(c, s.net, k, [], r);
    assert Without(s.net, k) + [] == s'.net;
    if r !in s.done {
      forall o
        ensures Around(c, s', r, o) <= Full(c, s', r)[o]
      {
        assert Around(c, s, r, o) <= Full(c, s, r)[o];
      }
    }
  }

  lemma LoseKeepsInv(c: Config, s: State, k: nat, s': State)
    requires Inv(c, s) && Next(c, s, Lose(k), s')
    ensures Inv(c, s')
  {
    assert s'.net == Without(s.net, k) + [];
    PacketsKept(c, s, s', k, []);
    EvaluationsKept(c, s, s');
    var q := s.net[k].Round();
    assert PacketOk(c, s, s.net[k]);
    forall r
      ensures r in s'.paths && r !in s'.duplicated ==> RoundInv(c, s', r)
      ensures r !in s'.paths ==> Idle(c, s', r)
    {
      if r == q {
        if r !in s.duplicated {
          DroppedHere(c, s, s', k, r);
        }
      } else {
        DroppedElsewhere(c, s, s', k, r);
        KeepView(c, s, s', r);
      }
    }
  }

  // ----- Train -----

  lemma TrainKeepsInv(c: Config, s: State, k: nat, s': State)
    requires Inv(c, s) && Next(c, s, Train(k), s')
    ensures Inv(c, s')
  {
    var p := s.net[k];
    var reply := WorkerReply(c.files, c.ids[p.worker], p.round, p.path);
    assert PacketOk(c, s, p);
    PacketsKept(c, s, s', k, reply);
    EvaluationsKept(c, s, s');
    forall r
      ensures r in s'.paths && r !in s'.duplicated ==> RoundInv(c, s', r)
      ensures r !in s'.paths ==> Idle(c, s', r)
    {
      TrainRound(c, s, k, s', r);
    }
  }

  lemma TrainRound(c: Config, s: State, k: nat, s': State, r: int)
    requires Inv(c, s) && Next(c, s, Train(k), s')
    ensures r in s'.paths && r !in s'.duplicated ==> RoundInv(c, s', r)
    ensures r !in s'.paths ==> Idle(c, s', r)
  {
    var p := s.net[k];
    var reply := WorkerReply(c.files, c.ids[p.worker], p.round, p.path);
    NetReplace(c, s.net, k, reply, r);
    if reply != [] {
      UpdateRoundTrip(p.round, c.ids[p.worker], CountsOf(LoadFrom(c.files, p.path).records));
      OnePacket(c, reply[0], r);
      ReplyCarries(c, p, c.ids[p.worker], r);
      KeepView(c, s, s', r);
    } else if r == p.round {
      assert PacketOk(c, s, p);
      if r in s.duplicated {
        return;
      }
      UnreadableRequest(c, s, k, r);
      assert Without(s.net, k) + [] == Without(s.net, k);
      DroppedHere(c, s, s', k, r);
    } else {
      assert Without(s.net, k) + [] == Without(s.net, k);
      DroppedElsewhere(c, s, s', k, r);
      KeepView(c, s, s', r);
    }
  }

  /** The update carries the contribution the request stood for. */
  lemma ReplyCarries(c: Config, p: Packet, id: Bytes, r: int)
    requires p.TrainRequest?
    requires WorkerReply(c.files, id, p.round, p.path) != []
    ensures var u := WorkerReply(c.files, id, p.round, p.path)[0];
            && (forall o :: OwedBy(c, r, o)(p) == OwedBy(c, r, o)(u))
            && IsTrigger(r)(p) == IsTrigger(r)(u) && IsModel(r)(p) == IsModel(r)(u)
  {
    UpdateRoundTrip(p.round, id, CountsOf(LoadFrom(c.files, p.path).records));
  }

  /** A request that cannot be served belongs to a round that is not readable. */
  lemma UnreadableRequest(c: Config, s: State, k: nat, r: int)
    requires RoundsOk(c, s) && r in s.paths && r !in s.duplicated
    requires k < |s.net| && s.net[k].TrainRequest? && s.net[k].round == r && Contribution(c, s.net[k].path) == None
    ensures !AllReadable(c, s.paths[r])
  {
    SumByMember(s.net, s.net[k], OwedBy(c, r, None));
    assert Owed(c, s.net, r, None) >= 1;
    assert RoundInv(c, s, r);
    assert r !in s.done;
    assert Around(c, s, r, None) <= Full(c, s, r)[None];
    ContributionsLength(c, s.paths[r]);
  }

  // ----- Evaluate -----

  lemma EvaluateKeepsInv(c: Config, s: State, k: nat, model: GlobalModel, metrics: Metrics, s': State)
    requires Inv(c, s) && Next(c, s, Evaluate(k, model, metrics), s')
    ensures Inv(c, s')
  {
    var e := Evaluation(s.net[k].model.round, model, metrics);
    NewEvaluationOk(c, s, k, model, metrics);
    EvaluationAdded(c, s, k, e, s');
  }

  /** The evaluated model is the model of its round. */
  lemma NewEvaluationOk(c: Config, s: State, k: nat, model: GlobalModel, metrics: Metrics)
    requires Inv(c, s) && k < |s.net| && s.net[k].ToCoordinator?
    requires IsRebuilt(s.net[k].model, model) && IsEvaluation(model, c.test, metrics)
    ensures EvaluationOk(c, s, Evaluation(s.net[k].model.round, model, metrics))
  {
    var m := s.net[k].model;
    assert PacketOk(c, s, s.net[k]);
    if m.round !in s.duplicated {
      RebuiltFromLocals(Shards(c, s.paths[m.round]), m.round, model);
    }
  }

  lemma EvaluationAdded(c: Config, s: State, k: nat, e: Evaluation, s': State)
    requires Inv(c, s) && k < |s.net| && s.net[k].ToCoordinator? && e.round == s.net[k].model.round
    requires EvaluationOk(c, s, e)
    requires s' == s.(net := Without(s.net, k), evaluated := s.evaluated + [e])
    ensures Inv(c, s')
  {
    EvaluationsStay(c, s, e, s');
    assert s'.net == Without(s.net, k) + [];
    PacketsKept(c, s, s', k, []);
    forall r
      ensures r in s'.paths && r !in s'.duplicated ==> RoundInv(c, s', r)
      ensures r !in s'.paths ==> Idle(c, s', r)
    {
      EvaluateRound(c, s, k, e, s', r);
    }
  }

  lemma EvaluationsStay(c: Config, s: State, e: Evaluation, s': State)
    requires EvaluationOk(c, s, e) && forall x :: x in s.evaluated ==> EvaluationOk(c, s, x)
    requires s'.evaluated == s.evaluated + [e] && s'.paths == s.paths && s'.done == s.done && s'.duplicated == s.duplicated
    ensures forall x :: x in s'.evaluated ==> EvaluationOk(c, s', x)
  {
    forall x | x in s'.evaluated
      ensures EvaluationOk(c, s', x)
    {
      assert EvaluationOk(c, s, x);
    }
  }

  lemma EvaluateRound(c: Config, s: State, k: nat, e: Evaluation, s': State, r: int)
    requires RoundsOk(c, s)
    requires k < |s.net| && s.net[k].ToCoordinator? && e.round == s.net[k].model.round
    requires e.round in s.paths && (e.round !in s.duplicated ==> e.round in s.done)
    requires s' == s.(net := Without(s.net, k), evaluated := s.evaluated + [e])
    ensures r in s'.paths && r !in s'.duplicated ==> RoundInv(c, s', r)
    ensures r !in s'.paths ==> Idle(c, s', r)
  {
    NetReplace(c, s.net, k, [], r);
    assert Without(s.net, k) + [] == s'.net;
    SumByNext(s.evaluated, e, IsEvaluationOf(r));
    if r == e.round {
      assert r !in s.duplicated ==> RoundInv(c, s, r);
    } else {
      assert SameView(c, s, s', r);
      KeepView(c, s, s', r);
    }
  }

  // ----- Collect -----

  lemma CollectKeepsInv(c: Config, s: State, k: nat, s': State)
    requires Inv(c, s) && Next(c, s, Collect(k), s')
    ensures Inv(c, s')
  {
    CollectPackets(c, s, k, s');
    EvaluationsKept(c, s, s');
    forall r
      ensures r in s'.paths && r !in s'.duplicated ==> RoundInv(c, s', r)
      ensures r !in s'.paths ==> Idle(c, s', r)
    {
      CollectRound(c, s, k, s', r);
    }
  }

  /** The packets after a collecting step; a model on its way is the model of its round. */
  lemma CollectPackets(c: Config, s: State, k: nat, s': State)
    requires Inv(c, s) && Next(c, s, Collect(k), s')
    ensures PathsOk(c, s')
    ensures forall p :: p in s'.net ==> PacketOk(c, s', p)
  {
    var m := s.net[k].msg;
    var batches := Aggregator.Step(s.agg, m).1;
    assert PacketOk(c, s, s.net[k]);
    if batches == [] {
      assert ModelPackets(batches) == [];
      assert BatchRounds(batches) == {};
    } else {
      OneBatch(s, m);
      FiredBatchOk(c, s, k, s');
    }
    PacketsKept(c, s, s', k, ModelPackets(batches));
  }

  /** The aggregator's one batch, the packet it becomes and the round it finishes. */
  lemma OneBatch(s: State, m: Aggregator.Msg)
    requires Aggregator.Step(s.agg, m).1 != []
    ensures var batches := Aggregator.Step(s.agg, m).1;
            && batches == [Aggregator.Batch(m.Round(), Got(s, m))]
            && ModelPackets(batches) == [ToCoordinator(ToMessage(m.Round(), ModelOf(Got(s, m))))]
            && BatchRounds(batches) == {m.Round()}
  {
    Aggregator.StepForRound(s.agg, m, m.Round());
    var b := Aggregator.Batch(m.Round(), Got(s, m));
    assert b in Aggregator.Step(s.agg, m).1;
  }

  lemma FiredBatchOk(c: Config, s: State, k: nat, s': State)
    requires Inv(c, s) && k < |s.net| && s.net[k].ToAggregator?
    requires Aggregator.Step(s.agg, s.net[k].msg).1 != []
    requires s'.paths == s.paths && s'.duplicated == s.duplicated && s'.done == s.done + {s.net[k].Round()}
    requires s'.roundID == s.roundID
    ensures PathsOk(c, s')
    ensures PacketOk(c, s', ToCoordinator(ToMessage(s.net[k].Round(), ModelOf(Got(s, s.net[k].msg)))))
  {
    assert PacketOk(c, s, s.net[k]);
    if s.net[k].Round() !in s.duplicated {
      BatchIsComplete(c, s, k);
    }
  }

  /** A message for the aggregator of a round in progress. */
  lemma CollectedIsOpen(c: Config, s: State, k: nat)
    requires Inv(c, s) && k < |s.net| && s.net[k].ToAggregator? && s.net[k].Round() !in s.duplicated
    ensures var r := s.net[k].msg.Round();
            r in s.paths && r !in s.done && Open(c, s, r, Intact(c, s, r))
  {
    var m := s.net[k].msg;
    var r := m.Round();
    assert PacketOk(c, s, s.net[k]);
    assert RoundInv(c, s, r);
    match m {
      case Trigger(_, _) => SumByMember(s.net, s.net[k], IsTrigger(r));
      case Update(u) =>
        var o := Some(FromUpdate(u));
        SumByMember(s.net, s.net[k], OwedBy(c, r, o));
        assert Owed(c, s.net, r, o) >= 1;
    }
  }

  /** What the aggregator holds for the round of a message once it has arrived. */
  ghost function Got(s: State, m: Aggregator.Msg): seq<LocalCounts> {
    Aggregator.Pending(s.agg, m.Round()) + if m.Update? then [FromUpdate(m.update)] else []
  }

  lemma AllSomeNext(us: seq<LocalCounts>, u: LocalCounts)
    ensures multiset(AllSome(us + [u])) == multiset(AllSome(us)) + multiset{Some(u)}
  {
    assert (us + [u])[..|us|] == us;
  }

  /** The arriving message only moves its cargo from the network to the aggregator. */
  lemma CargoMoves(c: Config, s: State, k: nat, more: seq<Packet>)
    requires k < |s.net| && s.net[k].ToAggregator?
    requires forall p :: p in more ==> p.ToCoordinator?
    ensures var m := s.net[k].msg; var r := m.Round(); var net' := Without(s.net, k) + more;
            && (forall o :: Owed(c, net', r, o) + multiset(AllSome(Got(s, m)))[o] == Around(c, s, r, o))
            && Triggers(net', r) == Triggers(s.net, r) - (if m.Trigger? then 1 else 0)
  {
    TriggerMoves(c, s.net, k, more);
    var r := s.net[k].msg.Round();
    forall o
      ensures Owed(c, Without(s.net, k) + more, r, o) + multiset(AllSome(Got(s, s.net[k].msg)))[o] == Around(c, s, r, o)
    {
      ContributionMoves(c, s, k, more, o);
    }
  }

  lemma TriggerMoves(c: Config, net: seq<Packet>, k: nat, more: seq<Packet>)
    requires k < |net| && net[k].ToAggregator?
    requires forall p :: p in more ==> p.ToCoordinator?
    ensures var r := net[k].msg.Round();
            Triggers(Without(net, k) + more, r) == Triggers(net, r) - (if net[k].msg.Trigger? then 1 else 0)
  {
    var r := net[k].msg.Round();
    SumByReplace(net, k, more, IsTrigger(r));
    NothingOwed(c, more, r);
  }

  lemma ContributionMoves(c: Config, s: State, k: nat, more: seq<Packet>, o: Option<LocalCounts>)
    requires k < |s.net| && s.net[k].ToAggregator?
    requires forall p :: p in more ==> p.ToCoordinator?
    ensures var m := s.net[k].msg; var r := m.Round();
            Owed(c, Without(s.net, k) + more, r, o) + multiset(AllSome(Got(s, m)))[o] == Around(c, s, r, o)
  {
    var m := s.net[k].msg;
    var r := m.Round();
    var us := Aggregator.Pending(s.agg, r);
    SumByReplace(s.net, k, more, OwedBy(c, r, o));
    NothingOwed(c, more, r);
    if m.Update? {
      var u := FromUpdate(m.update);
      AllSomeNext(us, u);
      assert OwedBy(c, r, o)(s.net[k]) == multiset{Some(u)}[o];
    } else {
      assert OwedBy(c, r, o)(s.net[k]) == 0;
      assert us + [] == us;
    }
    assert Owed(c, more, r, o) == 0;
  }

  lemma {:induction false} NothingOwed(c: Config, more: seq<Packet>, r: int)
    requires forall p :: p in more ==> p.ToCoordinator?
    ensures forall o :: Owed(c, more, r, o) == 0
    ensures Triggers(more, r) == 0
  {
    if more != [] {
      var n := |more| - 1;
      NothingOwed(c, more[..n], r);
      assert more[n] in more;
      forall o
        ensures Owed(c, more, r, o) == 0
      {
        assert OwedBy(c, r, o)(more[n]) == 0;
        assert Owed(c, more[..n], r, o) == 0;
      }
    }
  }

  /** Contributions that are all accounted for and enough of them collected: then exactly all of
      them are collected. */
  lemma EnoughIsAll(c: Config, paths: seq<Bytes>, got: seq<LocalCounts>)
    requires multiset(AllSome(got)) <= multiset(Contributions(c, paths))
    requires |got| >= |paths|
    ensures |got| == |paths|
    ensures multiset(AllSome(got)) == multiset(Contributions(c, paths))
  {
    ContributionsLength(c, paths);
    AllSomeCounts(got);
    var a, b := multiset(AllSome(got)), multiset(Contributions(c, paths));
    assert b == a + (b - a);
    SameSizeSubset(a, b);
  }

  /** The aggregator fires for a round only with all its contributions in hand: the files are then
      readable, the batch gives the round's model, and nothing of the round is left in flight. */
  lemma BatchIsComplete(c: Config, s: State, k: nat)
    requires Inv(c, s) && k < |s.net| && s.net[k].ToAggregator? && s.net[k].Round() !in s.duplicated
    requires Aggregator.Step(s.agg, s.net[k].msg).1 != []
    ensures var m := s.net[k].msg; var r := m.Round();
            && Aggregator.Step(s.agg, m).1 == [Aggregator.Batch(r, Got(s, m))]
            && r in s.paths && AllReadable(c, s.paths[r])
            && ModelOf(Got(s, m)) == RoundModel(c, s.paths[r])
            && multiset(AllSome(Got(s, m))) == Full(c, s, r)
  {
    var m := s.net[k].msg;
    var r := m.Round();
    CollectedIsOpen(c, s, k);
    assert PacketOk(c, s, s.net[k]);
    Aggregator.StepForRound(s.agg, m, r);
    CargoMoves(c, s, k, []);
    var got := Got(s, m);
    forall o
      ensures multiset(AllSome(got))[o] <= Full(c, s, r)[o]
    {
      assert Around(c, s, r, o) <= Full(c, s, r)[o];
    }
    assert |got| >= |c.ids|;
    EnoughIsAll(c, s.paths[r], got);
    CompleteBatch(c, s.paths[r], got);
  }

  lemma CollectRound(c: Config, s: State, k: nat, s': State, r: int)
    requires Inv(c, s) && Next(c, s, Collect(k), s')
    ensures r in s'.paths && r !in s'.duplicated ==> RoundInv(c, s', r)
    ensures r !in s'.paths ==> Idle(c, s', r)
  {
    var m := s.net[k].msg;
    var batches := Aggregator.Step(s.agg, m).1;
    if m.Round() != r {
      CollectElsewhere(c, s, k, s', r);
    } else if r in s.duplicated {
      assert PacketOk(c, s, s.net[k]);
    } else if batches == [] {
      CollectWaits(c, s, k, s');
    } else {
      CollectFires(c, s, k, s');
    }
  }

  lemma CollectElsewhere(c: Config, s: State, k: nat, s': State, r: int)
    requires Inv(c, s) && Next(c, s, Collect(k), s') && s.net[k].msg.Round() != r
    ensures r in s'.paths && r !in s'.duplicated ==> RoundInv(c, s', r)
    ensures r !in s'.paths ==> Idle(c, s', r)
  {
    BatchesElsewhere(s.agg, s.net[k].msg, r);
    PacketsElsewhere(c, s.net, k, Aggregator.Step(s.agg, s.net[k].msg).1, r);
    Aggregator.StepForRound(s.agg, s.net[k].msg, r);
    assert SameActors(s, s', r);
    KeepView(c, s, s', r);
  }

  lemma BatchesElsewhere(agg: Aggregator.State, m: Aggregator.Msg, r: int)
    requires m.Round() != r
    ensures var batches := Aggregator.Step(agg, m).1;
            |batches| <= 1 && (batches != [] ==> batches[0].round == m.Round()) && r !in BatchRounds(batches)
  {
    Aggregator.StepForRound(agg, m, m.Round());
  }

  /** A message and the models it sets off, none of them of round r. */
  lemma PacketsElsewhere(c: Config, net: seq<Packet>, k: nat, batches: seq<Aggregator.Batch>, r: int)
    requires k < |net| && net[k].ToAggregator? && net[k].Round() != r
    requires |batches| <= 1 && (batches != [] ==> batches[0].round != r)
    ensures var net' := Without(net, k) + ModelPackets(batches);
            && (forall o :: Owed(c, net', r, o) == Owed(c, net, r, o))
            && Triggers(net', r) == Triggers(net, r)
            && Models(net', r) == Models(net, r)
  {
    NetReplace(c, net, k, ModelPackets(batches), r);
    if batches != [] {
      assert ModelPackets(batches) == [ToCoordinator(ToMessage(batches[0].round, ModelOf(batches[0].counts)))];
      OnePacket(c, ModelPackets(batches)[0], r);
    } else {
      assert ModelPackets(batches) == [];
    }
  }

  lemma CollectWaits(c: Config, s: State, k: nat, s': State)
    requires Inv(c, s) && Next(c, s, Collect(k), s') && s.net[k].Round() !in s.duplicated
    requires Aggregator.Step(s.agg, s.net[k].msg).1 == []
    ensures var r := s.net[k].msg.Round();
            r in s'.paths && RoundInv(c, s', r)
  {
    var m := s.net[k].msg;
    var r := m.Round();
    CollectedIsOpen(c, s, k);
    assert PacketOk(c, s, s.net[k]);
    Aggregator.StepForRound(s.agg, m, r);
    CargoMoves(c, s, k, []);
    NetReplace(c, s.net, k, [], r);
    assert ModelPackets([]) == [];
    assert Aggregator.Pending(s'.agg, r) == Got(s, m);
    StillOpen(c, s, s', r);
  }

  /** A round stays open when its cargo and its trigger have only moved. */
  lemma StillOpen(c: Config, s: State, s': State, r: int)
    requires r in s.paths && Open(c, s, r, Intact(c, s, r)) && r !in s'.done
    requires s'.paths == s.paths && s'.lost == s.lost && s'.evaluated == s.evaluated
    requires forall o :: Owed(c, s'.net, r, o) + multiset(AllSome(Aggregator.Pending(s'.agg, r)))[o] == Around(c, s, r, o)
    requires Triggers(s'.net, r) + Known(s', r) == Triggers(s.net, r) + Known(s, r)
    requires Models(s'.net, r) == Models(s.net, r)
    requires r in s'.agg.expected ==> s'.agg.expected[r] == |c.ids| && |Aggregator.Pending(s'.agg, r)| < |c.ids|
    ensures RoundInv(c, s', r)
  {
    assert forall o :: Around(c, s', r, o) == Around(c, s, r, o);
  }

  lemma CollectFires(c: Config, s: State, k: nat, s': State)
    requires Inv(c, s) && Next(c, s, Collect(k), s') && s.net[k].Round() !in s.duplicated
    requires Aggregator.Step(s.agg, s.net[k].msg).1 != []
    ensures var r := s.net[k].msg.Round();
            r in s'.paths && RoundInv(c, s', r)
  {
    var m := s.net[k].msg;
    CollectedIsOpen(c, s, k);
    BatchIsComplete(c, s, k);
    FiredState(c, s, k, s');
    FiredNet(c, s, k, ToCoordinator(ToMessage(m.Round(), ModelOf(Got(s, m)))), Intact(c, s, m.Round()));
    NowFinished(c, s', m.Round());
  }

  /** The network after the aggregator has fired: of the round only its model is left. */
  lemma FiredNet(c: Config, s: State, k: nat, model: Packet, intact: bool)
    requires k < |s.net| && s.net[k].ToAggregator?
    requires model.ToCoordinator? && model.model.round == s.net[k].msg.Round()
    requires var r := s.net[k].msg.Round();
             && r in s.paths && Open(c, s, r, intact)
             && multiset(AllSome(Got(s, s.net[k].msg))) == Full(c, s, r)
             && (s.net[k].msg.Trigger? || r in s.agg.expected)
    ensures var r := s.net[k].msg.Round();
            var net := Without(s.net, k) + [model];
            (forall o :: Owed(c, net, r, o) == 0) && Triggers(net, r) == 0 && Models(net, r) == 1
  {
    var m := s.net[k].msg;
    CargoMoves(c, s, k, [model]);
    OneModelOut(c, s, k, model, m.Round());
    NothingLeft(c, s, Without(s.net, k) + [model], m.Round(), Got(s, m));
  }

  /** The state after the aggregator has fired. */
  lemma FiredState(c: Config, s: State, k: nat, s': State)
    requires Inv(c, s) && Next(c, s, Collect(k), s') && s.net[k].Round() !in s.duplicated
    requires Aggregator.Step(s.agg, s.net[k].msg).1 != []
    ensures var m := s.net[k].msg;
            var r := m.Round();
            && s'.net == Without(s.net, k) + [ToCoordinator(ToMessage(r, ModelOf(Got(s, m))))]
            && s'.paths == s.paths && s'.evaluated == s.evaluated && s'.lost == s.lost && r in s'.done
            && Aggregator.Pending(s'.agg, r) == [] && r !in s'.agg.expected
            && (m.Trigger? || r in s.agg.expected)
  {
    var m := s.net[k].msg;
    var b := Aggregator.Batch(m.Round(), Got(s, m));
    BatchIsComplete(c, s, k);
    Aggregator.StepForRound(s.agg, m, m.Round());
    assert b in Aggregator.Step(s.agg, m).1;
    assert ModelPackets([b]) == [ToCoordinator(ToMessage(b.round, ModelOf(b.counts)))];
  }

  lemma NowFinished(c: Config, s: State, r: int)
    requires r in s.paths && r in s.done
    requires forall o :: Owed(c, s.net, r, o) == 0
    requires Triggers(s.net, r) == 0 && Models(s.net, r) == 1 && EvalCount(s.evaluated, r) == 0
    requires Aggregator.Pending(s.agg, r) == [] && r !in s.agg.expected
    ensures RoundInv(c, s, r)
  {
  }

  lemma OneModelOut(c: Config, s: State, k: nat, model: Packet, r: int)
    requires k < |s.net| && s.net[k].ToAggregator? && model.ToCoordinator? && model.model.round == r
    ensures Models(Without(s.net, k) + [model], r) == Models(s.net, r) + 1
  {
    NetReplace(c, s.net, k, [model], r);
    OnePacket(c, model, r);
  }

  /** Once all contributions are at the aggregator none is on its way. */
  lemma NothingLeft(c: Config, s: State, net: seq<Packet>, r: int, got: seq<LocalCounts>)
    requires r in s.paths
    requires forall o :: Around(c, s, r, o) <= Full(c, s, r)[o]
    requires forall o :: Owed(c, net, r, o) + multiset(AllSome(got))[o] == Around(c, s, r, o)
    requires multiset(AllSome(got)) == Full(c, s, r)
    ensures forall o :: Owed(c, net, r, o) == 0
  {
    forall o
      ensures Owed(c, net, r, o) == 0
    {
      assert Around(c, s, r, o) <= Full(c, s, r)[o];
    }
  }

  // ----- Duplicate -----

  lemma DuplicateKeepsInv(c: Config, s: State, k: nat, s': State)
    requires Inv(c, s) && Next(c, s, Duplicate(k), s')
    ensures Inv(c, s')
  {
    var p := s.net[k];
    assert PacketOk(c, s, p);
    forall x | x in s'.net
      ensures PacketOk(c, s', x)
    {
      assert PacketOk(c, s, x);
    }
    EvaluationsKept(c, s, s');
    forall r
      ensures r in s'.paths && r !in s'.duplicated ==> RoundInv(c, s', r)
      ensures r !in s'.paths ==> Idle(c, s', r)
    {
      if r != p.Round() {
        CopiedElsewhere(c, s.net, p, r);
        KeepView(c, s, s', r);
      }
    }
  }

  lemma CopiedElsewhere(c: Config, net: seq<Packet>, p: Packet, r: int)
    requires p.Round() != r
    ensures forall o :: Owed(c, net + [p], r, o) == Owed(c, net, r, o)
    ensures Triggers(net + [p], r) == Triggers(net, r) && Models(net + [p], r) == Models(net, r)
  {
    forall o
      ensures Owed(c, net + [p], r, o) == Owed(c, net, r, o)
    {
      SumByNext(net, p, OwedBy(c, r, o));
    }
    SumByNext(net, p, IsTrigger(r));
    SumByNext(net, p, IsModel(r));
  }

  /** Every step keeps the invariant. */
  lemma StepKeepsInv(c: Config, s: State, a: Action, s': State)
    requires Inv(c, s) && Next(c, s, a, s')
    ensures Inv(c, s')
  {
    match a {
      case Start(paths) => StartKeepsInv(c, s, paths, s');
      case Train(k) => TrainKeepsInv(c, s, k, s');
      case Collect(k) => CollectKeepsInv(c, s, k, s');
      case Evaluate(k, model, metrics) => EvaluateKeepsInv(c, s, k, model, metrics, s');
      case Lose(k) => LoseKeepsInv(c, s, k, s');
      case Duplicate(k) => DuplicateKeepsInv(c, s, k, s');
    }
  }
}
