/** What no loss, reordering or duplication can change: a model is made of contributions of its own round
    only. */
module FederatedOrigins {
  import opened Dataset
  import opened MapSums
  import opened NaiveBayes
  import opened NaiveBayesLaws
  import opened Prediction
  import opened Wire
  import opened Training
  import opened Wrappers
  import opened FederatedRound
  import Aggregator

  /** The counts some worker of a round gets from its file. */
  ghost predicate IsContribution(c: Config, paths: seq<Bytes>, u: LocalCounts) {
    exists p :: p in paths && Contribution(c, p) == Some(u)
  }

  ghost predicate AllContributions(c: Config, paths: seq<Bytes>, us: seq<LocalCounts>) {
    forall u :: u in us ==> IsContribution(c, paths, u)
  }

  /** At least as many contributions of a round as there are workers, possibly with repetitions. */
  ghost predicate Suffices(c: Config, paths: seq<Bytes>, us: seq<LocalCounts>) {
    |us| >= |c.ids| && AllContributions(c, paths, us)
  }

  /** The update is that of worker i: it bears the worker's id and the counts of the worker's own path. */
  ghost predicate IsSigned(c: Config, paths: seq<Bytes>, u: LocalModelUpdate, i: nat) {
    && i < |paths| == |c.ids|
    && u.workerId == c.ids[i] && Contribution(c, paths[i]) == Some(FromUpdate(u))
  }

  ghost predicate PacketFrom(c: Config, s: State, p: Packet) {
    match p
    case TrainRequest(i, q, path) => q in s.paths && i < |s.paths[q]| == |c.ids| && s.paths[q][i] == path
    case ToAggregator(Trigger(q, n)) => q in s.paths && n == |c.ids|
    case ToAggregator(Update(u)) => u.round in s.paths && exists i: nat :: IsSigned(c, s.paths[u.round], u, i)
    case ToCoordinator(m) => m.round in s.paths && ModelFrom(c, s.paths[m.round], m)
  }

  ghost predicate ModelFrom(c: Config, paths: seq<Bytes>, m: AggregatedModel) {
    exists us :: Suffices(c, paths, us) && m == ToMessage(m.round, ModelOf(us))
  }

  ghost predicate EvaluationFrom(c: Config, s: State, e: Evaluation) {
    && e.round in s.paths
    && IsEvaluation(e.model, c.test, e.metrics)
    && exists us :: Suffices(c, s.paths[e.round], us) && e.model == ModelOf(us)
  }

  /** What the aggregator holds of a round. */
  ghost predicate HeldFrom(c: Config, s: State, r: int) {
    && (r in s.agg.expected ==> s.agg.expected[r] == |c.ids|)
    && (Aggregator.Pending(s.agg, r) != [] ==> r in s.paths && AllContributions(c, s.paths[r], Aggregator.Pending(s.agg, r)))
  }

  ghost predicate Origins(c: Config, s: State) {
    && s.roundID >= 0
    && (forall r :: r in s.paths <==> 1 <= r <= s.roundID)
    && (forall p :: p in s.net ==> PacketFrom(c, s, p))
    && (forall e :: e in s.evaluated ==> EvaluationFrom(c, s, e))
    && (forall r :: HeldFrom(c, s, r))
  }

  lemma InitOrigins(c: Config)
    ensures Origins(c, INIT)
  {
  }

  /** Packets, evaluations and holdings are as good as before when rounds are only added. */
  ghost predicate PathsGrow(s: State, s': State) {
    forall r :: r in s.paths ==> r in s'.paths && s'.paths[r] == s.paths[r]
  }

  lemma PacketsStay(c: Config, s: State, s': State)
    requires Origins(c, s) && PathsGrow(s, s')
    ensures forall p :: p in s.net ==> PacketFrom(c, s', p)
  {
    forall p | p in s.net
      ensures PacketFrom(c, s', p)
    {
      assert PacketFrom(c, s, p);
    }
  }

  lemma EvaluationsStay(c: Config, s: State, s': State)
    requires Origins(c, s) && PathsGrow(s, s')
    ensures forall e :: e in s.evaluated ==> EvaluationFrom(c, s', e)
  {
    forall e | e in s.evaluated
      ensures EvaluationFrom(c, s', e)
    {
      assert EvaluationFrom(c, s, e);
    }
  }

  lemma HoldingsStay(c: Config, s: State, s': State)
    requires Origins(c, s) && PathsGrow(s, s') && s'.agg == s.agg
    ensures forall r :: HeldFrom(c, s', r)
  {
    forall r
      ensures HeldFrom(c, s', r)
    {
      assert HeldFrom(c, s, r);
    }
  }

  // ----- The steps -----

  lemma RequestsFrom(c: Config, s: State, q: int, paths: seq<Bytes>)
    requires q in s.paths && s.paths[q] == paths && |paths| == |c.ids|
    ensures forall p :: p in Requests(q, paths) ==> PacketFrom(c, s, p)
  {
    forall p | p in Requests(q, paths)
      ensures PacketFrom(c, s, p)
    {
      var k: nat :| k < |Requests(q, paths)| && Requests(q, paths)[k] == p;
      RequestAt(q, paths, k);
    }
  }

  lemma StartOrigins(c: Config, s: State, paths: seq<Bytes>, s': State)
    requires Origins(c, s) && Next(c, s, Start(paths), s')
    ensures Origins(c, s')
  {
    if |paths| == |c.ids| {
      assert s'.roundID !in s.paths;
      RequestsFrom(c, s', s'.roundID, paths);
      PacketsStay(c, s, s');
      EvaluationsStay(c, s, s');
      HoldingsStay(c, s, s');
    } else {
      assert s.net + [] == s.net;
    }
  }

  lemma TrainOrigins(c: Config, s: State, k: nat, s': State)
    requires Origins(c, s) && Next(c, s, Train(k), s')
    ensures Origins(c, s')
  {
    var p := s.net[k];
    var reply := WorkerReply(c.files, c.ids[p.worker], p.round, p.path);
    assert PacketFrom(c, s, p);
    if reply != [] {
      var counts := CountsOf(LoadFrom(c.files, p.path).records);
      UpdateRoundTrip(p.round, c.ids[p.worker], counts);
      assert Contribution(c, p.path) == Some(counts);
      assert IsSigned(c, s.paths[p.round], ToUpdate(p.round, c.ids[p.worker], counts), p.worker);
      assert reply == [reply[0]] && PacketFrom(c, s', reply[0]);
    }
    PacketsStay(c, s, s');
    EvaluationsStay(c, s, s');
    HoldingsStay(c, s, s');
  }

  /** An update that arrives is a contribution like those it joins. */
  lemma GotFrom(c: Config, s: State, k: nat)
    requires Origins(c, s) && k < |s.net| && s.net[k].ToAggregator?
    ensures var r := s.net[k].Round();
            r in s.paths && AllContributions(c, s.paths[r], Got(s, s.net[k].msg))
  {
    assert PacketFrom(c, s, s.net[k]);
    assert HeldFrom(c, s, s.net[k].Round());
    if s.net[k].msg.Update? {
      var u := s.net[k].msg.update;
      var i: nat :| IsSigned(c, s.paths[u.round], u, i);
      assert s.paths[u.round][i] in s.paths[u.round];
    }
  }

  lemma HeldNext(c: Config, s: State, k: nat, s': State, r: int)
    requires Origins(c, s) && Next(c, s, Collect(k), s')
    ensures HeldFrom(c, s', r)
  {
    var m := s.net[k].msg;
    assert PacketFrom(c, s, s.net[k]);
    assert HeldFrom(c, s, r);
    GotFrom(c, s, k);
    Aggregator.StepForRound(s.agg, m, r);
  }

  lemma CollectOrigins(c: Config, s: State, k: nat, s': State)
    requires Origins(c, s) && Next(c, s, Collect(k), s')
    ensures Origins(c, s')
  {
    var m := s.net[k].msg;
    GotFrom(c, s, k);
    if Aggregator.Step(s.agg, m).1 == [] {
      assert ModelPackets([]) == [];
    } else {
      OneBatch(s, m);
      FiredFrom(c, s, k);
    }
    PacketsStay(c, s, s');
    EvaluationsStay(c, s, s');
    forall r
      ensures HeldFrom(c, s', r)
    {
      HeldNext(c, s, k, s', r);
    }
  }

  /** The aggregator fires only with as many updates as there are workers. */
  lemma FiredFrom(c: Config, s: State, k: nat)
    requires Origins(c, s) && k < |s.net| && s.net[k].ToAggregator?
    requires Aggregator.Step(s.agg, s.net[k].msg).1 != []
    ensures var m := s.net[k].msg;
            m.Round() in s.paths && ModelFrom(c, s.paths[m.Round()], ToMessage(m.Round(), ModelOf(Got(s, m))))
  {
    var m := s.net[k].msg;
    GotFrom(c, s, k);
    assert PacketFrom(c, s, s.net[k]);
    assert HeldFrom(c, s, m.Round());
    Aggregator.StepForRound(s.agg, m, m.Round());
    assert Suffices(c, s.paths[m.Round()], Got(s, m));
  }

  /** Contributions are counts of shards read by workers of the round. */
  lemma {:induction false} ReadShards(c: Config, paths: seq<Bytes>, us: seq<LocalCounts>) returns (shards: seq<seq<Record>>)
    requires AllContributions(c, paths, us)
    ensures us == Locals(shards)
    ensures forall shard :: shard in shards ==> exists p :: p in paths && LoadFrom(c.files, p) == Loaded(shard)
    decreases |us|
  {
    if us == [] {
      shards := [];
    } else {
      var n := |us| - 1;
      assert us == us[..n] + [us[n]];
      var before := ReadShards(c, paths, us[..n]);
      assert us[n] in us;
      var p :| p in paths && Contribution(c, p) == Some(us[n]);
      var shard := LoadFrom(c.files, p).records;
      assert LoadFrom(c.files, p) == Loaded(shard);
      shards := before + [shard];
      assert shards[..n] == before;
    }
  }

  /** The coordinator rebuilds the model the aggregator sent. */
  lemma RebuiltFrom(c: Config, paths: seq<Bytes>, m: AggregatedModel, model: GlobalModel)
    requires ModelFrom(c, paths, m) && IsRebuilt(m, model)
    ensures exists us :: Suffices(c, paths, us) && model == ModelOf(us)
  {
    var us :| Suffices(c, paths, us) && m == ToMessage(m.round, ModelOf(us));
    var shards := ReadShards(c, paths, us);
    RebuiltFromLocals(shards, m.round, model);
  }

  lemma NewEvaluationFrom(c: Config, s: State, k: nat, model: GlobalModel, metrics: Metrics)
    requires Origins(c, s) && k < |s.net| && s.net[k].ToCoordinator?
    requires IsRebuilt(s.net[k].model, model) && IsEvaluation(model, c.test, metrics)
    ensures EvaluationFrom(c, s, Evaluation(s.net[k].model.round, model, metrics))
  {
    assert PacketFrom(c, s, s.net[k]);
    RebuiltFrom(c, s.paths[s.net[k].model.round], s.net[k].model, model);
  }

  lemma EvaluationAdded(c: Config, s: State, k: nat, e: Evaluation, s': State)
    requires Origins(c, s) && k < |s.net| && EvaluationFrom(c, s, e)
    requires s' == s.(net := Without(s.net, k), evaluated := s.evaluated + [e])
    ensures Origins(c, s')
  {
    PacketsStay(c, s, s');
    HoldingsStay(c, s, s');
    forall x | x in s'.evaluated
      ensures EvaluationFrom(c, s', x)
    {
      assert EvaluationFrom(c, s, x);
    }
  }

  lemma EvaluateOrigins(c: Config, s: State, k: nat, model: GlobalModel, metrics: Metrics, s': State)
    requires Origins(c, s) && Next(c, s, Evaluate(k, model, metrics), s')
    ensures Origins(c, s')
  {
    NewEvaluationFrom(c, s, k, model, metrics);
    EvaluationAdded(c, s, k, Evaluation(s.net[k].model.round, model, metrics), s');
  }

  lemma StepKeepsOrigins(c: Config, s: State, a: Action, s': State)
    requires Origins(c, s) && Next(c, s, a, s')
    ensures Origins(c, s')
  {
    match a {
      case Start(paths) => StartOrigins(c, s, paths, s');
      case Train(k) => TrainOrigins(c, s, k, s');
      case Collect(k) => CollectOrigins(c, s, k, s');
      case Evaluate(k, model, metrics) => EvaluateOrigins(c, s, k, model, metrics, s');
      case Lose(k) =>
        PacketsStay(c, s, s');
        EvaluationsStay(c, s, s');
        HoldingsStay(c, s, s');
      case Duplicate(k) =>
        PacketsStay(c, s, s');
        EvaluationsStay(c, s, s');
        HoldingsStay(c, s, s');
    }
  }

  lemma {:induction false} RunKeepsOrigins(c: Config, states: seq<State>, actions: seq<Action>, i: nat)
    requires IsRun(c, states, actions) && i < |states|
    ensures Origins(c, states[i])
  {
    if i == 0 {
      InitOrigins(c);
    } else {
      RunKeepsOrigins(c, states, actions, i - 1);
      assert StepAt(c, states, actions, i - 1);
      StepKeepsOrigins(c, states[i - 1], actions[i - 1], states[i]);
    }
  }

  /** Whatever is lost, reordered or duplicated, a model evaluated for a round is the one a single trainer
      gets from shards read by workers of that very round, at least as many as there are workers; with
      duplicates some shards may be repeated and others missing. */
  lemma ModelsAreOwn(c: Config, states: seq<State>, actions: seq<Action>, i: nat, e: Evaluation)
    returns (shards: seq<seq<Record>>)
    requires IsRun(c, states, actions) && i < |states| && e in states[i].evaluated
    ensures e.round in states[i].paths && |shards| >= |c.ids|
    ensures forall shard :: shard in shards ==>
              exists p :: p in states[i].paths[e.round] && LoadFrom(c.files, p) == Loaded(shard)
    ensures e.model == CentralModel(Flatten(shards))
    ensures IsEvaluation(e.model, c.test, e.metrics)
  {
    RunKeepsOrigins(c, states, actions, i);
    assert EvaluationFrom(c, states[i], e);
    var us :| Suffices(c, states[i].paths[e.round], us) && e.model == ModelOf(us);
    shards := ReadShards(c, states[i].paths[e.round], us);
    FederatedIsCentral(shards);
  }

  /** Every update in flight bears the id of the worker that was sent its path, and carries the counts of
      that very file. */
  lemma UpdatesAreSigned(c: Config, states: seq<State>, actions: seq<Action>, j: nat, u: LocalModelUpdate) returns (i: nat)
    requires IsRun(c, states, actions) && j < |states| && ToAggregator(Aggregator.Update(u)) in states[j].net
    ensures u.round in states[j].paths && i < |states[j].paths[u.round]| == |c.ids|
    ensures u.workerId == c.ids[i] && Contribution(c, states[j].paths[u.round][i]) == Some(FromUpdate(u))
  {
    RunKeepsOrigins(c, states, actions, j);
    assert PacketFrom(c, states[j], ToAggregator(Aggregator.Update(u)));
    i :| IsSigned(c, states[j].paths[u.round], u, i);
  }
}
