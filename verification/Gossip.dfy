/** Registry replicas that gossip their counters over a network that loses, duplicates, delays and
    reorders snapshots (internal/registry/registry.go, internal/crdt/gcounter.go). */
module Gossip {
  import opened Dataset
  import opened MapSums
  import opened GCounters

  /** The replicas, and which one is the single writer of each node's component. */
  datatype Config = Config(replicas: set<Bytes>, owner: Bytes -> Bytes)

  /** Every replica's counter and all snapshots ever sent: a sent snapshot may be delivered any
      number of times, at any time, to anyone, or never. Bookkeeping: the RoundComplete messages
      handled per node. */
  datatype State = State(counters: map<Bytes, Counts>, sent: seq<Counts>, rounds: Counts)

  /** A replica starts with an empty counter. */
  function CounterOf(s: State, p: Bytes): Counts {
    if p in s.counters then s.counters[p] else map[]
  }

  /** A round is completed, a snapshot is sent or delivered, or a replica handles any other message: a
      node joins, leaves, or the state is asked for. */
  datatype Action = Complete(node: Bytes) | Send(from: Bytes) | Deliver(k: nat, to: Bytes) | Handle(m: RegistryMsg, at: Bytes)

  ghost predicate Init(s: State) {
    s == State(map[], [], map[])
  }

  ghost predicate Next(c: Config, s: State, a: Action, s': State) {
    match a
    case Complete(n) =>
      var p := c.owner(n);
      && p in c.replicas
      && s' == s.(counters := s.counters[p := CounterStep(CounterOf(s, p), RoundComplete(n))],
                  rounds := s.rounds[n := Get(s.rounds, n) + 1])
    case Send(p) =>
      p in c.replicas && s' == s.(sent := s.sent + [CounterOf(s, p)])
    case Deliver(k, p) =>
      && p in c.replicas && k < |s.sent|
      && s' == s.(counters := s.counters[p := CounterStep(CounterOf(s, p), MergeRequest(s.sent[k]))])
    case Handle(m, p) =>
      && p in c.replicas && (m.NodeJoin? || m.NodeLeave? || m.QueryState?)
      && s' == s.(counters := s.counters[p := CounterStep(CounterOf(s, p), m)])
  }

  ghost predicate IsRun(c: Config, states: seq<State>, actions: seq<Action>) {
    && |states| == |actions| + 1
    && Init(states[0])
    && (forall i :: 0 <= i < |actions| ==> StepAt(c, states, actions, i))
  }

  ghost predicate StepAt(c: Config, states: seq<State>, actions: seq<Action>, i: nat)
    requires i < |actions| && |states| == |actions| + 1
  {
    Next(c, states[i], actions[i], states[i + 1])
  }

  // ----- Safety -----

  /** No component exceeds its owner's count. */
  ghost predicate Within(counts: Counts, rounds: Counts) {
    forall n :: 0 <= Get(counts, n) <= Get(rounds, n)
  }

  /** The owner of a component always has the exact count. */
  ghost predicate OwnersExact(c: Config, s: State) {
    forall n :: c.owner(n) in c.replicas ==> Get(CounterOf(s, c.owner(n)), n) == Get(s.rounds, n)
  }

  ghost predicate Inv(c: Config, s: State) {
    && (forall p :: p in c.replicas ==> Within(CounterOf(s, p), s.rounds))
    && (forall x :: x in s.sent ==> Within(x, s.rounds))
    && OwnersExact(c, s)
    && (forall n :: c.owner(n) !in c.replicas ==> Get(s.rounds, n) == 0)
  }

  lemma WithinGrows(counts: Counts, rounds: Counts, n: Bytes)
    requires Within(counts, rounds)
    ensures Within(counts, rounds[n := Get(rounds, n) + 1])
    ensures Within(counts[n := Get(counts, n) + 1], rounds[n := Get(rounds, n) + 1])
  {
    forall k
      ensures 0 <= Get(counts, k) <= Get(rounds[n := Get(rounds, n) + 1], k)
      ensures 0 <= Get(counts[n := Get(counts, n) + 1], k) <= Get(rounds[n := Get(rounds, n) + 1], k)
    {
      assert 0 <= Get(counts, k) <= Get(rounds, k);
      assert 0 <= Get(counts, n) <= Get(rounds, n);
    }
  }

  lemma WithinMerges(a: Counts, b: Counts, rounds: Counts)
    requires Within(a, rounds) && Within(b, rounds)
    ensures Within(Merged(a, b), rounds)
  {
    forall k
      ensures 0 <= Get(Merged(a, b), k) <= Get(rounds, k)
    {
      MergedLookup(a, b, k);
      assert 0 <= Get(a, k) <= Get(rounds, k) && 0 <= Get(b, k) <= Get(rounds, k);
    }
  }

  lemma CompleteKeepsInv(c: Config, s: State, n: Bytes, s': State)
    requires Inv(c, s) && Next(c, s, Complete(n), s')
    ensures Inv(c, s')
  {
    forall p | p in c.replicas
      ensures Within(CounterOf(s', p), s'.rounds)
    {
      WithinGrows(CounterOf(s, p), s.rounds, n);
    }
    forall x | x in s'.sent
      ensures Within(x, s'.rounds)
    {
      WithinGrows(x, s.rounds, n);
    }
  }

  lemma DeliverKeepsInv(c: Config, s: State, k: nat, p: Bytes, s': State)
    requires Inv(c, s) && Next(c, s, Deliver(k, p), s')
    ensures Inv(c, s')
  {
    assert s.sent[k] in s.sent;
    WithinMerges(CounterOf(s, p), s.sent[k], s.rounds);
    forall n | c.owner(n) in c.replicas
      ensures Get(CounterOf(s', c.owner(n)), n) == Get(s'.rounds, n)
    {
      MergedLookup(CounterOf(s, p), s.sent[k], n);
      assert Get(s.sent[k], n) <= Get(s.rounds, n);
      assert Get(CounterOf(s, c.owner(n)), n) == Get(s.rounds, n);
    }
  }

  /** Nodes that come and go leave every counter as it is. */
  lemma HandleKeepsCounters(c: Config, s: State, m: RegistryMsg, p: Bytes, s': State)
    requires Next(c, s, Handle(m, p), s')
    ensures forall q :: CounterOf(s', q) == CounterOf(s, q)
    ensures s'.sent == s.sent && s'.rounds == s.rounds
  {
  }

  lemma StepKeepsInv(c: Config, s: State, a: Action, s': State)
    requires Inv(c, s) && Next(c, s, a, s')
    ensures Inv(c, s')
  {
    match a {
      case Complete(n) => CompleteKeepsInv(c, s, n, s');
      case Send(p) =>
      case Deliver(k, p) => DeliverKeepsInv(c, s, k, p, s');
      case Handle(m, p) => HandleKeepsCounters(c, s, m, p, s');
    }
  }

  lemma {:induction false} RunKeepsInv(c: Config, states: seq<State>, actions: seq<Action>, i: nat)
    requires IsRun(c, states, actions) && i < |states|
    ensures Inv(c, states[i])
  {
    if i > 0 {
      RunKeepsInv(c, states, actions, i - 1);
      assert StepAt(c, states, actions, i - 1);
      StepKeepsInv(c, states[i - 1], actions[i - 1], states[i]);
    }
  }

  /** How many RoundComplete messages the first i steps handled. */
  function Completions(actions: seq<Action>): nat {
    if actions == [] then 0
    else Completions(actions[..|actions| - 1]) + if actions[|actions| - 1].Complete? then 1 else 0
  }

  lemma CompletionCounted(c: Config, s: State, a: Action, s': State)
    requires Next(c, s, a, s')
    ensures Total(s'.rounds) == Total(s.rounds) + if a.Complete? then 1 else 0
  {
    if a.Complete? {
      TotalPut(s.rounds, a.node, Get(s.rounds, a.node) + 1);
    }
  }

  lemma {:induction false} RoundsAreCompletions(c: Config, states: seq<State>, actions: seq<Action>, i: nat)
    requires IsRun(c, states, actions) && i < |states|
    ensures Total(states[i].rounds) == Completions(actions[..i])
  {
    if i > 0 {
      RoundsAreCompletions(c, states, actions, i - 1);
      assert actions[..i][..i - 1] == actions[..i - 1];
      assert StepAt(c, states, actions, i - 1);
      CompletionCounted(c, states[i - 1], actions[i - 1], states[i]);
    }
  }

  /** No replica ever reports more rounds than were completed. */
  lemma NeverOvercounts(c: Config, states: seq<State>, actions: seq<Action>, i: nat, p: Bytes)
    requires IsRun(c, states, actions) && i < |states| && p in c.replicas
    ensures 0 <= Total(CounterOf(states[i], p)) <= Completions(actions[..i])
  {
    RunKeepsInv(c, states, actions, i);
    RoundsAreCompletions(c, states, actions, i);
    var counts, rounds := CounterOf(states[i], p), states[i].rounds;
    assert Within(counts, rounds);
    forall k
      ensures 0 <= Get(counts, k) <= Get(rounds, k)
    {
    }
    TotalMonotone(counts, rounds);
    assert forall k :: k in counts ==> counts[k] == Get(counts, k);
    TotalNonNegative(counts);
  }

  // ----- Monotonicity and convergence -----

  lemma StepInflates(c: Config, s: State, a: Action, s': State, p: Bytes)
    requires Inv(c, s) && Next(c, s, a, s') && p in c.replicas
    ensures Leq(CounterOf(s, p), CounterOf(s', p))
  {
    match a {
      case Deliver(k, q) => MergedAbove(CounterOf(s, q), s.sent[k]);
      case _ =>
    }
  }

  lemma ComponentSteps(c: Config, states: seq<State>, actions: seq<Action>, j: nat, p: Bytes, n: Bytes)
    requires IsRun(c, states, actions) && j < |actions| && p in c.replicas
    ensures Get(CounterOf(states[j], p), n) <= Get(CounterOf(states[j + 1], p), n)
  {
    RunKeepsInv(c, states, actions, j);
    assert StepAt(c, states, actions, j);
    StepInflates(c, states[j], actions[j], states[j + 1], p);
  }

  lemma {:induction false} ComponentGrows(c: Config, states: seq<State>, actions: seq<Action>, i: nat, j: nat, p: Bytes, n: Bytes)
    requires IsRun(c, states, actions) && i <= j < |states| && p in c.replicas
    ensures Get(CounterOf(states[i], p), n) <= Get(CounterOf(states[j], p), n)
  {
    if i < j {
      ComponentGrows(c, states, actions, i, j - 1, p, n);
      ComponentSteps(c, states, actions, j - 1, p, n);
    }
  }

  /** No component of a replica ever shrinks. */
  lemma ReplicasGrow(c: Config, states: seq<State>, actions: seq<Action>, i: nat, j: nat, p: Bytes)
    requires IsRun(c, states, actions) && i <= j < |states| && p in c.replicas
    ensures Leq(CounterOf(states[i], p), CounterOf(states[j], p))
  {
    forall n
      ensures Get(CounterOf(states[i], p), n) <= Get(CounterOf(states[j], p), n)
    {
      ComponentGrows(c, states, actions, i, j, p, n);
    }
  }

  lemma {:induction false} SentStays(c: Config, states: seq<State>, actions: seq<Action>, i: nat, j: nat)
    requires IsRun(c, states, actions) && i <= j < |states|
    ensures states[i].sent <= states[j].sent
  {
    if i < j {
      SentStays(c, states, actions, i, j - 1);
      assert StepAt(c, states, actions, j - 1);
    }
  }

  /** By time j replica p has heard from replica o since time i: it is o itself, it had heard before,
      or it was just delivered a snapshot, sent at some time l by a replica that had heard. */
  ghost predicate Heard(states: seq<State>, actions: seq<Action>, i: nat, j: nat, o: Bytes, p: Bytes)
    requires i <= j < |states| && |states| == |actions| + 1
    decreases j
  {
    || o == p
    || (i < j && Heard(states, actions, i, j - 1, o, p))
    || (i < j && actions[j - 1].Deliver? && actions[j - 1].to == p
        && exists l :: i <= l < j - 1 && HeardThrough(states, actions, i, j, o, l))
  }

  /** The snapshot delivered in step j - 1 was sent in step l by a replica that had heard from o. */
  ghost predicate HeardThrough(states: seq<State>, actions: seq<Action>, i: nat, j: nat, o: Bytes, l: nat)
    requires i <= l < j - 1 && j < |states| && |states| == |actions| + 1
    decreases j, 0
  {
    && actions[j - 1].Deliver? && actions[l].Send? && actions[j - 1].k == |states[l].sent|
    && Heard(states, actions, i, l, o, actions[l].from)
  }

  /** Whoever has heard from o knows at least what o knew. */
  lemma {:induction false} HeardMeansKnown(c: Config, states: seq<State>, actions: seq<Action>, i: nat, j: nat, o: Bytes, p: Bytes)
    requires IsRun(c, states, actions) && i <= j < |states| && o in c.replicas && p in c.replicas
    requires Heard(states, actions, i, j, o, p)
    ensures Leq(CounterOf(states[i], o), CounterOf(states[j], p))
    decreases j
  {
    if o == p {
      ReplicasGrow(c, states, actions, i, j, p);
    } else if i < j && Heard(states, actions, i, j - 1, o, p) {
      HeardMeansKnown(c, states, actions, i, j - 1, o, p);
      ReplicasGrow(c, states, actions, j - 1, j, p);
      LeqTransitive(CounterOf(states[i], o), CounterOf(states[j - 1], p), CounterOf(states[j], p));
    } else {
      var l :| i <= l < j - 1 && HeardThrough(states, actions, i, j, o, l);
      var q := actions[l].from;
      SenderIsReplica(c, states, actions, l);
      HeardMeansKnown(c, states, actions, i, l, o, q);
      SnapshotKnown(c, states, actions, l, j - 1, p);
      LeqTransitive(CounterOf(states[i], o), CounterOf(states[l], q), CounterOf(states[j], p));
    }
  }

  lemma SenderIsReplica(c: Config, states: seq<State>, actions: seq<Action>, l: nat)
    requires IsRun(c, states, actions) && l < |actions| && actions[l].Send?
    ensures actions[l].from in c.replicas
    ensures states[l + 1].sent == states[l].sent + [CounterOf(states[l], actions[l].from)]
  {
    assert StepAt(c, states, actions, l);
  }

  /** A replica that is delivered a snapshot knows what its sender knew when it was sent. */
  lemma SnapshotKnown(c: Config, states: seq<State>, actions: seq<Action>, l: nat, j: nat, p: Bytes)
    requires IsRun(c, states, actions) && l < j < |actions| && p in c.replicas
    requires actions[l].Send? && actions[j].Deliver? && actions[j].to == p && actions[j].k == |states[l].sent|
    requires actions[l].from in c.replicas
    ensures Leq(CounterOf(states[l], actions[l].from), CounterOf(states[j + 1], p))
  {
    SenderIsReplica(c, states, actions, l);
    SentStays(c, states, actions, l + 1, j);
    RunKeepsInv(c, states, actions, j);
    assert StepAt(c, states, actions, j);
    var before := CounterOf(states[j], p);
    WithinIsNonNegative(before, states[j].rounds);
    MergedAbove(before, CounterOf(states[l], actions[l].from));
  }

  lemma WithinIsNonNegative(counts: Counts, rounds: Counts)
    requires Within(counts, rounds)
    ensures NonNegative(counts)
  {
  }

  // ----- Exactly when a replica is exact -----

  lemma {:induction false} RoundsGrow(c: Config, states: seq<State>, actions: seq<Action>, i: nat, j: nat, n: Bytes)
    requires IsRun(c, states, actions) && i <= j < |states|
    ensures Get(states[i].rounds, n) <= Get(states[j].rounds, n)
  {
    if i < j {
      RoundsGrow(c, states, actions, i, j - 1, n);
      assert StepAt(c, states, actions, j - 1);
    }
  }

  /** No round of node n is completed in the steps from the i-th up to the j-th. */
  ghost predicate QuietFor(actions: seq<Action>, n: Bytes, i: nat, j: nat)
    requires j <= |actions|
  {
    forall t :: i <= t < j ==> actions[t] != Complete(n)
  }

  lemma {:induction false} QuietRounds(c: Config, states: seq<State>, actions: seq<Action>, i: nat, j: nat, n: Bytes)
    requires IsRun(c, states, actions) && i <= j < |states| && QuietFor(actions, n, i, j)
    ensures Get(states[j].rounds, n) == Get(states[i].rounds, n)
  {
    if i < j {
      QuietRounds(c, states, actions, i, j - 1, n);
      assert StepAt(c, states, actions, j - 1);
    }
  }

  /** Every snapshot in flight was sent in some step, by the replica whose counter it is. */
  lemma {:induction false} SentInStep(c: Config, states: seq<State>, actions: seq<Action>, j: nat, k: nat) returns (l: nat)
    requires IsRun(c, states, actions) && j < |states| && k < |states[j].sent|
    ensures l < j && actions[l].Send? && |states[l].sent| == k && actions[l].from in c.replicas
    ensures states[j].sent[k] == CounterOf(states[l], actions[l].from)
    decreases j
  {
    assert StepAt(c, states, actions, j - 1);
    if k < |states[j - 1].sent| {
      l := SentInStep(c, states, actions, j - 1, k);
    } else {
      l := j - 1;
    }
  }

  /** What a component can be when its round number was reached in step i - 1. */
  lemma OnlyOwnerKnows(c: Config, states: seq<State>, actions: seq<Action>, i: nat, n: Bytes, p: Bytes)
    requires IsRun(c, states, actions) && 0 < i < |states| && actions[i - 1] == Complete(n)
    requires p in c.replicas && p != c.owner(n)
    ensures Get(CounterOf(states[i], p), n) < Get(states[i].rounds, n)
  {
    RunKeepsInv(c, states, actions, i - 1);
    assert StepAt(c, states, actions, i - 1);
    assert Within(CounterOf(states[i - 1], p), states[i - 1].rounds);
    assert Get(CounterOf(states[i - 1], p), n) <= Get(states[i - 1].rounds, n);
  }

  /** A counter taken before step i - 1 completed a round does not know of it. */
  lemma TooOld(c: Config, states: seq<State>, actions: seq<Action>, i: nat, n: Bytes, l: nat, p: Bytes)
    requires IsRun(c, states, actions) && l < i < |states| && actions[i - 1] == Complete(n) && p in c.replicas
    ensures Get(CounterOf(states[l], p), n) < Get(states[i].rounds, n)
  {
    RunKeepsInv(c, states, actions, l);
    assert Within(CounterOf(states[l], p), states[l].rounds);
    assert Get(CounterOf(states[l], p), n) <= Get(states[l].rounds, n);
    RoundsGrow(c, states, actions, l, i - 1, n);
    assert StepAt(c, states, actions, i - 1);
  }

  /** A component grows at a replica that does not own it only by the delivery of a snapshot. */
  lemma LearnedByDelivery(c: Config, s: State, a: Action, s': State, n: Bytes, p: Bytes)
    requires Next(c, s, a, s') && p in c.replicas && p != c.owner(n)
    requires Get(CounterOf(s', p), n) > Get(CounterOf(s, p), n)
    ensures a.Deliver? && a.to == p && a.k < |s.sent| && Get(CounterOf(s', p), n) == Get(s.sent[a.k], n)
  {
    match a {
      case Complete(m) =>
      case Send(q) =>
      case Deliver(k, q) => MergedLookup(CounterOf(s, q), s.sent[k], n);
    }
  }

  /** Whoever knows of a completion has heard from the node's owner since. */
  lemma {:induction false} KnownMeansHeard(c: Config, states: seq<State>, actions: seq<Action>, i: nat, j: nat, n: Bytes, p: Bytes)
    requires IsRun(c, states, actions) && 0 < i <= j < |states| && actions[i - 1] == Complete(n) && p in c.replicas
    requires Get(CounterOf(states[j], p), n) >= Get(states[i].rounds, n)
    ensures Heard(states, actions, i, j, c.owner(n), p)
    decreases j
  {
    if p != c.owner(n) {
      if i == j {
        OnlyOwnerKnows(c, states, actions, i, n, p);
      } else if Get(CounterOf(states[j - 1], p), n) >= Get(states[i].rounds, n) {
        KnownMeansHeard(c, states, actions, i, j - 1, n, p);
      } else {
        assert StepAt(c, states, actions, j - 1);
        LearnedByDelivery(c, states[j - 1], actions[j - 1], states[j], n, p);
        var l := SentInStep(c, states, actions, j - 1, actions[j - 1].k);
        if l < i {
          TooOld(c, states, actions, i, n, l, actions[l].from);
        } else {
          KnownMeansHeard(c, states, actions, i, l, n, actions[l].from);
          assert HeardThrough(states, actions, i, j, c.owner(n), l);
        }
      }
    }
  }

  /** The exact condition, node by node: after the last completion of a node's rounds a replica has the
      node's exact count if and only if it has heard from the node's owner since that completion. */
  lemma ExactExactlyWhen(c: Config, states: seq<State>, actions: seq<Action>, i: nat, j: nat, n: Bytes, p: Bytes)
    requires IsRun(c, states, actions) && 0 < i <= j < |states| && p in c.replicas
    requires actions[i - 1] == Complete(n) && QuietFor(actions, n, i, j)
    ensures Get(CounterOf(states[j], p), n) == Get(states[j].rounds, n) <==> Heard(states, actions, i, j, c.owner(n), p)
  {
    QuietRounds(c, states, actions, i, j, n);
    if Get(CounterOf(states[j], p), n) == Get(states[j].rounds, n) {
      KnownMeansHeard(c, states, actions, i, j, n, p);
    }
    if Heard(states, actions, i, j, c.owner(n), p) {
      assert StepAt(c, states, actions, i - 1);
      HeardMeansKnown(c, states, actions, i, j, c.owner(n), p);
      RunKeepsInv(c, states, actions, i);
      RunKeepsInv(c, states, actions, j);
      assert Within(CounterOf(states[j], p), states[j].rounds);
      assert Get(CounterOf(states[j], p), n) <= Get(states[j].rounds, n);
      assert Get(CounterOf(states[i], c.owner(n)), n) <= Get(CounterOf(states[j], p), n);
    }
  }

  // ----- Convergence -----

  /** Step i - 1 is the last of the run to complete a round of node n. */
  ghost predicate LastCompletion(actions: seq<Action>, n: Bytes, i: nat) {
    0 < i <= |actions| && actions[i - 1] == Complete(n) && QuietFor(actions, n, i, |actions|)
  }

  /** Replica p has heard from the owner of every node that completed a round, each since that node's
      last completion. */
  ghost predicate UpToDate(c: Config, states: seq<State>, actions: seq<Action>, p: Bytes)
    requires |states| == |actions| + 1
  {
    forall n, i :: LastCompletion(actions, n, i) ==> Heard(states, actions, i, |actions|, c.owner(n), p)
  }

  /** A node with rounds has a last completion. */
  lemma {:induction false} LastCompletionExists(c: Config, states: seq<State>, actions: seq<Action>, j: nat, n: Bytes) returns (i: nat)
    requires IsRun(c, states, actions) && j < |states| && Get(states[j].rounds, n) > 0
    ensures 0 < i <= j && actions[i - 1] == Complete(n) && QuietFor(actions, n, i, j)
    decreases j
  {
    assert StepAt(c, states, actions, j - 1);
    if actions[j - 1] == Complete(n) {
      i := j;
    } else {
      i := LastCompletionExists(c, states, actions, j - 1, n);
    }
  }

  /** A smaller counter with the same total is the same. */
  lemma SameTotalSameLookups(a: Counts, b: Counts)
    requires Within(a, b) && Total(a) == Total(b)
    ensures SameLookups(a, b)
  {
    forall k
      ensures Get(a, k) == Get(b, k)
    {
      var raised := a[k := Get(b, k)];
      assert 0 <= Get(a, k) <= Get(b, k);
      forall h
        ensures 0 <= Get(raised, h) <= Get(b, h)
      {
        assert 0 <= Get(a, h) <= Get(b, h);
      }
      TotalMonotone(raised, b);
      TotalPut(a, k, Get(b, k));
    }
  }

  /** Convergence: at the end of a run a replica has every node's exact count if and only if it is up to
      date, and also its value is the number of RoundComplete messages handled only then. */
  lemma ConvergedExactlyWhen(c: Config, states: seq<State>, actions: seq<Action>, p: Bytes)
    requires IsRun(c, states, actions) && p in c.replicas
    ensures SameLookups(CounterOf(states[|actions|], p), states[|actions|].rounds) <==> UpToDate(c, states, actions, p)
    ensures Total(CounterOf(states[|actions|], p)) == Completions(actions) <==> UpToDate(c, states, actions, p)
  {
    var s, j := states[|actions|], |actions|;
    var counts := CounterOf(s, p);
    RunKeepsInv(c, states, actions, j);
    RoundsAreCompletions(c, states, actions, j);
    assert actions[..j] == actions;
    assert Within(counts, s.rounds);
    if UpToDate(c, states, actions, p) {
      UpToDateIsExact(c, states, actions, p);
      TotalByLookup(counts, s.rounds);
    }
    if Total(counts) == Completions(actions) {
      SameTotalSameLookups(counts, s.rounds);
    }
    if SameLookups(counts, s.rounds) {
      ExactIsUpToDate(c, states, actions, p);
    }
  }

  lemma UpToDateIsExact(c: Config, states: seq<State>, actions: seq<Action>, p: Bytes)
    requires IsRun(c, states, actions) && p in c.replicas && UpToDate(c, states, actions, p)
    ensures SameLookups(CounterOf(states[|actions|], p), states[|actions|].rounds)
  {
    var s, j := states[|actions|], |actions|;
    RunKeepsInv(c, states, actions, j);
    forall n
      ensures Get(CounterOf(s, p), n) == Get(s.rounds, n)
    {
      assert Within(CounterOf(s, p), s.rounds);
      assert 0 <= Get(CounterOf(s, p), n) <= Get(s.rounds, n);
      if Get(s.rounds, n) > 0 {
        var i := LastCompletionExists(c, states, actions, j, n);
        assert LastCompletion(actions, n, i);
        ExactExactlyWhen(c, states, actions, i, j, n, p);
      }
    }
  }

  lemma ExactIsUpToDate(c: Config, states: seq<State>, actions: seq<Action>, p: Bytes)
    requires IsRun(c, states, actions) && p in c.replicas
    requires SameLookups(CounterOf(states[|actions|], p), states[|actions|].rounds)
    ensures UpToDate(c, states, actions, p)
  {
    forall n, i | LastCompletion(actions, n, i)
      ensures Heard(states, actions, i, |actions|, c.owner(n), p)
    {
      assert Get(CounterOf(states[|actions|], p), n) == Get(states[|actions|].rounds, n);
      ExactExactlyWhen(c, states, actions, i, |actions|, n, p);
    }
  }

  /** All replicas that are up to date agree, component by component and in value. */
  lemma ReplicasConverge(c: Config, states: seq<State>, actions: seq<Action>, p: Bytes, q: Bytes)
    requires IsRun(c, states, actions) && p in c.replicas && q in c.replicas
    requires UpToDate(c, states, actions, p) && UpToDate(c, states, actions, q)
    ensures SameLookups(CounterOf(states[|actions|], p), CounterOf(states[|actions|], q))
    ensures Total(CounterOf(states[|actions|], p)) == Total(CounterOf(states[|actions|], q)) == Completions(actions)
  {
    ConvergedExactlyWhen(c, states, actions, p);
    ConvergedExactlyWhen(c, states, actions, q);
    var s := states[|actions|];
    forall k
      ensures Get(CounterOf(s, p), k) == Get(CounterOf(s, q), k)
    {
      assert Get(CounterOf(s, p), k) == Get(s.rounds, k);
      assert Get(CounterOf(s, q), k) == Get(s.rounds, k);
    }
  }

  lemma After(c: Config, states: seq<State>, actions: seq<Action>, s: State, a: Action, s': State)
    returns (states': seq<State>, actions': seq<Action>, last: State)
    requires IsRun(c, states, actions) && s == states[|actions|] && Next(c, s, a, s')
    ensures IsRun(c, states', actions') && last == s' == states'[|actions'|] && actions' == actions + [a]
  {
    states', actions', last := states + [s'], actions + [a], s';
    forall i | 0 <= i < |actions'|
      ensures StepAt(c, states', actions', i)
    {
      if i < |actions| {
        assert StepAt(c, states, actions, i);
      }
    }
  }

  /** Node a completes a round, and b merges a's snapshot. */
  lemma FirstHalf(c: Config, x: Counts) returns (states: seq<State>, actions: seq<Action>, s: State)
    requires c == Config({"a", "b"}, c.owner) && c.owner("a") == "a" && x == map["a" := 1]
    ensures IsRun(c, states, actions) && s == states[|actions|]
    ensures actions == [Complete("a"), Send("a"), Deliver(0, "b")]
    ensures s == State(map["a" := x, "b" := x], [x], x)
  {
    SameEntries(Merged(map[], x), x);
    s := State(map[], [], map[]);
    states, actions := [s], [];
    states, actions, s := After(c, states, actions, s, Complete("a"), State(map["a" := x], [], x));
    states, actions, s := After(c, states, actions, s, Send("a"), State(map["a" := x], [x], x));
    states, actions, s := After(c, states, actions, s, Deliver(0, "b"), State(map["a" := x, "b" := x], [x], x));
  }

  /** Then b completes a round, and a merges b's snapshot. */
  lemma SecondHalf(c: Config, x: Counts, both: Counts, states0: seq<State>, actions0: seq<Action>, s0: State)
    returns (states: seq<State>, actions: seq<Action>, s: State)
    requires c == Config({"a", "b"}, c.owner) && c.owner("b") == "b"
    requires x == map["a" := 1] && both == map["a" := 1, "b" := 1]
    requires IsRun(c, states0, actions0) && s0 == states0[|actions0|]
    requires s0 == State(map["a" := x, "b" := x], [x], x)
    ensures IsRun(c, states, actions) && s == states[|actions|]
    ensures actions == actions0 + [Complete("b"), Send("b"), Deliver(1, "a")]
    ensures s == State(map["a" := both, "b" := both], [x, both], both)
  {
    SameEntries(Merged(x, both), both);
    var counters: map<Bytes, Counts> := map["a" := x, "b" := both];
    states, actions, s := After(c, states0, actions0, s0, Complete("b"), State(counters, [x], both));
    states, actions, s := After(c, states, actions, s, Send("b"), State(counters, [x, both], both));
    states, actions, s := After(c, states, actions, s, Deliver(1, "a"), State(map["a" := both, "b" := both], [x, both], both));
  }

  /** Final snapshots need not come after everybody's last completion: here each replica merges the
      other's final snapshot, the first one before the other's own round. */
  lemma InterleavedRunConverges() returns (c: Config, states: seq<State>, actions: seq<Action>)
    ensures c.replicas == {"a", "b"} && IsRun(c, states, actions)
    ensures actions == [Complete("a"), Send("a"), Deliver(0, "b"), Complete("b"), Send("b"), Deliver(1, "a")]
    ensures UpToDate(c, states, actions, "a") && UpToDate(c, states, actions, "b")
  {
    c := Config({"a", "b"}, (n: Bytes) => n);
    var x, both: Counts := map["a" := 1], map["a" := 1, "b" := 1];
    var s;
    states, actions, s := FirstHalf(c, x);
    states, actions, s := SecondHalf(c, x, both, states, actions, s);
    ExactIsUpToDate(c, states, actions, "a");
    ExactIsUpToDate(c, states, actions, "b");
  }
}
