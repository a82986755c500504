/** The grow-only counter and its merge (internal/crdt/gcounter.go), and the registry replica that
    uses it (internal/registry/registry.go). */
module GCounters {
  import opened Dataset
  import opened MapSums
  import Sorting

  type Counts = map<Bytes, int>

  /** The entries after merging b into a: b's entry wins where it exceeds a's, an absent entry of a
      reading as zero. */
  function Merged(a: Counts, b: Counts): Counts {
    map k | k in a.Keys + b.Keys && (k in a || b[k] > 0) :: if k in b && b[k] > Get(a, k) then b[k] else a[k]
  }

  class GCounter {
    var counts: Counts

    constructor ()
      ensures counts == map[]
    {
      counts := map[];
    }

    constructor FromSnapshot(snapshot: Counts)
      ensures counts == snapshot
    {
      counts := map[];
      new;
      var todo := snapshot.Keys;
      while todo != {}
        invariant todo <= snapshot.Keys
        invariant forall k :: k in counts <==> k in snapshot && k !in todo
        invariant forall k :: k in counts ==> counts[k] == snapshot[k]
        decreases todo
      {
        var k :| k in todo;
        counts := counts[k := snapshot[k]];
        todo := todo - {k};
      }
      SameEntries(counts, snapshot);
    }

    method Increment(nodeID: Bytes, delta: int)
      modifies this
      ensures counts == old(counts)[nodeID := Get(old(counts), nodeID) + delta]
    {
      counts := counts[nodeID := Get(counts, nodeID) + delta];
    }

    /** other may be null, and it may be this very counter. */
    method Merge(other: GCounter?)
      modifies this
      ensures counts == if other == null then old(counts) else Merged(old(counts), old(other.counts))
    {
      if other == null {
        return;
      }
      ghost var a, b := counts, other.counts;
      var todo := other.counts.Keys;
      while todo != {}
        invariant todo <= b.Keys
        invariant other.counts == if other == this then counts else b
        invariant other == this ==> counts == a
        invariant forall k :: k in counts <==> k in a || (k in b && k !in todo && b[k] > 0)
        invariant forall k :: k in counts ==>
                    counts[k] == if k in b && k !in todo && b[k] > Get(a, k) then b[k] else Get(a, k)
        decreases todo
      {
        var nodeID :| nodeID in todo;
        var otherCount := other.counts[nodeID];
        if otherCount > Get(counts, nodeID) {
          counts := counts[nodeID := otherCount];
        }
        todo := todo - {nodeID};
      }
      SameEntries(counts, Merged(a, b));
    }

    method Value() returns (total: int)
      ensures total == Total(counts)
    {
      total := 0;
      var todo := counts;
      while todo != map[]
        invariant total + Total(todo) == Total(counts)
        decreases |todo|
      {
        var k :| k in todo;
        TotalSplit(todo, k);
        assert (todo - {k}).Keys == todo.Keys - {k};
        total := total + todo[k];
        todo := todo - {k};
      }
    }

    method Snapshot() returns (snapshot: Counts)
      ensures snapshot == counts
    {
      snapshot := map[];
      var todo := counts.Keys;
      while todo != {}
        invariant todo <= counts.Keys
        invariant forall k :: k in snapshot <==> k in counts && k !in todo
        invariant forall k :: k in snapshot ==> snapshot[k] == counts[k]
        decreases todo
      {
        var k :| k in todo;
        snapshot := snapshot[k := counts[k]];
        todo := todo - {k};
      }
      SameEntries(snapshot, counts);
    }
  }

  // ----- The registry -----

  datatype RegistryMsg =
    | NodeJoin(node: Bytes)
    | NodeLeave(node: Bytes)
    | RoundComplete(node: Bytes)
    | MergeRequest(counter: Counts)
    | QueryState(hasReplyTo: bool)

  datatype RegistryState = RegistryState(activeNodes: seq<Bytes>, completedRounds: int, counter: Counts)

  /** What a message does to a replica's counter. */
  function CounterStep(counts: Counts, m: RegistryMsg): Counts {
    match m
    case RoundComplete(n) => counts[n := Get(counts, n) + 1]
    case MergeRequest(snapshot) => Merged(counts, snapshot)
    case _ => counts
  }

  function ActiveStep(active: set<Bytes>, m: RegistryMsg): set<Bytes> {
    match m
    case NodeJoin(n) => active + {n}
    case NodeLeave(n) => active - {n}
    case _ => active
  }

  class RegistryActor {
    const counter: GCounter
    var active: set<Bytes>

    constructor ()
      ensures fresh(counter) && counter.counts == map[] && active == {}
    {
      counter := new GCounter();
      active := {};
    }

    method MergeSnapshot(snapshot: Counts)
      modifies counter
      ensures counter.counts == Merged(old(counter.counts), snapshot)
    {
      var other := new GCounter.FromSnapshot(snapshot);
      counter.Merge(other);
    }

    method Receive(m: RegistryMsg) returns (reply: seq<RegistryState>)
      modifies this, counter
      ensures counter.counts == CounterStep(old(counter.counts), m)
      ensures active == ActiveStep(old(active), m)
      ensures if m.QueryState? && m.hasReplyTo then
                && |reply| == 1 && Sorting.IsListing(active, reply[0].activeNodes)
                && reply[0].completedRounds == Total(counter.counts) && reply[0].counter == counter.counts
              else reply == []
    {
      reply := [];
      match m {
        case NodeJoin(n) => active := active + {n};
        case NodeLeave(n) => active := active - {n};
        case RoundComplete(n) => counter.Increment(n, 1);
        case MergeRequest(snapshot) => MergeSnapshot(snapshot);
        case QueryState(hasReplyTo) =>
          if !hasReplyTo {
            return;
          }
          var nodes := ListActive();
          var value := counter.Value();
          var snapshot := counter.Snapshot();
          reply := [RegistryState(nodes, value, snapshot)];
      }
    }

    method ListActive() returns (nodes: seq<Bytes>)
      ensures Sorting.IsListing(active, nodes)
    {
      nodes := [];
      var todo := active;
      while todo != {}
        invariant todo <= active
        invariant multiset(nodes) == multiset(active - todo)
        decreases todo
      {
        var id :| id in todo;
        assert active - (todo - {id}) == active - todo + {id};
        nodes := nodes + [id];
        todo := todo - {id};
      }
      Sorting.SortStringsSorts(nodes);
      assert active - todo == active;
      nodes := Sorting.SortStrings(nodes);
    }
  }

  function ActiveAfter(msgs: seq<RegistryMsg>): set<Bytes> {
    if msgs == [] then {} else ActiveStep(ActiveAfter(msgs[..|msgs| - 1]), msgs[|msgs| - 1])
  }

  /** A join that no leave of the same node follows. */
  ghost predicate StandingJoin(msgs: seq<RegistryMsg>, n: Bytes, i: nat) {
    i < |msgs| && msgs[i] == NodeJoin(n) && forall j :: i < j < |msgs| ==> msgs[j] != NodeLeave(n)
  }

  /** A node is active exactly when it has joined and not left since. */
  lemma {:induction false} ActiveExactlyWhen(msgs: seq<RegistryMsg>, n: Bytes)
    ensures n in ActiveAfter(msgs) <==> exists i :: StandingJoin(msgs, n, i)
  {
    if msgs != [] {
      var k := |msgs| - 1;
      ActiveExactlyWhen(msgs[..k], n);
      if msgs[k] == NodeJoin(n) {
        assert StandingJoin(msgs, n, k);
      } else if i :| StandingJoin(msgs[..k], n, i) {
        assert msgs[k] != NodeLeave(n) ==> StandingJoin(msgs, n, i);
        assert forall h :: StandingJoin(msgs, n, h) ==> msgs[k] != NodeLeave(n);
      } else {
        forall i | StandingJoin(msgs, n, i)
          ensures StandingJoin(msgs[..k], n, i)
        {
        }
      }
    }
  }

  // ----- The counter over any sequence of messages -----

  function CounterAfter(start: Counts, msgs: seq<RegistryMsg>): Counts {
    if msgs == [] then start else CounterStep(CounterAfter(start, msgs[..|msgs| - 1]), msgs[|msgs| - 1])
  }

  /** The positions of a node's RoundComplete messages, and of all of them. */
  function CompletionsOf(msgs: seq<RegistryMsg>, n: Bytes): set<nat> {
    set i: nat | i < |msgs| && msgs[i] == RoundComplete(n)
  }

  function AllCompletions(msgs: seq<RegistryMsg>): set<nat> {
    set i: nat | i < |msgs| && msgs[i].RoundComplete?
  }

  lemma CompletionsOfNext(msgs: seq<RegistryMsg>, n: Bytes)
    requires msgs != []
    ensures var k := |msgs| - 1;
            |CompletionsOf(msgs, n)| == |CompletionsOf(msgs[..k], n)| + if msgs[k] == RoundComplete(n) then 1 else 0
  {
    var k: nat := |msgs| - 1;
    var before := CompletionsOf(msgs[..k], n);
    if msgs[k] == RoundComplete(n) {
      assert CompletionsOf(msgs, n) == before + {k};
    } else {
      assert CompletionsOf(msgs, n) == before;
    }
  }

  lemma AllCompletionsNext(msgs: seq<RegistryMsg>)
    requires msgs != []
    ensures var k := |msgs| - 1;
            |AllCompletions(msgs)| == |AllCompletions(msgs[..k])| + if msgs[k].RoundComplete? then 1 else 0
  {
    var k: nat := |msgs| - 1;
    var before := AllCompletions(msgs[..k]);
    if msgs[k].RoundComplete? {
      assert AllCompletions(msgs) == before + {k};
    } else {
      assert AllCompletions(msgs) == before;
    }
  }

  /** Without merges each component counts its node's RoundComplete messages and the value counts all of
      them, whatever nodes join, leave or ask in between. */
  lemma {:induction false} CounterCountsCompletions(msgs: seq<RegistryMsg>, n: Bytes)
    requires forall m :: m in msgs ==> !m.MergeRequest?
    ensures Get(CounterAfter(map[], msgs), n) == |CompletionsOf(msgs, n)|
    ensures Total(CounterAfter(map[], msgs)) == |AllCompletions(msgs)|
  {
    if msgs != [] {
      var k := |msgs| - 1;
      assert msgs == msgs[..k] + [msgs[k]];
      CounterCountsCompletions(msgs[..k], n);
      CompletionsOfNext(msgs, n);
      AllCompletionsNext(msgs);
      assert !msgs[k].MergeRequest?;
      if msgs[k].RoundComplete? {
        var before := CounterAfter(map[], msgs[..k]);
        TotalPut(before, msgs[k].node, Get(before, msgs[k].node) + 1);
      }
    }
  }

  /** No message of any kind, merges of arbitrary snapshots included, makes a component smaller, and a
      RoundComplete makes its own larger by one. */
  lemma {:induction false} CounterNeverShrinks(start: Counts, msgs: seq<RegistryMsg>)
    ensures Leq(start, CounterAfter(start, msgs))
    ensures msgs != [] && msgs[|msgs| - 1].RoundComplete? ==>
              var n := msgs[|msgs| - 1].node;
              Get(CounterAfter(start, msgs), n) == Get(CounterAfter(start, msgs[..|msgs| - 1]), n) + 1
  {
    if msgs != [] {
      var k := |msgs| - 1;
      CounterNeverShrinks(start, msgs[..k]);
      StepNeverShrinks(CounterAfter(start, msgs[..k]), msgs[k]);
      LeqTransitive(start, CounterAfter(start, msgs[..k]), CounterAfter(start, msgs));
    }
  }

  lemma StepNeverShrinks(counts: Counts, m: RegistryMsg)
    ensures Leq(counts, CounterStep(counts, m))
  {
    if m.MergeRequest? {
      MergedAbove(counts, m.counter);
    }
  }

  // ----- Merge as a least upper bound -----

  lemma MergedLookup(a: Counts, b: Counts, k: Bytes)
    ensures Get(Merged(a, b), k) == if k in b && b[k] > Get(a, k) then b[k] else Get(a, k)
  {
  }

  /** A merge stores no zero entry that was not there, and drops none. */
  lemma MergedKeys(a: Counts, b: Counts)
    ensures Merged(a, b).Keys == a.Keys + (set k | k in b && b[k] > 0)
    ensures forall k :: k in Merged(a, b) && k !in a ==> Merged(a, b)[k] > 0
  {
  }

  /** Counters are compared by lookup: an absent component is zero. */
  ghost predicate Leq(a: Counts, b: Counts) {
    forall k :: Get(a, k) <= Get(b, k)
  }

  ghost predicate NonNegative(a: Counts) {
    forall k :: Get(a, k) >= 0
  }

  function MergeAll(start: Counts, snapshots: seq<Counts>): Counts {
    if snapshots == [] then start
    else Merged(MergeAll(start, snapshots[..|snapshots| - 1]), snapshots[|snapshots| - 1])
  }

  /** Merging is inflationary whatever the signs. */
  lemma MergedAbove(a: Counts, b: Counts)
    ensures Leq(a, Merged(a, b))
    ensures NonNegative(a) ==> Leq(b, Merged(a, b)) && NonNegative(Merged(a, b))
    ensures forall u :: Leq(a, u) && Leq(b, u) ==> Leq(Merged(a, b), u)
  {
    forall k
      ensures Get(a, k) <= Get(Merged(a, b), k)
      ensures NonNegative(a) ==> Get(b, k) <= Get(Merged(a, b), k) && Get(Merged(a, b), k) >= 0
    {
      MergedLookup(a, b, k);
      if NonNegative(a) {
        assert Get(a, k) >= 0;
      }
    }
    forall u | Leq(a, u) && Leq(b, u)
      ensures Leq(Merged(a, b), u)
    {
      forall k
        ensures Get(Merged(a, b), k) <= Get(u, k)
      {
        MergedLookup(a, b, k);
        assert Get(a, k) <= Get(u, k) && Get(b, k) <= Get(u, k);
      }
    }
  }

  ghost predicate Bounds(start: Counts, snapshots: seq<Counts>, u: Counts) {
    Leq(start, u) && forall s :: s in snapshots ==> Leq(s, u)
  }

  /** Merging a sequence of snapshots gives the least counter above the start and all of them. */
  lemma {:induction false} MergeAllIsLeastUpperBound(start: Counts, snapshots: seq<Counts>)
    requires NonNegative(start)
    ensures Bounds(start, snapshots, MergeAll(start, snapshots))
    ensures forall u :: Bounds(start, snapshots, u) ==> Leq(MergeAll(start, snapshots), u)
    ensures NonNegative(MergeAll(start, snapshots))
  {
    if snapshots != [] {
      var n := |snapshots| - 1;
      var m, last := MergeAll(start, snapshots[..n]), snapshots[n];
      MergeAllIsLeastUpperBound(start, snapshots[..n]);
      MergedAbove(m, last);
      assert snapshots == snapshots[..n] + [last];
      LeqTransitive(start, m, Merged(m, last));
      forall s | s in snapshots
        ensures Leq(s, Merged(m, last))
      {
        if s in snapshots[..n] {
          LeqTransitive(s, m, Merged(m, last));
        }
      }
      forall u | Bounds(start, snapshots, u)
        ensures Leq(Merged(m, last), u)
      {
        assert Bounds(start, snapshots[..n], u);
        assert last in snapshots;
      }
    }
  }

  lemma LeqTransitive(a: Counts, b: Counts, c: Counts)
    requires Leq(a, b) && Leq(b, c)
    ensures Leq(a, c)
  {
    forall k
      ensures Get(a, k) <= Get(c, k)
    {
      assert Get(a, k) <= Get(b, k) <= Get(c, k);
    }
  }

  /** Order and repetition do not matter: the same snapshots give the same counter and value. */
  lemma MergeOrderIrrelevant(start: Counts, a: seq<Counts>, b: seq<Counts>)
    requires NonNegative(start)
    requires forall s :: s in a <==> s in b
    ensures SameLookups(MergeAll(start, a), MergeAll(start, b))
    ensures Total(MergeAll(start, a)) == Total(MergeAll(start, b))
  {
    MergeAllIsLeastUpperBound(start, a);
    MergeAllIsLeastUpperBound(start, b);
    var x, y := MergeAll(start, a), MergeAll(start, b);
    assert Bounds(start, a, y) && Bounds(start, b, x);
    forall k
      ensures Get(x, k) == Get(y, k)
    {
      assert Leq(x, y) && Leq(y, x);
      assert Get(x, k) <= Get(y, k) && Get(y, k) <= Get(x, k);
    }
    TotalByLookup(x, y);
  }

  // ----- The documented laws, for components of any sign -----

  /** Repeating a merge never changes anything. */
  lemma MergeIdempotent(a: Counts, b: Counts)
    ensures Merged(Merged(a, b), b) == Merged(a, b)
    ensures Merged(a, a) == a
  {
    SameEntries(Merged(Merged(a, b), b), Merged(a, b));
    SameEntries(Merged(a, a), a);
  }

  /** Whether k is negative in one counter and missing in the other. */
  predicate Clash(a: Counts, b: Counts, k: Bytes) {
    (k in a && a[k] < 0 && k !in b) || (k in b && b[k] < 0 && k !in a)
  }

  /** Merge commutes exactly when no component is negative on one side and missing on the other. */
  lemma MergeCommutesExactlyWhen(a: Counts, b: Counts)
    ensures SameLookups(Merged(a, b), Merged(b, a)) <==> forall k :: !Clash(a, b, k)
  {
    forall k
      ensures Get(Merged(a, b), k) == Get(Merged(b, a), k) <==> !Clash(a, b, k)
    {
      MergedLookup(a, b, k);
      MergedLookup(b, a, k);
    }
  }

  /** A negative component, which Increment does not rule out, breaks the documented commutativity. */
  lemma MergeNeedNotCommute()
    ensures !SameLookups(Merged(map["n" := -1], map[]), Merged(map[], map["n" := -1]))
  {
    MergeCommutesExactlyWhen(map["n" := -1], map[]);
    assert Clash(map["n" := -1], map[], "n");
  }

  /** Merge associates exactly when no component is negative in the first, missing in the second and
      larger but still not positive in the third. */
  lemma MergeAssociatesExactlyWhen(a: Counts, b: Counts, c: Counts)
    ensures SameLookups(Merged(Merged(a, b), c), Merged(a, Merged(b, c)))
            <==> forall k :: !(k in a && k !in b && k in c && a[k] < c[k] <= 0)
  {
    forall k
      ensures Get(Merged(Merged(a, b), c), k) == Get(Merged(a, Merged(b, c)), k)
              <==> !(k in a && k !in b && k in c && a[k] < c[k] <= 0)
    {
      MergedLookup(a, b, k);
      MergedLookup(b, c, k);
      MergedLookup(Merged(a, b), c, k);
      MergedLookup(a, Merged(b, c), k);
      assert k in Merged(b, c) <==> k in b || (k in c && c[k] > 0);
    }
  }

  /** Two negative components are enough to break the documented associativity. */
  lemma MergeNeedNotAssociate()
    ensures var a, b, c := map["n" := -2], map[], map["n" := -1];
            !SameLookups(Merged(Merged(a, b), c), Merged(a, Merged(b, c)))
  {
    var a, b, c: Counts := map["n" := -2], map[], map["n" := -1];
    MergeAssociatesExactlyWhen(a, b, c);
    assert "n" in a && "n" !in b && "n" in c && a["n"] < c["n"] <= 0;
  }
}
