/** The aggregator: it collects the workers' updates round by round and combines them when the
    announced number has arrived (internal/fl/aggregator.go). */
module Aggregator {
  import opened NaiveBayes
  import opened NaiveBayesLaws
  import opened Wire

  datatype Msg = Trigger(round: int, expected: int) | Update(update: LocalModelUpdate)
  {
    function Round(): int {
      if Trigger? then round else update.round
    }

    function Expectation(): int {
      if Trigger? then expected else 0
    }
  }

  /** One aggregation: the round and the counts it combines. */
  datatype Batch = Batch(round: int, counts: seq<LocalCounts>)

  datatype State = State(updates: map<int, seq<LocalCounts>>, expected: map<int, int>)

  const INIT: State := State(map[], map[])

  /** The counts collected for a round. */
  function Pending(s: State, r: int): seq<LocalCounts> {
    if r in s.updates then s.updates[r] else []
  }

  function MaybeAggregate(s: State, r: int): (State, seq<Batch>) {
    if r !in s.expected || |Pending(s, r)| < s.expected[r] then (s, [])
    else (State(s.updates - {r}, s.expected - {r}), [Batch(r, Pending(s, r))])
  }

  /** The effect of one message: the new state and the aggregations it sets off. */
  function Step(s: State, msg: Msg): (State, seq<Batch>) {
    match msg
    case Trigger(r, n) => MaybeAggregate(s.(expected := s.expected[r := n]), r)
    case Update(u) =>
      MaybeAggregate(s.(updates := s.updates[u.round := Pending(s, u.round) + [FromUpdate(u)]]), u.round)
  }

  ghost function ToMessages(batches: seq<Batch>): seq<AggregatedModel> {
    seq(|batches|, i requires 0 <= i < |batches| => ToMessage(batches[i].round, ModelOf(batches[i].counts)))
  }

  class AggregatorActor {
    var updates: map<int, seq<LocalCounts>>
    var expected: map<int, int>

    constructor ()
      ensures View() == INIT
    {
      updates := map[];
      expected := map[];
    }

    function View(): State
      reads this
    {
      State(updates, expected)
    }

    /** Handles a message; sent lists what goes to the coordinator. */
    method Receive(msg: Msg) returns (sent: seq<AggregatedModel>)
      modifies this
      ensures View() == Step(old(View()), msg).0
      ensures sent == ToMessages(Step(old(View()), msg).1)
    {
      match msg {
        case Trigger(r, n) =>
          expected := expected[r := n];
          sent := Maybe(r);
        case Update(u) =>
          var wordCounts := ReadPBWordCounts(u.wordCounts);
          var classTotals := CopyMap(u.classTotals);
          updates := updates[u.round := (if u.round in updates then updates[u.round] else [])
                             + [LocalCounts(wordCounts, classTotals)]];
          sent := Maybe(u.round);
      }
    }

    method Maybe(r: int) returns (sent: seq<AggregatedModel>)
      modifies this
      ensures View() == MaybeAggregate(old(View()), r).0
      ensures sent == ToMessages(MaybeAggregate(old(View()), r).1)
    {
      var collected := if r in updates then updates[r] else [];
      if r !in expected || |collected| < expected[r] {
        return [];
      }
      var model := Aggregate(collected);
      updates := updates - {r};
      expected := expected - {r};
      var wordProbs := MakePBWordProbs(model.wordProbs);
      sent := [AggregatedModel(r, wordProbs, model.classPriors)];
    }
  }

  // ----- Runs over any sequence of messages -----

  datatype Trace = Trace(state: State, batches: seq<Batch>)

  /** The state after a sequence of messages and all aggregations made on the way. */
  function Run(msgs: seq<Msg>): Trace {
    if msgs == [] then Trace(INIT, [])
    else
      var before := Run(msgs[..|msgs| - 1]);
      var (s, fired) := Step(before.state, msgs[|msgs| - 1]);
      Trace(s, before.batches + fired)
  }

  /** The counts sent for a round, in order of arrival. */
  function Received(msgs: seq<Msg>, r: int): seq<LocalCounts> {
    if msgs == [] then []
    else
      var m := msgs[|msgs| - 1];
      Received(msgs[..|msgs| - 1], r) + if m.Update? && m.update.round == r then [FromUpdate(m.update)] else []
  }

  /** The expectations announced for a round. */
  function Announced(msgs: seq<Msg>, r: int): seq<int> {
    if msgs == [] then []
    else
      var m := msgs[|msgs| - 1];
      Announced(msgs[..|msgs| - 1], r) + if m.Trigger? && m.round == r then [m.expected] else []
  }

  /** The aggregations of a round. */
  function BatchesOf(batches: seq<Batch>, r: int): seq<Batch> {
    if batches == [] then []
    else
      var b := batches[|batches| - 1];
      BatchesOf(batches[..|batches| - 1], r) + if b.round == r then [b] else []
  }

  function Consumed(batches: seq<Batch>): seq<LocalCounts> {
    if batches == [] then [] else Consumed(batches[..|batches| - 1]) + batches[|batches| - 1].counts
  }

  lemma BatchesNext(batches: seq<Batch>, fired: seq<Batch>, r: int)
    requires |fired| <= 1
    ensures BatchesOf(batches + fired, r)
            == BatchesOf(batches, r) + if fired != [] && fired[0].round == r then [fired[0]] else []
  {
    if fired == [] {
      assert batches + fired == batches;
    } else {
      assert (batches + fired)[..|batches|] == batches;
    }
  }

  /** What a run holds of one round. */
  datatype RoundView = RoundView(batches: seq<Batch>, pending: seq<LocalCounts>, known: bool, want: int)

  function ViewOf(t: Trace, r: int): RoundView {
    RoundView(BatchesOf(t.batches, r), Pending(t.state, r), r in t.state.expected,
              if r in t.state.expected then t.state.expected[r] else 0)
  }

  function ViewStep(v: RoundView, m: Msg, r: int): RoundView {
    if m.Round() != r then v
    else
      var got := v.pending + if m.Update? then [FromUpdate(m.update)] else [];
      var known := v.known || m.Trigger?;
      var want := if m.Trigger? then m.expected else v.want;
      if known && |got| >= want then RoundView(v.batches + [Batch(r, got)], [], false, 0)
      else RoundView(v.batches, got, known, want)
  }

  /** Messages of other rounds change nothing for a round. */
  lemma ViewNext(msgs: seq<Msg>, r: int)
    requires msgs != []
    ensures var n := |msgs| - 1;
            ViewOf(Run(msgs), r) == ViewStep(ViewOf(Run(msgs[..n]), r), msgs[n], r)
  {
    var n := |msgs| - 1;
    TraceNext(Run(msgs[..n]), msgs[n], r);
  }

  lemma TraceNext(t: Trace, m: Msg, r: int)
    ensures var (s, fired) := Step(t.state, m);
            ViewOf(Trace(s, t.batches + fired), r) == ViewStep(ViewOf(t, r), m, r)
  {
    var (s, fired) := Step(t.state, m);
    StepForRound(t.state, m, r);
    ViewFollows(t, m, r, s, fired);
  }

  lemma ViewFollows(t: Trace, m: Msg, r: int, s: State, fired: seq<Batch>)
    requires SeenFrom(r, t.state, m, s, fired)
    ensures ViewOf(Trace(s, t.batches + fired), r) == ViewStep(ViewOf(t, r), m, r)
  {
    BatchesNext(t.batches, fired, r);
    PartsFollow(BatchesOf(t.batches, r), BatchesOf(t.batches + fired, r), t.state, s, m, r, fired);
  }

  lemma PartsFollow(a: seq<Batch>, b: seq<Batch>, s: State, s': State, m: Msg, r: int, fired: seq<Batch>)
    requires SeenFrom(r, s, m, s', fired)
    requires b == a + if fired != [] && fired[0].round == r then [fired[0]] else []
    ensures RoundView(b, Pending(s', r), r in s'.expected, if r in s'.expected then s'.expected[r] else 0)
            == ViewStep(RoundView(a, Pending(s, r), r in s.expected, if r in s.expected then s.expected[r] else 0), m, r)
  {
    assert a + [] == a;
  }

  /** One message seen from one round: what becomes of its updates, its expectation and its batches. */
  ghost predicate SeenFrom(r: int, s: State, m: Msg, s': State, fired: seq<Batch>) {
    && |fired| <= 1
    && if m.Round() != r then
         && Pending(s', r) == Pending(s, r)
         && (r in s'.expected <==> r in s.expected)
         && (r in s.expected ==> s'.expected[r] == s.expected[r])
         && (fired != [] ==> fired[0].round != r)
       else
         var got := Pending(s, r) + if m.Update? then [FromUpdate(m.update)] else [];
         var known := m.Trigger? || r in s.expected;
         var want := if m.Trigger? then m.expected else if r in s.expected then s.expected[r] else 0;
         if known && |got| >= want then
           fired == [Batch(r, got)] && Pending(s', r) == [] && r !in s'.expected
         else
           fired == [] && Pending(s', r) == got && (r in s'.expected <==> known) && (known ==> s'.expected[r] == want)
  }

  lemma StepForRound(s: State, m: Msg, r: int)
    ensures SeenFrom(r, s, m, Step(s, m).0, Step(s, m).1)
  {
    assert Pending(s, r) + [] == Pending(s, r);
  }

  /** Nothing is lost, repeated or mixed up: for every sequence of messages and every round, the
      updates received are, in order, the updates combined so far followed by those still pending. */
  lemma {:induction false} UpdatesConserved(msgs: seq<Msg>, r: int)
    ensures Received(msgs, r) == Consumed(BatchesOf(Run(msgs).batches, r)) + Pending(Run(msgs).state, r)
  {
    if msgs != [] {
      var n := |msgs| - 1;
      UpdatesConserved(msgs[..n], r);
      ViewNext(msgs, r);
      ViewConserves(ViewOf(Run(msgs[..n]), r), msgs[n], r);
    }
  }

  lemma ViewConserves(v: RoundView, m: Msg, r: int)
    ensures var v' := ViewStep(v, m, r);
            Consumed(v'.batches) + v'.pending
            == Consumed(v.batches) + v.pending + if m.Update? && m.update.round == r then [FromUpdate(m.update)] else []
  {
    var v' := ViewStep(v, m, r);
    if v'.batches != v.batches {
      assert v'.batches[..|v.batches|] == v.batches;
    }
    var c, p := Consumed(v.batches), v.pending;
    assert c + p + [] == c + p;
    if m.Update? {
      assert c + (p + [FromUpdate(m.update)]) == c + p + [FromUpdate(m.update)];
    }
  }

  /** A round is aggregated at most once per trigger. */
  lemma {:induction false} OnePerTrigger(msgs: seq<Msg>, r: int)
    ensures |BatchesOf(Run(msgs).batches, r)| + (if r in Run(msgs).state.expected then 1 else 0) <= |Announced(msgs, r)|
  {
    if msgs != [] {
      OnePerTrigger(msgs[..|msgs| - 1], r);
      ViewNext(msgs, r);
    }
  }

  /** A batch holds at least as many updates as some trigger of its round announced. */
  ghost predicate IsFull(b: Batch, r: int, announced: seq<int>) {
    b.round == r && exists n :: n in announced && |b.counts| >= n
  }

  /** A round whose updates are not all there is never aggregated. */
  lemma {:induction false} BatchesAreFull(msgs: seq<Msg>, r: int)
    ensures forall b :: b in BatchesOf(Run(msgs).batches, r) ==> IsFull(b, r, Announced(msgs, r))
    ensures r in Run(msgs).state.expected ==> Run(msgs).state.expected[r] in Announced(msgs, r)
  {
    if msgs != [] {
      var n := |msgs| - 1;
      BatchesAreFull(msgs[..n], r);
      ViewNext(msgs, r);
      var v, v' := ViewOf(Run(msgs[..n]), r), ViewOf(Run(msgs), r);
      var before, after := Announced(msgs[..n], r), Announced(msgs, r);
      assert forall x :: x in before ==> x in after;
      forall b | b in v.batches
        ensures IsFull(b, r, after)
      {
        assert IsFull(b, r, before);
      }
      if v'.batches != v.batches {
        var b := v'.batches[|v.batches|];
        var want := if msgs[n].Trigger? then msgs[n].expected else v.want;
        assert want in after && |b.counts| >= want;
        assert IsFull(b, r, after);
      }
    }
  }

  // ----- Confluence -----

  /** The outcome for a round of which one trigger or none and at most the announced n updates came. */
  ghost predicate Outcome(v: RoundView, announced: seq<int>, got: seq<LocalCounts>, r: int, n: nat) {
    if announced == [n] && |got| == n then v == RoundView([Batch(r, got)], [], false, 0)
    else v == RoundView([], got, announced == [n], if announced == [n] then n else 0)
  }

  /** For a round with one trigger, whatever else is going on and in whatever order the messages of
      the round come: it is aggregated once its trigger and all announced updates are there, and not
      earlier, with exactly those updates; nothing is then left of it. */
  lemma {:induction false} RoundOutcome(msgs: seq<Msg>, r: int, n: nat)
    requires Announced(msgs, r) == [] || Announced(msgs, r) == [n]
    requires |Received(msgs, r)| <= n
    ensures Outcome(ViewOf(Run(msgs), r), Announced(msgs, r), Received(msgs, r), r, n)
  {
    if msgs != [] {
      var k := |msgs| - 1;
      var before := Announced(msgs[..k], r);
      assert msgs[k].Trigger? && msgs[k].round == r ==> Announced(msgs, r) == before + [msgs[k].expected];
      assert |Announced(msgs, r)| <= 1;
      assert msgs[k].Trigger? && msgs[k].round == r ==> before == [] && Announced(msgs, r)[0] == msgs[k].expected;
      RoundOutcome(msgs[..k], r, n);
      ViewNext(msgs, r);
      OutcomeNext(ViewOf(Run(msgs[..k]), r), msgs[k], Announced(msgs[..k], r), Received(msgs[..k], r), r, n);
    }
  }

  lemma OutcomeNext(v: RoundView, m: Msg, announced: seq<int>, got: seq<LocalCounts>, r: int, n: nat)
    requires announced == [] || announced == [n]
    requires |got| <= n
    requires Outcome(v, announced, got, r, n)
    requires m.Trigger? && m.round == r ==> announced == [] && m.expected == n
    requires m.Update? && m.update.round == r ==> |got| < n
    ensures Outcome(ViewStep(v, m, r),
                    announced + if m.Trigger? && m.round == r then [m.expected] else [],
                    got + if m.Update? && m.update.round == r then [FromUpdate(m.update)] else [], r, n)
  {
    assert got + [] == got && announced + [] == announced;
    if m.Round() == r {
      assert announced == [] ==> announced + [m.Expectation()] == [m.Expectation()];
      var got' := got + if m.Update? then [FromUpdate(m.update)] else [];
      assert v.batches == [] && v.pending == got;
      assert v.batches + [Batch(r, got')] == [Batch(r, got')];
    }
  }

  lemma {:induction false} ReceivedPrefix(msgs: seq<Msg>, k: nat, r: int)
    requires k <= |msgs|
    ensures Received(msgs[..k], r) <= Received(msgs, r)
    ensures Announced(msgs[..k], r) <= Announced(msgs, r)
  {
    if k == |msgs| {
      assert msgs[..k] == msgs;
    } else {
      assert msgs[..|msgs| - 1][..k] == msgs[..k];
      ReceivedPrefix(msgs[..|msgs| - 1], k, r);
    }
  }

  /** One trigger announcing n and exactly n updates, in any order and interleaved with any other
      messages: no model before the last of the n + 1 messages, one from then on. */
  lemma EmittedAtTheLastMessage(msgs: seq<Msg>, k: nat, r: int, n: nat)
    requires Announced(msgs, r) == [n] && |Received(msgs, r)| == n && k <= |msgs|
    ensures if Announced(msgs[..k], r) == [n] && Received(msgs[..k], r) == Received(msgs, r)
            then BatchesOf(Run(msgs[..k]).batches, r) == [Batch(r, Received(msgs, r))]
            else BatchesOf(Run(msgs[..k]).batches, r) == []
  {
    ReceivedPrefix(msgs, k, r);
    RoundOutcome(msgs[..k], r, n);
  }

  lemma OneModelSent(msgs: seq<Msg>, r: int, n: nat)
    requires Announced(msgs, r) == [n] && |Received(msgs, r)| == n
    ensures ToMessages(BatchesOf(Run(msgs).batches, r)) == [ToMessage(r, ModelOf(Received(msgs, r)))]
  {
    RoundOutcome(msgs, r, n);
    assert BatchesOf(Run(msgs).batches, r) == [Batch(r, Received(msgs, r))];
  }

  /** The model does not depend on the order in which a round's messages came. */
  lemma Confluence(a: seq<Msg>, b: seq<Msg>, r: int, n: nat)
    requires Announced(a, r) == [n] && Announced(b, r) == [n]
    requires multiset(Received(a, r)) == multiset(Received(b, r))
    requires |Received(a, r)| == n
    ensures ToMessages(BatchesOf(Run(a).batches, r)) == ToMessages(BatchesOf(Run(b).batches, r))
    ensures |ToMessages(BatchesOf(Run(a).batches, r))| == 1
  {
    assert |Received(b, r)| == |multiset(Received(b, r))|;
    assert |Received(a, r)| == |multiset(Received(a, r))|;
    OneModelSent(a, r, n);
    OneModelSent(b, r, n);
    ModelIgnoresOrder(Received(a, r), Received(b, r));
  }

  // ----- Duplicates and surplus updates -----

  lemma {:induction false} NotAnnounced(msgs: seq<Msg>, r: int)
    requires Announced(msgs, r) == []
    ensures ViewOf(Run(msgs), r) == RoundView([], Received(msgs, r), false, 0)
  {
    if msgs != [] {
      var k := |msgs| - 1;
      NotAnnounced(msgs[..k], r);
      ViewNext(msgs, r);
    }
  }

  /** The state of a round with one trigger that announced n and found early updates collected. */
  ghost predicate FirstTaken(v: RoundView, got: seq<LocalCounts>, r: int, n: int, early: nat) {
    var cut := if n > early then n else early;
    if |got| >= cut then v == RoundView([Batch(r, got[..cut])], got[cut..], false, 0)
    else v == RoundView([], got, true, n)
  }

  /** Which updates make a round's model, for any number of updates, duplicates included: the first n
      to arrive, or all that were there before the trigger if those were more. Later ones stay behind
      for good. */
  lemma {:induction false} FirstUpdatesWin(msgs: seq<Msg>, j: nat, r: int, n: int)
    requires j < |msgs| && msgs[j] == Trigger(r, n) && Announced(msgs, r) == [n]
    ensures FirstTaken(ViewOf(Run(msgs), r), Received(msgs, r), r, n, |Received(msgs[..j], r)|)
  {
    var k := |msgs| - 1;
    ViewNext(msgs, r);
    if j == k {
      OnlyTrigger(msgs, r);
      NotAnnounced(msgs[..k], r);
    } else {
      AnnouncedInPrefix(msgs, j, r, n);
      assert msgs[..k][..j] == msgs[..j];
      FirstUpdatesWin(msgs[..k], j, r, n);
      ReceivedPrefix(msgs[..k], j, r);
      TakenNext(ViewOf(Run(msgs[..k]), r), msgs[k], Received(msgs[..k], r), r, n, |Received(msgs[..j], r)|);
    }
  }

  lemma OnlyTrigger(msgs: seq<Msg>, r: int)
    requires msgs != [] && |Announced(msgs, r)| == 1
    requires msgs[|msgs| - 1].Trigger? && msgs[|msgs| - 1].round == r
    ensures Announced(msgs[..|msgs| - 1], r) == []
  {
  }

  lemma AnnouncedInPrefix(msgs: seq<Msg>, j: nat, r: int, n: int)
    requires j < |msgs| - 1 && msgs[j] == Trigger(r, n) && Announced(msgs, r) == [n]
    ensures Announced(msgs[..|msgs| - 1], r) == [n]
    ensures !(msgs[|msgs| - 1].Trigger? && msgs[|msgs| - 1].round == r)
  {
    var k := |msgs| - 1;
    ReceivedPrefix(msgs[..k], j + 1, r);
    assert msgs[..k][..j + 1] == msgs[..j + 1];
    assert msgs[..j + 1][..j] == msgs[..j];
    var before := Announced(msgs[..k], r);
    assert |before| >= |Announced(msgs[..j + 1], r)| >= 1;
    assert |Announced(msgs, r)| == |before| + if msgs[k].Trigger? && msgs[k].round == r then 1 else 0;
  }

  lemma TakenNext(v: RoundView, m: Msg, got: seq<LocalCounts>, r: int, n: int, early: nat)
    requires FirstTaken(v, got, r, n, early) && early <= |got|
    requires !(m.Trigger? && m.round == r)
    ensures FirstTaken(ViewStep(v, m, r), got + if m.Update? && m.update.round == r then [FromUpdate(m.update)] else [],
                       r, n, early)
  {
    assert got + [] == got;
    if m.Update? && m.update.round == r {
      var u := FromUpdate(m.update);
      var cut := if n > early then n else early;
      var got' := got + [u];
      if |got| >= cut {
        assert got'[..cut] == got[..cut] && got'[cut..] == got[cut..] + [u];
      } else if |got'| >= cut {
        assert got'[..cut] == got' && got'[cut..] == [];
        assert v.batches + [Batch(r, got')] == [Batch(r, got')];
      }
    }
  }

  /** Senders are not told apart: an update that arrives twice takes the place of a missing one, and
      the missing one, when it comes, is never used. */
  lemma DuplicateStandsIn(u: LocalModelUpdate, v: LocalModelUpdate)
    requires u.round == v.round
    ensures ViewOf(Run([Trigger(u.round, 2), Update(u), Update(u), Update(v)]), u.round)
            == RoundView([Batch(u.round, [FromUpdate(u), FromUpdate(u)])], [FromUpdate(v)], false, 0)
  {
    var r := u.round;
    var one: seq<Msg> := [Trigger(r, 2)];
    assert one[..0] == [];
    HistoryNext(one, Update(u), r);
    HistoryNext(one + [Update(u)], Update(u), r);
    HistoryNext(one + [Update(u)] + [Update(u)], Update(v), r);
    var msgs := one + [Update(u)] + [Update(u)] + [Update(v)];
    var x, y := FromUpdate(u), FromUpdate(v);
    assert Received(msgs, r) == [x, x, y];
    assert [x, x, y][..2] == [x, x] && [x, x, y][2..] == [y];
    FirstUpdatesWin(msgs, 0, r, 2);
    assert msgs == [Trigger(r, 2), Update(u), Update(u), Update(v)];
  }

  lemma HistoryNext(msgs: seq<Msg>, m: Msg, r: int)
    ensures Received(msgs + [m], r)
            == Received(msgs, r) + if m.Update? && m.update.round == r then [FromUpdate(m.update)] else []
    ensures Announced(msgs + [m], r) == Announced(msgs, r) + if m.Trigger? && m.round == r then [m.expected] else []
  {
    assert (msgs + [m])[..|msgs|] == msgs;
  }
}
