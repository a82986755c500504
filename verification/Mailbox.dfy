/** One actor's mailbox, run loop and stop protocol under every interleaving of senders, run loop and
    stopper (pkg/actor/mailbox.go, pkg/actor/cell.go). Every select, channel operation and hook is
    one atomic step. */
module Mailbox {

  /** What the channel carries: messages, named by the Tell call that sends them, and the signal. */
  datatype Item = Msg(tell: nat) | StopSignal

  /** A Tell call: past the first select, or returned with nil (ok) or ErrMailboxClosed. */
  datatype Tell = Passed | Returned(ok: bool)

  datatype Loop = NotStarted | Waiting | Handling(tell: nat) | Exited

  /** The stop call: not begun; mailbox closed; signal sent; done received and OnStop run. */
  datatype Stopper = Idle | Closed | Pushed | Stopped

  /** Bookkeeping: everything ever sent on the channel, the messages taken by the run loop, and, as of
      the moment Stop closed the mailbox, the calls that had returned nil and the number of sends. */
  datatype State = State(
    queue: seq<Item>, closed: bool, tells: map<nat, Tell>, loop: Loop, stopper: Stopper, fromHandler: bool,
    sent: seq<Item>, delivered: seq<nat>, acked: set<nat>, sentAtClose: nat)

  const INIT: State := State([], false, map[], NotStarted, Idle, false, [], [], {}, 0)

  datatype Action =
    | Begin(t: nat)    // first select of enqueue
    | SendMsg(t: nat)  // second select: the send
    | GiveUp(t: nat)   // second select: the mailbox is closed
    | StartLoop
    | Take
    | Return           // the handler returns
    | Close(byHandler: bool)
    | Push
    | Finish

  /** A buffered channel accepts while it has room; an unbuffered one hands over to a waiting loop. */
  predicate CanSend(cap: nat, s: State) {
    |s.queue| < cap || (cap == 0 && s.loop == Waiting && s.queue == [])
  }

  predicate IsPassed(s: State, t: nat) {
    t in s.tells && s.tells[t] == Passed
  }

  function Acked(s: State): set<nat> {
    set t | t in s.tells && s.tells[t] == Returned(true)
  }

  /** The run loop receives the first item: it exits on the signal and handles a message. */
  function TakeFirst(s: State): State
    requires s.queue != []
  {
    match s.queue[0]
    case StopSignal => s.(queue := s.queue[1..], loop := Exited)
    case Msg(t) => s.(queue := s.queue[1..], loop := Handling(t), delivered := s.delivered + [t])
  }

  ghost predicate Next(cap: nat, s: State, a: Action, s': State) {
    match a
    case Begin(t) =>
      t !in s.tells && s' == s.(tells := s.tells[t := if s.closed then Returned(false) else Passed])
    case SendMsg(t) =>
      && IsPassed(s, t) && CanSend(cap, s)
      && s' == s.(queue := s.queue + [Msg(t)], sent := s.sent + [Msg(t)], tells := s.tells[t := Returned(true)])
    case GiveUp(t) =>
      IsPassed(s, t) && s.closed && s' == s.(tells := s.tells[t := Returned(false)])
    case StartLoop =>
      s.loop == NotStarted && s' == s.(loop := Waiting)
    case Take =>
      s.loop == Waiting && s.queue != [] && s' == TakeFirst(s)
    case Return =>
      // A handler that itself called Stop does not return before Stop does.
      && s.loop.Handling? && (s.fromHandler ==> s.stopper == Stopped)
      && s' == s.(loop := Waiting)
    case Close(byHandler) =>
      && s.stopper == Idle && (byHandler ==> s.loop.Handling?)
      && s' == s.(closed := true, stopper := Closed, fromHandler := byHandler,
                  acked := Acked(s), sentAtClose := |s.sent|)
    case Push =>
      && s.stopper == Closed && CanSend(cap, s)
      && s' == s.(queue := s.queue + [StopSignal], sent := s.sent + [StopSignal], stopper := Pushed)
    case Finish =>
      s.stopper == Pushed && s.loop == Exited && s' == s.(stopper := Stopped)
  }

  ghost predicate IsRun(cap: nat, states: seq<State>, actions: seq<Action>) {
    && |states| == |actions| + 1
    && states[0] == INIT
    && forall i :: 0 <= i < |actions| ==> StepAt(cap, states, actions, i)
  }

  ghost predicate StepAt(cap: nat, states: seq<State>, actions: seq<Action>, i: nat)
    requires i < |actions| && |states| == |actions| + 1
  {
    Next(cap, states[i], actions[i], states[i + 1])
  }

  // ----- The invariant -----

  function AsItems(ts: seq<nat>): seq<Item> {
    seq(|ts|, i requires 0 <= i < |ts| => Msg(ts[i]))
  }

  /** What the run loop has taken from the channel. */
  function Taken(s: State): seq<Item> {
    AsItems(s.delivered) + if s.loop == Exited then [StopSignal] else []
  }

  ghost predicate NoRepeats(items: seq<Item>) {
    forall i, j :: 0 <= i < j < |items| ==> items[i] != items[j]
  }

  ghost predicate Inv(s: State) {
    && s.sent == Taken(s) + s.queue
    && NoRepeats(s.sent)
    && (forall t :: Msg(t) in s.sent <==> t in s.tells && s.tells[t] == Returned(true))
    && (StopSignal in s.sent <==> s.stopper in {Pushed, Stopped})
    && (s.closed <==> s.stopper != Idle)
    && (s.stopper == Stopped ==> s.loop == Exited)
    && (s.fromHandler ==> s.closed && s.loop.Handling?)
    && s.sentAtClose <= |s.sent|
    && StopSignal !in s.sent[..s.sentAtClose]
    && (forall t :: t in s.acked ==> Msg(t) in s.sent[..s.sentAtClose])
  }

  lemma SentGrows(s: State, x: Item)
    requires Inv(s) && x !in s.sent
    ensures NoRepeats(s.sent + [x])
    ensures (s.sent + [x])[..s.sentAtClose] == s.sent[..s.sentAtClose]
    ensures forall y :: y in s.sent + [x] <==> y in s.sent || y == x
    ensures s.sent + [x] == Taken(s) + (s.queue + [x])
  {
  }

  lemma TakeKeepsInv(cap: nat, s: State, s': State)
    requires Inv(s) && Next(cap, s, Take, s')
    ensures Inv(s')
  {
    var x := s.queue[0];
    TakenNext(s, s', x);
    Regroup(Taken(s), x, s.queue);
  }

  lemma TakenNext(s: State, s': State, x: Item)
    requires s.loop == Waiting && s.queue != [] && x == s.queue[0] && s' == TakeFirst(s)
    ensures Taken(s') == Taken(s) + [x]
  {
  }

  lemma Regroup(a: seq<Item>, x: Item, b: seq<Item>)
    requires b != [] && b[0] == x
    ensures a + b == a + [x] + b[1..]
  {
  }

  lemma StepKeepsInv(cap: nat, s: State, a: Action, s': State)
    requires Inv(s) && Next(cap, s, a, s')
    ensures Inv(s')
  {
    match a {
      case SendMsg(t) => SentGrows(s, Msg(t));
      case Push => SentGrows(s, StopSignal);
      case Take => TakeKeepsInv(cap, s, s');
      case Close(_) =>
        assert s.sent[..|s.sent|] == s.sent;
      case _ =>
    }
  }

  lemma {:induction false} RunKeepsInv(cap: nat, states: seq<State>, actions: seq<Action>, i: nat)
    requires IsRun(cap, states, actions) && i < |states|
    ensures Inv(states[i])
  {
    if i > 0 {
      RunKeepsInv(cap, states, actions, i - 1);
      assert StepAt(cap, states, actions, i - 1);
      StepKeepsInv(cap, states[i - 1], actions[i - 1], states[i]);
    }
  }

  // ----- Capacity and rejection -----

  /** The channel never holds more than its capacity; without a buffer it holds at most what a waiting
      loop is about to take. */
  lemma {:induction false} NeverOverfull(cap: nat, states: seq<State>, actions: seq<Action>, i: nat)
    requires IsRun(cap, states, actions) && i < |states|
    ensures |states[i].queue| <= if cap > 0 then cap else 1
    ensures cap == 0 && states[i].queue != [] ==> states[i].loop == Waiting
  {
    if i > 0 {
      NeverOverfull(cap, states, actions, i - 1);
      assert StepAt(cap, states, actions, i - 1);
    }
  }

  /** What the send would lead to. */
  function Sent(s: State, t: nat): State {
    s.(queue := s.queue + [Msg(t)], sent := s.sent + [Msg(t)], tells := s.tells[t := Returned(true)])
  }

  /** A Tell past its first check has to wait exactly while the channel is full: with a buffer as long as
      it holds its capacity, without one until the loop waits and nobody is ahead. */
  lemma WaitsExactlyWhenFull(cap: nat, states: seq<State>, actions: seq<Action>, i: nat, t: nat)
    requires IsRun(cap, states, actions) && i < |states|
    requires t in states[i].tells && states[i].tells[t] == Passed
    ensures var s := states[i];
            Next(cap, s, SendMsg(t), Sent(s, t))
            <==> if cap > 0 then |s.queue| != cap else s.loop == Waiting && s.queue == []
  {
    NeverOverfull(cap, states, actions, i);
  }

  /** Only a closed mailbox rejects: a Tell that has returned ErrMailboxClosed did so after some step
      closed the mailbox. */
  lemma {:induction false} RejectedMeansClosed(cap: nat, states: seq<State>, actions: seq<Action>, i: nat, t: nat) returns (p: nat)
    requires IsRun(cap, states, actions) && i < |states|
    requires (t in states[i].tells && states[i].tells[t] == Returned(false)) || states[i].closed
    ensures p < i && actions[p].Close?
    decreases i
  {
    assert StepAt(cap, states, actions, i - 1);
    if actions[i - 1].Close? {
      p := i - 1;
    } else {
      p := RejectedMeansClosed(cap, states, actions, i - 1, t);
    }
  }

  // ----- Stop is safe -----

  /** Messages are delivered in channel order, without gaps, and each at most once. */
  lemma DeliveredIsPrefixOfSent(cap: nat, states: seq<State>, actions: seq<Action>, i: nat)
    requires IsRun(cap, states, actions) && i < |states|
    ensures AsItems(states[i].delivered) <= states[i].sent
    ensures forall j, k :: 0 <= j < k < |states[i].delivered| ==> states[i].delivered[j] != states[i].delivered[k]
  {
    RunKeepsInv(cap, states, actions, i);
    var s := states[i];
    forall j, k | 0 <= j < k < |s.delivered|
      ensures s.delivered[j] != s.delivered[k]
    {
      assert s.sent[j] == Msg(s.delivered[j]) && s.sent[k] == Msg(s.delivered[k]);
    }
  }

  lemma InTaken(s: State, t: nat)
    requires Msg(t) in Taken(s)
    ensures t in s.delivered
  {
    var i :| 0 <= i < |Taken(s)| && Taken(s)[i] == Msg(t);
    assert i < |s.delivered| && s.delivered[i] == t;
  }

  /** Once the run loop has exited, everything sent before the mailbox was closed has been taken. */
  lemma TakenCoversClose(s: State)
    requires Inv(s) && s.loop == Exited
    ensures s.sentAtClose <= |s.delivered|
  {
    assert Taken(s)[|s.delivered|] == StopSignal;
    assert s.sent[|s.delivered|] == StopSignal;
    assert forall k :: 0 <= k < s.sentAtClose ==> s.sent[k] in s.sent[..s.sentAtClose];
  }

  /** A message accepted before the stop began is on record when it begins. */
  lemma {:induction false} AckedRecorded(cap: nat, states: seq<State>, actions: seq<Action>, k: nat, i: nat, t: nat)
    requires IsRun(cap, states, actions) && k <= i < |states|
    requires states[k].stopper == Idle && t in Acked(states[k])
    ensures if states[i].stopper == Idle then t in Acked(states[i]) else t in states[i].acked
  {
    if k < i {
      AckedRecorded(cap, states, actions, k, i - 1, t);
      assert StepAt(cap, states, actions, i - 1);
    }
  }

  /** The documented promise: when Stop returns, every message whose Tell had returned nil before
      Stop began has been delivered. */
  lemma StopDeliversEarlierMessages(cap: nat, states: seq<State>, actions: seq<Action>, k: nat, i: nat, t: nat)
    requires IsRun(cap, states, actions) && k <= i < |states|
    requires states[k].stopper == Idle && t in states[k].tells && states[k].tells[t] == Returned(true)
    requires states[i].stopper == Stopped
    ensures t in states[i].delivered
  {
    AckedRecorded(cap, states, actions, k, i, t);
    RunKeepsInv(cap, states, actions, i);
    var s := states[i];
    TakenCoversClose(s);
    var j :| 0 <= j < s.sentAtClose && s.sent[..s.sentAtClose][j] == Msg(t);
    assert Taken(s)[j] == s.sent[j] == Msg(t);
    InTaken(s, t);
  }

  /** After the run loop has exited, hence after OnStop, nothing is delivered. */
  lemma {:induction false} NothingAfterExit(cap: nat, states: seq<State>, actions: seq<Action>, i: nat, j: nat)
    requires IsRun(cap, states, actions) && i <= j < |states| && states[i].loop == Exited
    ensures states[j].loop == Exited && states[j].delivered == states[i].delivered
  {
    if i < j {
      NothingAfterExit(cap, states, actions, i, j - 1);
      assert StepAt(cap, states, actions, j - 1);
    }
  }

  /** What a step sends on the channel. */
  function ItemOf(a: Action): Item
    requires a.SendMsg? || a.Push?
  {
    if a.SendMsg? then Msg(a.t) else StopSignal
  }

  /** The item sent in step k takes the next place in the channel's history, and keeps it. */
  lemma {:induction false} SentAt(cap: nat, states: seq<State>, actions: seq<Action>, k: nat, i: nat)
    requires IsRun(cap, states, actions) && k < i < |states| && (actions[k].SendMsg? || actions[k].Push?)
    ensures |states[k].sent| < |states[i].sent| && states[i].sent[|states[k].sent|] == ItemOf(actions[k])
  {
    assert StepAt(cap, states, actions, i - 1);
    if k < i - 1 {
      SentAt(cap, states, actions, k, i - 1);
    }
  }

  /** Places in the channel follow the order of the steps. */
  lemma SentInOrder(cap: nat, states: seq<State>, actions: seq<Action>, k: nat, q: nat)
    requires IsRun(cap, states, actions) && k < q < |actions| && (actions[k].SendMsg? || actions[k].Push?)
    ensures |states[k].sent| < |states[q].sent|
  {
    SentAt(cap, states, actions, k, q);
  }

  /** The signal stands right behind everything delivered. */
  lemma SignalPlace(s: State, n: nat)
    requires Inv(s) && s.loop == Exited && n < |s.sent| && s.sent[n] == StopSignal
    ensures n == |s.delivered|
  {
    assert Taken(s)[|s.delivered|] == StopSignal;
    assert s.sent[|s.delivered|] == StopSignal;
  }

  lemma PlaceDecides(s: State, t: nat, n: nat)
    requires Inv(s) && n < |s.sent| && s.sent[n] == Msg(t)
    ensures t in s.delivered <==> n < |s.delivered|
  {
    if t in s.delivered {
      var m :| 0 <= m < |s.delivered| && s.delivered[m] == t;
      assert Taken(s)[m] == Msg(t) && s.sent[m] == Msg(t);
    }
    if n < |s.delivered| {
      assert Taken(s)[n] == Msg(s.delivered[n]);
    }
  }

  /** Which accepted messages are delivered: once the loop has exited, those whose send came before the
      send of the stop signal, and no others. */
  lemma DeliveredExactlyWhen(cap: nat, states: seq<State>, actions: seq<Action>, k: nat, q: nat, i: nat)
    requires IsRun(cap, states, actions) && k < i < |states| && q < i
    requires actions[k].SendMsg? && actions[q].Push? && states[i].loop == Exited
    ensures actions[k].t in states[i].delivered <==> k < q
  {
    RunKeepsInv(cap, states, actions, i);
    var s := states[i];
    SentAt(cap, states, actions, k, i);
    SentAt(cap, states, actions, q, i);
    SignalPlace(s, |states[q].sent|);
    PlaceDecides(s, actions[k].t, |states[k].sent|);
    if k < q {
      SentInOrder(cap, states, actions, k, q);
    } else {
      SentInOrder(cap, states, actions, q, k);
    }
  }

  /** Every accepted message was sent in some step, and every exit follows some push, so that the above
      speaks of all of them. */
  lemma {:induction false} AcceptedWasSent(cap: nat, states: seq<State>, actions: seq<Action>, i: nat, t: nat)
    requires IsRun(cap, states, actions) && i < |states|
    ensures t in states[i].tells && states[i].tells[t] == Returned(true) <==> exists k :: 0 <= k < i && actions[k] == SendMsg(t)
  {
    if i > 0 {
      AcceptedWasSent(cap, states, actions, i - 1, t);
      RunKeepsInv(cap, states, actions, i - 1);
      assert StepAt(cap, states, actions, i - 1);
      if actions[i - 1] == SendMsg(t) {
        assert states[i].tells[t] == Returned(true);
      }
    }
  }

  lemma {:induction false} ExitFollowsPush(cap: nat, states: seq<State>, actions: seq<Action>, i: nat) returns (q: nat)
    requires IsRun(cap, states, actions) && i < |states| && states[i].stopper in {Pushed, Stopped}
    ensures q < i && actions[q].Push?
    decreases i
  {
    assert StepAt(cap, states, actions, i - 1);
    if actions[i - 1].Push? {
      q := i - 1;
    } else {
      q := ExitFollowsPush(cap, states, actions, i - 1);
    }
  }

  /** Only a message whose Tell was under way when the mailbox was closed can be accepted and lost: a
      Tell that begins later is rejected. */
  lemma {:induction false} LateTellsAreRejected(cap: nat, states: seq<State>, actions: seq<Action>, p: nat, b: nat, i: nat, t: nat)
    requires IsRun(cap, states, actions) && p < b < i < |states|
    requires actions[p].Close? && actions[b] == Begin(t)
    ensures states[i].closed && t in states[i].tells && states[i].tells[t] == Returned(false)
  {
    if b < i - 1 {
      LateTellsAreRejected(cap, states, actions, p, b, i - 1, t);
    } else {
      assert StepAt(cap, states, actions, p);
      StaysClosed(cap, states, actions, p + 1, b);
    }
    assert StepAt(cap, states, actions, i - 1);
  }

  lemma {:induction false} StaysClosed(cap: nat, states: seq<State>, actions: seq<Action>, i: nat, j: nat)
    requires IsRun(cap, states, actions) && i <= j < |states| && states[i].closed
    ensures states[j].closed
  {
    if i < j {
      StaysClosed(cap, states, actions, i, j - 1);
      assert StepAt(cap, states, actions, j - 1);
    }
  }

  lemma Extend(cap: nat, states: seq<State>, actions: seq<Action>, a: Action, s': State)
    requires IsRun(cap, states, actions) && Next(cap, states[|actions|], a, s')
    ensures IsRun(cap, states + [s'], actions + [a])
  {
    var ss, aa := states + [s'], actions + [a];
    forall i | 0 <= i < |aa|
      ensures StepAt(cap, ss, aa, i)
    {
      if i < |actions| {
        assert StepAt(cap, states, actions, i);
      }
    }
  }

  lemma CloseIdle(s: State)
    requires s.stopper == Idle && s.sent == [] && Acked(s) == s.acked == {} && s.sentAtClose == 0
    ensures Next(1, s, Close(false), s.(closed := true, stopper := Closed, fromHandler := false))
  {
  }

  /** A Tell that returns nil does not promise delivery: a call past its first check may send behind
      the stop signal. */
  lemma AcceptedButNeverDelivered() returns (states: seq<State>, actions: seq<Action>, s: State)
    ensures IsRun(1, states, actions) && s == states[|actions|]
    ensures s.stopper == Stopped
    ensures 7 in s.tells && s.tells[7] == Returned(true) && 7 !in s.delivered
  {
    states, actions, s := [INIT], [], INIT;
    states, actions, s := After(states, actions, s, StartLoop, s.(loop := Waiting));
    states, actions, s := After(states, actions, s, Begin(7), s.(tells := s.tells[7 := Passed]));
    CloseIdle(s);
    states, actions, s := After(states, actions, s, Close(false), s.(closed := true, stopper := Closed, fromHandler := false));
    states, actions, s := After(states, actions, s, Push, s.(queue := [StopSignal], sent := [StopSignal], stopper := Pushed));
    states, actions, s := After(states, actions, s, Take, s.(queue := [], loop := Exited));
    states, actions, s := After(states, actions, s, Finish, s.(stopper := Stopped));
    states, actions, s := After(states, actions, s, SendMsg(7),
                                s.(queue := [Msg(7)], sent := [StopSignal, Msg(7)], tells := s.tells[7 := Returned(true)]));
  }

  lemma After(states: seq<State>, actions: seq<Action>, s: State, a: Action, s': State)
    returns (states': seq<State>, actions': seq<Action>, last: State)
    requires IsRun(1, states, actions) && s == states[|actions|] && Next(1, s, a, s')
    ensures IsRun(1, states', actions') && last == s' == states'[|actions'|] && actions' == actions + [a]
  {
    Extend(1, states, actions, a, s');
    states', actions', last := states + [s'], actions + [a], s';
  }

  // ----- Stop terminates -----

  function Pending(s: State): set<nat> {
    set t | t in s.tells && s.tells[t] == Passed
  }

  /** What can still happen before a stop that has begun is over. */
  function Measure(s: State): nat {
    3 * |Pending(s)| + 2 * |s.queue|
    + (if s.loop.Handling? || s.loop == NotStarted then 1 else 0)
    + match s.stopper case Idle => 5 case Closed => 4 case Pushed => 1 case Stopped => 0
  }

  lemma PendingDrops(s: State, t: nat, r: Tell)
    requires IsPassed(s, t) && r != Passed
    ensures |Pending(s.(tells := s.tells[t := r]))| == |Pending(s)| - 1
  {
    assert Pending(s.(tells := s.tells[t := r])) == Pending(s) - {t};
  }

  /** After the mailbox is closed every step makes the measure smaller, except new Tell calls, which
      are rejected at once. */
  lemma MeasureDrops(cap: nat, s: State, a: Action, s': State)
    requires Inv(s) && s.closed && Next(cap, s, a, s')
    ensures s'.closed
    ensures if a.Begin? then Measure(s') == Measure(s) && s'.tells[a.t] == Returned(false)
            else Measure(s') < Measure(s)
  {
    match a {
      case Begin(t) =>
        assert Pending(s') == Pending(s);
      case SendMsg(t) =>
        PendingDrops(s, t, Returned(true));
        assert Pending(s') == Pending(s.(tells := s'.tells));
      case GiveUp(t) =>
        PendingDrops(s, t, Returned(false));
      case Close(_) =>
      case _ =>
        assert s'.tells == s.tells;
    }
  }

  function Progress(actions: seq<Action>): nat {
    if actions == [] then 0
    else Progress(actions[..|actions| - 1]) + if actions[|actions| - 1].Begin? then 0 else 1
  }

  /** A run makes at most Measure(s) steps, rejected Tell calls aside, after a state s in which the
      mailbox is closed. */
  lemma {:induction false} StopIsBounded(cap: nat, states: seq<State>, actions: seq<Action>, i: nat, j: nat)
    requires IsRun(cap, states, actions) && i <= j < |states| && states[i].closed
    ensures states[j].closed
    ensures Progress(actions[i..j]) + Measure(states[j]) <= Measure(states[i])
  {
    if i < j {
      StopIsBounded(cap, states, actions, i, j - 1);
      RunKeepsInv(cap, states, actions, j - 1);
      assert StepAt(cap, states, actions, j - 1);
      MeasureDrops(cap, states[j - 1], actions[j - 1], states[j]);
      assert actions[i..j][..j - 1 - i] == actions[i..j - 1];
    }
  }

  /** The loop has exited if and only if the signal has been sent and is no longer in the channel. */
  lemma ExitNeedsSignal(s: State)
    requires Inv(s)
    ensures s.loop == Exited <==> s.stopper in {Pushed, Stopped} && StopSignal !in s.queue
  {
    var d := AsItems(s.delivered);
    if s.loop == Exited {
      NotRepeated(d, StopSignal, s.queue);
    } else {
      assert Taken(s) == d;
      assert StopSignal in d + s.queue <==> StopSignal in s.queue;
    }
  }

  lemma NotRepeated(a: seq<Item>, x: Item, b: seq<Item>)
    requires NoRepeats(a + [x] + b)
    ensures x in a + [x] + b && x !in b
  {
    var all := a + [x] + b;
    assert all[|a|] == x;
    assert forall j :: 0 <= j < |b| ==> all[|a| + 1 + j] == b[j];
  }

  /** A stop that has begun and is not called from the actor's own handler is never stuck: until it
      has returned, the handler can return or the loop, the stopper or the start can go on. */
  lemma StopIsNeverStuck(cap: nat, s: State) returns (a: Action, s': State)
    requires Inv(s) && s.closed && !s.fromHandler && s.stopper != Stopped
    ensures Next(cap, s, a, s') && (a.StartLoop? || a.Take? || a.Return? || a.Push? || a.Finish?)
  {
    if s.loop == NotStarted {
      a, s' := StartLoop, s.(loop := Waiting);
    } else if s.loop.Handling? {
      a, s' := Return, s.(loop := Waiting);
    } else if s.loop == Waiting && s.queue != [] {
      a, s' := Take, TakeFirst(s);
    } else if s.stopper == Closed {
      ExitNeedsSignal(s);
      a, s' := Push, s.(queue := s.queue + [StopSignal], sent := s.sent + [StopSignal], stopper := Pushed);
    } else {
      ExitNeedsSignal(s);
      a, s' := Finish, s.(stopper := Stopped);
    }
  }

  /** An actor that stops itself from its own handler waits for itself: that stop never returns, the
      handler never returns, and no further message is delivered. */
  lemma {:induction false} SelfStopNeverReturns(cap: nat, states: seq<State>, actions: seq<Action>, i: nat, j: nat)
    requires IsRun(cap, states, actions) && i <= j < |states| && states[i].fromHandler
    ensures states[j].fromHandler && states[j].loop == states[i].loop
    ensures states[j].stopper != Stopped && states[j].delivered == states[i].delivered
  {
    RunKeepsInv(cap, states, actions, i);
    if i < j {
      SelfStopNeverReturns(cap, states, actions, i, j - 1);
      RunKeepsInv(cap, states, actions, j - 1);
      assert StepAt(cap, states, actions, j - 1);
    }
  }

  /** Such a stop does occur: a message is told, taken, and its handler calls Stop on its own actor. */
  lemma SelfStopOccurs() returns (states: seq<State>, actions: seq<Action>, s: State)
    ensures IsRun(1, states, actions) && s == states[|actions|]
    ensures s.fromHandler && s.loop == Handling(7) && actions[|actions| - 1] == Close(true)
  {
    states, actions, s := [INIT], [], INIT;
    states, actions, s := After(states, actions, s, StartLoop, s.(loop := Waiting));
    states, actions, s := After(states, actions, s, Begin(7), s.(tells := s.tells[7 := Passed]));
    states, actions, s := After(states, actions, s, SendMsg(7),
                                s.(queue := [Msg(7)], sent := [Msg(7)], tells := s.tells[7 := Returned(true)]));
    states, actions, s := After(states, actions, s, Take, TakeFirst(s));
    states, actions, s := After(states, actions, s, Close(true),
                                s.(closed := true, stopper := Closed, fromHandler := true, acked := Acked(s),
                                   sentAtClose := |s.sent|));
  }
}
