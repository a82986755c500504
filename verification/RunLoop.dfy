/** The run loop of an actor's cell: behaviours, Become, and panics that unwind until deliver recovers
    them (pkg/actor/cell.go, pkg/actor/context.go). */
module RunLoop {
  import opened Wrappers

  /** What a handler or an error hook does to its own actor, one act after the other. */
  datatype Act<F, B> = Update(fields: F) | Become(behavior: B) | Panic(value: string)

  /** How a call ends: it returns, or a panic leaves it. */
  datatype Outcome = Normal | Unwinding(value: string)

  /** The acts of the handler for a message and, if the actor has one, of the error hook for the value
      of a panic. They may depend on the actor's fields. */
  datatype Actor<!F, !B, !M> = Actor(handle: (F, B, M) -> seq<Act<F, B>>, hook: Option<(F, string) -> seq<Act<F, B>>>)

  datatype Item<M> = Msg(m: M) | StopSignal

  /** The actor's fields and current behaviour, which behaviour was started on which message so far, and
      the panic values the error hook was called with. */
  datatype Status<F, B, M> = Status(fields: F, behavior: B, log: seq<(B, M)>, errors: seq<string>)

  /** Acts are performed in order; a panic abandons the rest. */
  function Performed<F, B, M>(s: Status<F, B, M>, acts: seq<Act<F, B>>): (Status<F, B, M>, Outcome)
    decreases |acts|
  {
    if acts == [] then (s, Normal)
    else match acts[0]
      case Update(f) => Performed(s.(fields := f), acts[1..])
      case Become(b) => Performed(s.(behavior := b), acts[1..])
      case Panic(v) => (s, Unwinding(v))
  }

  /** One message: a panic of the handler is recovered, and the hook is called; a panic of the hook
      unwinds further. */
  function Delivered<F, B, M>(a: Actor<F, B, M>, s: Status<F, B, M>, msg: M): (Status<F, B, M>, Outcome) {
    var (t, o) := Performed(s.(log := s.log + [(s.behavior, msg)]), a.handle(s.fields, s.behavior, msg));
    if o.Normal? || a.hook.None? then (t, Normal)
    else Performed(t.(errors := t.errors + [o.value]), a.hook.value(t.fields, o.value))
  }

  /** Messages one after the other, until a panic leaves deliver. */
  function DeliveredAll<F, B, M>(a: Actor<F, B, M>, s: Status<F, B, M>, msgs: seq<M>): (Status<F, B, M>, Outcome) {
    if msgs == [] then (s, Normal)
    else
      var (t, o) := DeliveredAll(a, s, msgs[..|msgs| - 1]);
      if o.Unwinding? then (t, o) else Delivered(a, t, msgs[|msgs| - 1])
  }

  /** The messages ahead of the first stop signal. */
  function BeforeStop<M>(queue: seq<Item<M>>): (msgs: seq<M>)
    ensures |msgs| <= |queue|
  {
    if queue == [] || queue[0] == StopSignal then [] else [queue[0].m] + BeforeStop(queue[1..])
  }

  /** Why the loop gave control back: no message left, the stop signal, or a panic of the error hook. */
  datatype Ending = Drained | Stopped | Crashed(value: string)

  class ActorCell<!F, !B, !M> {
    const actor: Actor<F, B, M>
    var fields: F
    var behavior: B
    var log: seq<(B, M)>
    var errors: seq<string>

    constructor (actor: Actor<F, B, M>, fields: F, receive: B)
      ensures this.actor == actor && View() == Status(fields, receive, [], [])
    {
      this.actor := actor;
      this.fields := fields;
      behavior := receive;
      log := [];
      errors := [];
    }

    function View(): Status<F, B, M>
      reads this
    {
      Status(fields, behavior, log, errors)
    }

    method SetBehavior(b: B)
      modifies this`behavior
      ensures behavior == b
    {
      behavior := b;
    }

    /** Runs a piece of the actor's code. */
    method Perform(acts: seq<Act<F, B>>) returns (outcome: Outcome)
      modifies this`fields, this`behavior
      ensures (View(), outcome) == Performed(old(View()), acts)
    {
      for i := 0 to |acts|
        invariant Performed(old(View()), acts) == Performed(View(), acts[i..])
        invariant log == old(log) && errors == old(errors)
      {
        assert acts[i..][1..] == acts[i + 1..];
        match acts[i] {
          case Update(f) => fields := f;
          case Become(b) => SetBehavior(b);
          case Panic(v) => return Unwinding(v);
        }
      }
      return Normal;
    }

    method Deliver(msg: M) returns (outcome: Outcome)
      modifies this
      ensures (View(), outcome) == Delivered(actor, old(View()), msg)
    {
      var acts := actor.handle(fields, behavior, msg);
      log := log + [(behavior, msg)];
      outcome := Perform(acts);
      // The deferred function: recover, then the hook.
      if outcome.Unwinding? {
        if actor.hook.None? {
          return Normal;
        }
        errors := errors + [outcome.value];
        outcome := Perform(actor.hook.value(fields, outcome.value));
      }
    }

    /** Drains the channel up to the stop signal; without one the loop would go on waiting. A panic that
        leaves Deliver ends it. Everything not taken stays in the channel. */
    method Run(queue: seq<Item<M>>) returns (rest: seq<Item<M>>, ending: Ending)
      modifies this
      ensures var (s, o) := DeliveredAll(actor, old(View()), BeforeStop(queue));
              && View() == s
              && ending == (match o
                            case Unwinding(v) => Crashed(v)
                            case Normal => if |BeforeStop(queue)| < |queue| then Stopped else Drained)
      ensures |old(log)| <= |log| <= |old(log)| + |BeforeStop(queue)|
      ensures ending == Stopped ==> |log| - |old(log)| < |queue| && queue[|log| - |old(log)|] == StopSignal
      ensures rest == queue[|log| - |old(log)| + (if ending == Stopped then 1 else 0)..]
    {
      ghost var msgs := BeforeStop(queue);
      for i := 0 to |queue|
        invariant i <= |msgs| && |log| == |old(log)| + i
        invariant DeliveredAll(actor, old(View()), msgs[..i]) == (View(), Normal)
      {
        BeforeStopAt(queue, i);
        match queue[i] {
          case StopSignal =>
            assert msgs[..i] == msgs;
            return queue[i + 1..], Stopped;
          case Msg(m) =>
            assert msgs[..i + 1][..i] == msgs[..i];
            DeliveredLogs(actor, View(), m);
            var outcome := Deliver(m);
            if outcome.Unwinding? {
              CrashEnds(actor, old(View()), msgs, i + 1);
              return queue[i + 1..], Crashed(outcome.value);
            }
        }
      }
      assert msgs[..|queue|] == msgs;
      return [], Drained;
    }
  }

  lemma {:induction false} BeforeStopAt<M>(queue: seq<Item<M>>, i: nat)
    requires i < |queue| && i <= |BeforeStop(queue)|
    ensures queue[i].Msg? <==> i < |BeforeStop(queue)|
    ensures queue[i].Msg? ==> BeforeStop(queue)[i] == queue[i].m
  {
    if i > 0 {
      BeforeStopAt(queue[1..], i - 1);
    }
  }

  lemma {:induction false} PerformedKeeps<F, B, M>(s: Status<F, B, M>, acts: seq<Act<F, B>>)
    ensures Performed(s, acts).0.log == s.log && Performed(s, acts).0.errors == s.errors
    decreases |acts|
  {
    if acts != [] {
      match acts[0] {
        case Update(f) => PerformedKeeps(s.(fields := f), acts[1..]);
        case Become(b) => PerformedKeeps(s.(behavior := b), acts[1..]);
        case Panic(_) =>
      }
    }
  }

  lemma DeliveredLogs<F, B, M>(a: Actor<F, B, M>, s: Status<F, B, M>, msg: M)
    ensures Delivered(a, s, msg).0.log == s.log + [(s.behavior, msg)]
  {
    var s0, acts := s.(log := s.log + [(s.behavior, msg)]), a.handle(s.fields, s.behavior, msg);
    var (t, o) := Performed(s0, acts);
    PerformedKeeps(s0, acts);
    if o.Unwinding? && a.hook.Some? {
      PerformedKeeps(t.(errors := t.errors + [o.value]), a.hook.value(t.fields, o.value));
    }
  }

  /** After a panic has left deliver nothing more happens. */
  lemma {:induction false} CrashEnds<F, B, M>(a: Actor<F, B, M>, s: Status<F, B, M>, msgs: seq<M>, k: nat)
    requires k <= |msgs| && DeliveredAll(a, s, msgs[..k]).1.Unwinding?
    ensures DeliveredAll(a, s, msgs) == DeliveredAll(a, s, msgs[..k])
  {
    if k == |msgs| {
      assert msgs[..k] == msgs;
    } else {
      assert msgs[..|msgs| - 1][..k] == msgs[..k];
      CrashEnds(a, s, msgs[..|msgs| - 1], k);
    }
  }

  // ----- Acts ahead of a panic -----

  /** Whether, and with which value, a piece of code panics. */
  function FirstPanic<F, B>(acts: seq<Act<F, B>>): Option<string> {
    if acts == [] then None
    else if acts[0].Panic? then Some(acts[0].value)
    else FirstPanic(acts[1..])
  }

  /** The acts ahead of the first panic. */
  function Effective<F, B>(acts: seq<Act<F, B>>): seq<Act<F, B>> {
    if acts == [] || acts[0].Panic? then [] else [acts[0]] + Effective(acts[1..])
  }

  /** The last behaviour passed to Become, and the last fields written, if any. */
  function LastBehavior<F, B>(acts: seq<Act<F, B>>, default: B): B {
    if acts == [] then default
    else
      var n := |acts| - 1;
      if acts[n].Become? then acts[n].behavior else LastBehavior(acts[..n], default)
  }

  function LastFields<F, B>(acts: seq<Act<F, B>>, default: F): F {
    if acts == [] then default
    else
      var n := |acts| - 1;
      if acts[n].Update? then acts[n].fields else LastFields(acts[..n], default)
  }

  lemma {:induction false} LastOfFront<F, B>(a: Act<F, B>, acts: seq<Act<F, B>>, f: F, b: B)
    ensures LastBehavior([a] + acts, b) == LastBehavior(acts, if a.Become? then a.behavior else b)
    ensures LastFields([a] + acts, f) == LastFields(acts, if a.Update? then a.fields else f)
    decreases |acts|
  {
    if acts == [] {
      assert [a] + acts == [a] && [a][..0] == [];
    } else {
      var n := |acts| - 1;
      assert ([a] + acts)[..n + 1] == [a] + acts[..n];
      LastOfFront(a, acts[..n], f, b);
    }
  }

  /** A piece of code leaves the last fields and the last behaviour set ahead of its first panic, and it
      unwinds exactly when there is one. */
  lemma {:induction false} PerformedIs<F, B, M>(s: Status<F, B, M>, acts: seq<Act<F, B>>)
    ensures var (t, o) := Performed(s, acts);
            && t == s.(fields := LastFields(Effective(acts), s.fields), behavior := LastBehavior(Effective(acts), s.behavior))
            && o == match FirstPanic(acts) case None => Normal case Some(v) => Unwinding(v)
    decreases |acts|
  {
    if acts != [] {
      var rest := Effective(acts[1..]);
      LastOfFront(acts[0], rest, s.fields, s.behavior);
      match acts[0] {
        case Update(f) => PerformedIs(s.(fields := f), acts[1..]);
        case Become(b) => PerformedIs(s.(behavior := b), acts[1..]);
        case Panic(_) =>
      }
    }
  }

  /** Two pieces of code that agree up to and including their first panic. */
  predicate SameUntilPanic<F(==), B(==)>(x: seq<Act<F, B>>, y: seq<Act<F, B>>) {
    Effective(x) == Effective(y) && FirstPanic(x) == FirstPanic(y)
  }

  lemma DeliveredIgnores<F(!new), B(!new), M(!new)>(a: Actor<F, B, M>, b: Actor<F, B, M>, s: Status<F, B, M>, msg: M)
    requires SameActor(a, b)
    ensures Delivered(a, s, msg) == Delivered(b, s, msg)
  {
    var s0 := s.(log := s.log + [(s.behavior, msg)]);
    PerformedIs(s0, a.handle(s.fields, s.behavior, msg));
    PerformedIs(s0, b.handle(s.fields, s.behavior, msg));
    assert SameUntilPanic(a.handle(s.fields, s.behavior, msg), b.handle(s.fields, s.behavior, msg));
    var (t, o) := Performed(s0, a.handle(s.fields, s.behavior, msg));
    if o.Unwinding? && a.hook.Some? {
      var t' := t.(errors := t.errors + [o.value]);
      PerformedIs(t', a.hook.value(t.fields, o.value));
      PerformedIs(t', b.hook.value(t.fields, o.value));
      assert SameUntilPanic(a.hook.value(t.fields, o.value), b.hook.value(t.fields, o.value));
    }
  }

  ghost predicate SameActor<F(!new), B(!new), M(!new)>(a: Actor<F, B, M>, b: Actor<F, B, M>) {
    && (forall f, v, m :: SameUntilPanic(a.handle(f, v, m), b.handle(f, v, m)))
    && (a.hook.Some? <==> b.hook.Some?)
    && (a.hook.Some? ==> forall f, v :: SameUntilPanic(a.hook.value(f, v), b.hook.value(f, v)))
  }

  /** What stands behind a panic, in the handler or in the hook, has no effect on any run of the loop. */
  lemma {:induction false} ActsBehindPanicsAreIdle<F(!new), B(!new), M(!new)>(a: Actor<F, B, M>, b: Actor<F, B, M>,
                                                                              s: Status<F, B, M>, msgs: seq<M>)
    requires SameActor(a, b)
    ensures DeliveredAll(a, s, msgs) == DeliveredAll(b, s, msgs)
  {
    if msgs != [] {
      var n := |msgs| - 1;
      ActsBehindPanicsAreIdle(a, b, s, msgs[..n]);
      DeliveredIgnores(a, b, DeliveredAll(a, s, msgs[..n]).0, msgs[n]);
    }
  }

  // ----- Which messages are reached -----

  /** What the loop finds when it comes to the message behind msgs. */
  function Before<F, B, M>(a: Actor<F, B, M>, s: Status<F, B, M>, msgs: seq<M>): Status<F, B, M> {
    DeliveredAll(a, s, msgs).0
  }

  function HandlerActs<F, B, M>(a: Actor<F, B, M>, s: Status<F, B, M>, m: M): seq<Act<F, B>> {
    a.handle(s.fields, s.behavior, m)
  }

  /** The acts of the hook call a message sets off, if any: the hook finds the fields as the handler
      left them. */
  function HookActs<F, B, M>(a: Actor<F, B, M>, s: Status<F, B, M>, m: M): seq<Act<F, B>> {
    var acts := HandlerActs(a, s, m);
    if a.hook.None? || FirstPanic(acts).None? then []
    else a.hook.value(LastFields(Effective(acts), s.fields), FirstPanic(acts).value)
  }

  /** The hook is called for the k-th message, and panics itself. */
  predicate HookPanicsAt<F, B, M>(a: Actor<F, B, M>, s: Status<F, B, M>, msgs: seq<M>, k: nat)
    requires k < |msgs|
  {
    FirstPanic(HookActs(a, Before(a, s, msgs[..k]), msgs[k])).Some?
  }

  lemma HookPrefix<F, B, M>(a: Actor<F, B, M>, s: Status<F, B, M>, msgs: seq<M>, k: nat, j: nat)
    requires j < k <= |msgs|
    ensures HookPanicsAt(a, s, msgs[..k], j) == HookPanicsAt(a, s, msgs, j)
  {
    assert msgs[..k][..j] == msgs[..j];
  }

  /** One message in terms of its acts. */
  lemma DeliveredIs<F, B, M>(a: Actor<F, B, M>, s: Status<F, B, M>, m: M)
    ensures var (t, o) := Delivered(a, s, m);
            var acts := Effective(HandlerActs(a, s, m));
            var more := Effective(HookActs(a, s, m));
            && t.behavior == LastBehavior(more, LastBehavior(acts, s.behavior))
            && t.fields == LastFields(more, LastFields(acts, s.fields))
            && t.errors == s.errors + (if a.hook.Some? && FirstPanic(HandlerActs(a, s, m)).Some?
                                       then [FirstPanic(HandlerActs(a, s, m)).value] else [])
            && (o.Unwinding? <==> FirstPanic(HookActs(a, s, m)).Some?)
  {
    var s0 := s.(log := s.log + [(s.behavior, m)]);
    PerformedIs(s0, HandlerActs(a, s, m));
    var (t, o) := Performed(s0, HandlerActs(a, s, m));
    assert s.errors + [] == s.errors;
    if o.Unwinding? && a.hook.Some? {
      PerformedIs(t.(errors := t.errors + [o.value]), a.hook.value(t.fields, o.value));
    }
  }

  lemma {:induction false} NormalExactlyWhen<F, B, M>(a: Actor<F, B, M>, s: Status<F, B, M>, msgs: seq<M>)
    ensures DeliveredAll(a, s, msgs).1.Normal? <==> forall j :: 0 <= j < |msgs| ==> !HookPanicsAt(a, s, msgs, j)
    ensures |DeliveredAll(a, s, msgs).0.log| <= |s.log| + |msgs|
    ensures DeliveredAll(a, s, msgs).1.Normal? ==> |DeliveredAll(a, s, msgs).0.log| == |s.log| + |msgs|
  {
    if msgs != [] {
      var n := |msgs| - 1;
      NormalExactlyWhen(a, s, msgs[..n]);
      forall j | 0 <= j < n
        ensures HookPanicsAt(a, s, msgs[..n], j) == HookPanicsAt(a, s, msgs, j)
      {
        HookPrefix(a, s, msgs, n, j);
      }
      assert HookPanicsAt(a, s, msgs, n) <==> FirstPanic(HookActs(a, Before(a, s, msgs[..n]), msgs[n])).Some?;
      DeliveredIs(a, Before(a, s, msgs[..n]), msgs[n]);
      DeliveredLogs(a, Before(a, s, msgs[..n]), msgs[n]);
    }
  }

  /** The loop gets to the k-th message exactly when no hook call before it panics. A panicking handler
      never keeps it from the next message. */
  lemma {:induction false} ReachedExactlyWhen<F, B, M>(a: Actor<F, B, M>, s: Status<F, B, M>, msgs: seq<M>, k: nat)
    requires k < |msgs|
    ensures |DeliveredAll(a, s, msgs).0.log| > |s.log| + k <==> forall j :: 0 <= j < k ==> !HookPanicsAt(a, s, msgs, j)
  {
    forall j | 0 <= j < k
      ensures HookPanicsAt(a, s, msgs[..k], j) == HookPanicsAt(a, s, msgs, j)
    {
      HookPrefix(a, s, msgs, k, j);
    }
    NormalExactlyWhen(a, s, msgs[..k]);
    if DeliveredAll(a, s, msgs[..k]).1.Unwinding? {
      CrashEnds(a, s, msgs, k);
    } else {
      DeliveredLogs(a, Before(a, s, msgs[..k]), msgs[k]);
      assert msgs[..k + 1][..k] == msgs[..k];
      LogExtends(a, s, msgs, k + 1);
    }
  }

  /** The log of the first k messages is the beginning of the log of all. */
  lemma {:induction false} LogExtends<F, B, M>(a: Actor<F, B, M>, s: Status<F, B, M>, msgs: seq<M>, k: nat)
    requires k <= |msgs|
    ensures Before(a, s, msgs[..k]).log <= Before(a, s, msgs).log
  {
    if k == |msgs| {
      assert msgs[..k] == msgs;
    } else {
      var n := |msgs| - 1;
      assert msgs[..n][..k] == msgs[..k];
      LogExtends(a, s, msgs[..n], k);
      DeliveredLogs(a, Before(a, s, msgs[..n]), msgs[n]);
    }
  }

  lemma NormalBefore<F, B, M>(a: Actor<F, B, M>, s: Status<F, B, M>, msgs: seq<M>, k: nat)
    requires k <= |msgs| && forall j :: 0 <= j < k ==> !HookPanicsAt(a, s, msgs, j)
    ensures DeliveredAll(a, s, msgs[..k]).1.Normal? && |Before(a, s, msgs[..k]).log| == |s.log| + k
  {
    forall j | 0 <= j < k
      ensures !HookPanicsAt(a, s, msgs[..k], j)
    {
      HookPrefix(a, s, msgs, k, j);
    }
    NormalExactlyWhen(a, s, msgs[..k]);
  }

  /** The log's entry for a message the loop gets to. */
  lemma LogAt<F, B, M>(a: Actor<F, B, M>, s: Status<F, B, M>, msgs: seq<M>, k: nat)
    requires k < |msgs| && DeliveredAll(a, s, msgs[..k]).1.Normal? && |Before(a, s, msgs[..k]).log| == |s.log| + k
    ensures var log := Before(a, s, msgs).log;
            |log| > |s.log| + k && log[|s.log| + k] == (Before(a, s, msgs[..k]).behavior, msgs[k])
  {
    assert msgs[..k + 1][..k] == msgs[..k];
    DeliveredLogs(a, Before(a, s, msgs[..k]), msgs[k]);
    LogExtends(a, s, msgs, k + 1);
  }

  // ----- Which behaviour handles a message -----

  /** All acts that took effect while msgs were handled, those of the hook behind those of the handler
      whose panic it was called for. */
  function Trail<F, B, M>(a: Actor<F, B, M>, s: Status<F, B, M>, msgs: seq<M>): seq<Act<F, B>> {
    if msgs == [] then []
    else
      var n := |msgs| - 1;
      var t := Before(a, s, msgs[..n]);
      Trail(a, s, msgs[..n])
      + if DeliveredAll(a, s, msgs[..n]).1.Unwinding? then []
        else Effective(HandlerActs(a, t, msgs[n])) + Effective(HookActs(a, t, msgs[n]))
  }

  lemma {:induction false} LastOfBoth<F, B>(x: seq<Act<F, B>>, y: seq<Act<F, B>>, f: F, b: B)
    ensures LastBehavior(x + y, b) == LastBehavior(y, LastBehavior(x, b))
    ensures LastFields(x + y, f) == LastFields(y, LastFields(x, f))
  {
    if y == [] {
      assert x + y == x;
    } else {
      var n := |y| - 1;
      assert (x + y)[..|x| + n] == x + y[..n];
      LastOfBoth(x, y[..n], f, b);
    }
  }

  /** After any messages the actor has the last fields and the last behaviour that took effect, whether
      a handler or the hook set them. */
  lemma {:induction false} TrailEnds<F, B, M>(a: Actor<F, B, M>, s: Status<F, B, M>, msgs: seq<M>)
    ensures Before(a, s, msgs).behavior == LastBehavior(Trail(a, s, msgs), s.behavior)
    ensures Before(a, s, msgs).fields == LastFields(Trail(a, s, msgs), s.fields)
  {
    if msgs != [] {
      var n := |msgs| - 1;
      TrailEnds(a, s, msgs[..n]);
      var t := Before(a, s, msgs[..n]);
      if DeliveredAll(a, s, msgs[..n]).1.Unwinding? {
        assert Trail(a, s, msgs[..n]) + [] == Trail(a, s, msgs[..n]);
      } else {
        var x, y := Effective(HandlerActs(a, t, msgs[n])), Effective(HookActs(a, t, msgs[n]));
        DeliveredIs(a, t, msgs[n]);
        LastOfBoth(x, y, t.fields, t.behavior);
        LastOfBoth(Trail(a, s, msgs[..n]), x + y, s.fields, s.behavior);
      }
    }
  }

  /** Every message the loop gets to is handled, in order, by the behaviour left by the last Become that
      took effect in the messages before it, be it of a handler, ahead of its panic, or of the hook. */
  lemma HandledByLastBecome<F, B, M>(a: Actor<F, B, M>, s: Status<F, B, M>, msgs: seq<M>, k: nat)
    requires k < |msgs| && forall j :: 0 <= j < k ==> !HookPanicsAt(a, s, msgs, j)
    ensures var log := DeliveredAll(a, s, msgs).0.log;
            && |log| > |s.log| + k
            && log[|s.log| + k] == (LastBehavior(Trail(a, s, msgs[..k]), s.behavior), msgs[k])
  {
    ReachedExactlyWhen(a, s, msgs, k);
    NormalBefore(a, s, msgs, k);
    TrailEnds(a, s, msgs[..k]);
    LogAt(a, s, msgs, k);
  }

  // ----- Error reports -----

  /** The panics of the handlers of the first k messages. */
  function HandlerPanics<F, B, M>(a: Actor<F, B, M>, s: Status<F, B, M>, msgs: seq<M>, k: nat): seq<string>
    requires k <= |msgs|
  {
    if k == 0 then []
    else
      HandlerPanics(a, s, msgs, k - 1)
      + match FirstPanic(HandlerActs(a, Before(a, s, msgs[..k - 1]), msgs[k - 1])) case None => [] case Some(v) => [v]
  }

  /** What the hook hears of message k. */
  lemma ErrorsNext<F, B, M>(a: Actor<F, B, M>, s: Status<F, B, M>, msgs: seq<M>, k: nat)
    requires k < |msgs| && DeliveredAll(a, s, msgs[..k]).1.Normal?
    ensures var t := Before(a, s, msgs[..k]);
            Before(a, s, msgs[..k + 1]).errors
            == t.errors + match FirstPanic(HandlerActs(a, t, msgs[k]))
                          case None => []
                          case Some(v) => if a.hook.Some? then [v] else []
  {
    assert msgs[..k + 1][..k] == msgs[..k];
    DeliveredIs(a, Before(a, s, msgs[..k]), msgs[k]);
  }

  /** As far as the loop gets, the hook hears of exactly the panics of the handlers, in order. */
  lemma {:induction false} ErrorsAreThePanics<F, B, M>(a: Actor<F, B, M>, s: Status<F, B, M>, msgs: seq<M>, k: nat)
    requires k <= |msgs| && forall j :: 0 <= j < k - 1 ==> !HookPanicsAt(a, s, msgs, j)
    ensures Before(a, s, msgs[..k]).errors == s.errors + if a.hook.Some? then HandlerPanics(a, s, msgs, k) else []
  {
    if k > 0 {
      ErrorsAreThePanics(a, s, msgs, k - 1);
      NormalBefore(a, s, msgs, k - 1);
      ErrorsNext(a, s, msgs, k - 1);
    }
  }

  // ----- What a panic can change -----

  /** Without a hook, or with one that does nothing to the actor, panics are contained: the loop never
      ends by one, and actors that differ only in where their handlers give up after the same acts
      handle the same messages with the same behaviours and end with the same fields. */
  lemma {:induction false} PanicsAreContained<F(!new), B(!new), M(!new)>(a: Actor<F, B, M>, b: Actor<F, B, M>,
                                                                         s: Status<F, B, M>, msgs: seq<M>)
    requires forall f, v, m :: Effective(a.handle(f, v, m)) == Effective(b.handle(f, v, m))
    requires Passive(a) && Passive(b)
    ensures var (t, o) := DeliveredAll(a, s, msgs);
            var (u, p) := DeliveredAll(b, s, msgs);
            o == p == Normal && t.log == u.log && t.behavior == u.behavior && t.fields == u.fields
  {
    if msgs != [] {
      var n := |msgs| - 1;
      PanicsAreContained(a, b, s, msgs[..n]);
      PassiveDelivery(a, Before(a, s, msgs[..n]), msgs[n]);
      PassiveDelivery(b, Before(b, s, msgs[..n]), msgs[n]);
    }
  }

  ghost predicate Passive<F(!new), B, M>(a: Actor<F, B, M>) {
    a.hook.Some? ==> forall f, v :: a.hook.value(f, v) == []
  }

  lemma PassiveDelivery<F(!new), B, M>(a: Actor<F, B, M>, s: Status<F, B, M>, m: M)
    requires Passive(a)
    ensures var acts := Effective(a.handle(s.fields, s.behavior, m));
            var (t, o) := Delivered(a, s, m);
            && o == Normal && t.log == s.log + [(s.behavior, m)]
            && t.behavior == LastBehavior(acts, s.behavior) && t.fields == LastFields(acts, s.fields)
  {
    PerformedIs(s.(log := s.log + [(s.behavior, m)]), a.handle(s.fields, s.behavior, m));
  }

  lemma TwoMessages<F, B, M>(a: Actor<F, B, M>, s: Status<F, B, M>, x: M, y: M)
    ensures var (t, o) := Delivered(a, s, x);
            DeliveredAll(a, s, [x, y]) == if o.Unwinding? then (t, o) else Delivered(a, t, y)
  {
    assert [x, y][..1] == [x] && [x][..0] == [];
    assert DeliveredAll(a, s, [x]) == Delivered(a, s, x);
  }

  /** The hook has a Context too: one that calls Become makes a panic change how the next message is
      handled. */
  lemma HookMayBecome()
    ensures var hook: Option<(int, string) -> seq<Act<int, int>>> := Some((f, v) => [Become(2)]);
            var calm := Actor((f: int, b: int, m: int) => [], hook);
            var panicky := Actor((f: int, b: int, m: int) => [Panic("bad")], hook);
            var s := Status(0, 1, [], []);
            && DeliveredAll(calm, s, [7, 8]).0.log == [(1, 7), (1, 8)]
            && DeliveredAll(panicky, s, [7, 8]).0.log == [(1, 7), (2, 8)]
  {
    var hook: Option<(int, string) -> seq<Act<int, int>>> := Some((f, v) => [Become(2)]);
    var calm := Actor((f: int, b: int, m: int) => [], hook);
    var panicky := Actor((f: int, b: int, m: int) => [Panic("bad")], hook);
    var s := Status(0, 1, [], []);
    TwoMessages(calm, s, 7, 8);
    DeliveredLogs(calm, s, 7);
    DeliveredLogs(calm, Delivered(calm, s, 7).0, 8);
    TwoMessages(panicky, s, 7, 8);
    var acts: seq<Act<int, int>> := [Become(2)];
    assert acts[1..] == [];
    assert Performed(s, acts) == (s.(behavior := 2), Normal);
    DeliveredLogs(panicky, s, 7);
    DeliveredLogs(panicky, Delivered(panicky, s, 7).0, 8);
  }

  /** A hook that panics ends the loop: the message behind is not handled. */
  lemma HookMayCrash()
    ensures var hook: Option<(int, string) -> seq<Act<int, int>>> := Some((f, v) => [Panic("worse")]);
            var a := Actor((f: int, b: int, m: int) => [Panic("bad")], hook);
            DeliveredAll(a, Status(0, 1, [], []), [7, 8]) == (Status(0, 1, [(1, 7)], ["bad"]), Unwinding("worse"))
  {
    var hook: Option<(int, string) -> seq<Act<int, int>>> := Some((f, v) => [Panic("worse")]);
    var a := Actor((f: int, b: int, m: int) => [Panic("bad")], hook);
    var s: Status<int, int, int> := Status(0, 1, [], []);
    TwoMessages(a, s, 7, 8);
    assert s.log + [(1, 7)] == [(1, 7)] && s.errors + ["bad"] == ["bad"];
    assert Delivered(a, s, 7) == (Status(0, 1, [(1, 7)], ["bad"]), Unwinding("worse"));
  }
}
