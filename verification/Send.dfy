/** Sending with retries (internal/fl/send.go and tellWithRetry in
    internal/cluster/provider_client.go). One attempt reaches the peer; or fails without reaching it;
    or, over the network, is reported as failed and reaches it all the same. */
module Send {

  const ATTEMPTS: nat := 10

  datatype Attempt = Accepted | Rejected | AcceptedButFailed

  /** How many copies of a message arrive when it is sent with the given number of tries. */
  function Copies(outcome: nat -> Attempt, from: nat, tries: nat): nat
    decreases tries
  {
    if tries == 0 then 0
    else match outcome(from)
      case Accepted => 1
      case Rejected => Copies(outcome, from + 1, tries - 1)
      case AcceptedButFailed => 1 + Copies(outcome, from + 1, tries - 1)
  }

  predicate Succeeds(outcome: nat -> Attempt, from: nat, tries: nat)
    decreases tries
  {
    tries > 0 && (outcome(from).Accepted? || Succeeds(outcome, from + 1, tries - 1))
  }

  /** The attempts made: up to the first that succeeds. */
  function Made(outcome: nat -> Attempt, from: nat, tries: nat): nat
    decreases tries
  {
    if tries == 0 then 0
    else if outcome(from).Accepted? then 1
    else 1 + Made(outcome, from + 1, tries - 1)
  }

  function Repeat<M>(msg: M, n: nat): seq<M> {
    seq(n, _ => msg)
  }

  /** A reference to a peer, with the outcome of every call there will ever be. */
  class Link<M> {
    const outcome: nat -> Attempt
    var calls: nat
    var inbox: seq<M>

    constructor (outcome: nat -> Attempt)
      ensures this.outcome == outcome && calls == 0 && inbox == []
    {
      this.outcome := outcome;
      calls := 0;
      inbox := [];
    }

    method Tell(msg: M) returns (ok: bool)
      modifies this
      ensures calls == old(calls) + 1
      ensures ok == outcome(old(calls)).Accepted?
      ensures inbox == if outcome(old(calls)).Rejected? then old(inbox) else old(inbox) + [msg]
    {
      var o := outcome(calls);
      calls := calls + 1;
      if !o.Rejected? {
        inbox := inbox + [msg];
      }
      return o.Accepted?;
    }

    method SendWithRetry(msg: M) returns (ok: bool)
      modifies this
      ensures ok == Succeeds(outcome, old(calls), ATTEMPTS)
      ensures calls == old(calls) + Made(outcome, old(calls), ATTEMPTS)
      ensures inbox == old(inbox) + Repeat(msg, Copies(outcome, old(calls), ATTEMPTS))
    {
      ok := Retry(msg, ATTEMPTS);
    }

    method Retry(msg: M, attempts: nat) returns (ok: bool)
      modifies this
      ensures ok == Succeeds(outcome, old(calls), attempts)
      ensures calls == old(calls) + Made(outcome, old(calls), attempts)
      ensures inbox == old(inbox) + Repeat(msg, Copies(outcome, old(calls), attempts))
    {
      ghost var first, copies := calls, 0;
      ok := false;
      for i := 0 to attempts
        invariant calls == first + i && !ok
        invariant Succeeds(outcome, first, attempts) == Succeeds(outcome, first + i, attempts - i)
        invariant Made(outcome, first, attempts) == i + Made(outcome, first + i, attempts - i)
        invariant Copies(outcome, first, attempts) == copies + Copies(outcome, first + i, attempts - i)
        invariant inbox == old(inbox) + Repeat(msg, copies)
      {
        RepeatNext(msg, copies);
        assert old(inbox) + Repeat(msg, copies) + [msg] == old(inbox) + (Repeat(msg, copies) + [msg]);
        copies := copies + if outcome(calls).Rejected? then 0 else 1;
        ok := Tell(msg);
        if ok {
          return;
        }
      }
    }
  }

  lemma RepeatNext<M>(msg: M, n: nat)
    ensures Repeat(msg, n) + [msg] == Repeat(msg, n + 1)
    ensures Repeat(msg, 0) == []
  {
  }

  function Ambiguous(outcome: nat -> Attempt, from: nat, n: nat): nat
    decreases n
  {
    if n == 0 then 0
    else (if outcome(from).AcceptedButFailed? then 1 else 0) + Ambiguous(outcome, from + 1, n - 1)
  }

  /** One copy for success and one for every attempt that failed only for the sender. */
  lemma {:induction false} CopiesAre(outcome: nat -> Attempt, from: nat, tries: nat)
    ensures Made(outcome, from, tries) <= tries
    ensures Copies(outcome, from, tries)
            == (if Succeeds(outcome, from, tries) then 1 else 0) + Ambiguous(outcome, from, Made(outcome, from, tries))
    decreases tries
  {
    if tries > 0 && !outcome(from).Accepted? {
      CopiesAre(outcome, from + 1, tries - 1);
    }
  }

  /** In one process an attempt is never ambiguous: the message is delivered once if the send
      succeeds and not at all if it fails. */
  lemma LocalSendIsAtMostOnce(outcome: nat -> Attempt, from: nat, tries: nat)
    requires forall i: nat :: !outcome(i).AcceptedButFailed?
    ensures Copies(outcome, from, tries) == if Succeeds(outcome, from, tries) then 1 else 0
  {
    CopiesAre(outcome, from, tries);
    NotAmbiguous(outcome, from, Made(outcome, from, tries));
  }

  lemma {:induction false} NotAmbiguous(outcome: nat -> Attempt, from: nat, n: nat)
    requires forall i: nat :: !outcome(i).AcceptedButFailed?
    ensures Ambiguous(outcome, from, n) == 0
    decreases n
  {
    if n > 0 {
      NotAmbiguous(outcome, from + 1, n - 1);
    }
  }

  /** Attempt n is the first to succeed of those from the given one on. */
  ghost predicate FirstSuccess(outcome: nat -> Attempt, from: nat, n: nat) {
    from <= n && outcome(n).Accepted? && forall j: nat :: from <= j < n ==> !outcome(j).Accepted?
  }

  /** Attempts stop at the first success, or after the given number. */
  lemma {:induction false} StopsAtFirstSuccess(outcome: nat -> Attempt, from: nat, tries: nat)
    ensures Succeeds(outcome, from, tries) <==> exists n: nat :: n < from + tries && FirstSuccess(outcome, from, n)
    ensures forall n: nat :: n < from + tries && FirstSuccess(outcome, from, n) ==> Made(outcome, from, tries) == n - from + 1
    ensures !Succeeds(outcome, from, tries) ==> Made(outcome, from, tries) == tries
    decreases tries
  {
    if tries > 0 {
      if outcome(from).Accepted? {
        assert FirstSuccess(outcome, from, from);
      } else {
        var next := from + 1;
        StopsAtFirstSuccess(outcome, next, tries - 1);
        forall n: nat
          ensures FirstSuccess(outcome, from, n) <==> FirstSuccess(outcome, next, n)
        {
        }
      }
    }
  }

  /** Sending with retries makes ten attempts at most, and gives up after the tenth. */
  lemma TenAttempts(outcome: nat -> Attempt, from: nat)
    ensures Succeeds(outcome, from, ATTEMPTS) <==> exists n: nat :: n < from + 10 && FirstSuccess(outcome, from, n)
    ensures !Succeeds(outcome, from, ATTEMPTS) ==> Made(outcome, from, ATTEMPTS) == 10
  {
    AnyNumber(outcome, from, ATTEMPTS, 10);
  }

  lemma AnyNumber(outcome: nat -> Attempt, from: nat, tries: nat, k: nat)
    requires tries == k
    ensures Succeeds(outcome, from, tries) <==> exists n: nat :: n < from + k && FirstSuccess(outcome, from, n)
    ensures !Succeeds(outcome, from, tries) ==> Made(outcome, from, tries) == k
  {
    StopsAtFirstSuccess(outcome, from, tries);
  }
}
