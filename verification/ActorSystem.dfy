/** The registry of running actors: Spawn, Lookup, Stop and Shutdown, whose critical sections are
    atomic steps, while the stop calls they set off run after the lock is released
    (pkg/actor/system.go, pkg/actor/pid.go). */
module ActorSystems {

  type Id = string

  /** A cell, told apart from every other cell by its number. */
  datatype Cell = Cell(id: Id, number: nat)

  /** The registered cells, the cells taken out of the registry whose stop has not been called yet, and
      the cells whose stop has been called, in order. Bookkeeping: all cells ever spawned, a cell's
      number being its place there. */
  datatype State = State(cells: map<Id, Cell>, spawned: seq<Cell>, popped: seq<Cell>, stopped: seq<Cell>)

  const INIT: State := State(map[], [], [], [])

  /** Spawn's critical section: an id in use is refused. */
  function SpawnStep(s: State, id: Id): State {
    if id in s.cells then s
    else
      var cell := Cell(id, |s.spawned|);
      s.(cells := s.cells[id := cell], spawned := s.spawned + [cell])
  }

  /** Stop's critical section: whatever cell is registered under the id is taken out. */
  function StopStep(s: State, id: Id): State {
    if id in s.cells then s.(cells := s.cells - {id}, popped := s.popped + [s.cells[id]]) else s
  }

  /** An order of the registered cells. */
  ghost predicate Lists(cells: map<Id, Cell>, order: seq<Cell>) {
    && (forall c :: c in order <==> c in cells.Values)
    && (forall i, j :: 0 <= i < j < |order| ==> order[i] != order[j])
  }

  datatype Action =
    | Spawn(id: Id)
    | Stop(id: Id)
    | Shutdown(order: seq<Cell>)
    | CallStop(k: nat)

  ghost predicate Next(s: State, a: Action, s': State) {
    match a
    case Spawn(id) => s' == SpawnStep(s, id)
    case Stop(id) => s' == StopStep(s, id)
    case Shutdown(order) => Lists(s.cells, order) && s' == s.(cells := map[], popped := s.popped + order)
    case CallStop(k) =>
      && k < |s.popped|
      && s' == s.(popped := s.popped[..k] + s.popped[k + 1..], stopped := s.stopped + [s.popped[k]])
  }

  ghost predicate IsRun(states: seq<State>, actions: seq<Action>) {
    && |states| == |actions| + 1
    && states[0] == INIT
    && forall i :: 0 <= i < |actions| ==> StepAt(states, actions, i)
  }

  ghost predicate StepAt(states: seq<State>, actions: seq<Action>, i: nat)
    requires i < |actions| && |states| == |actions| + 1
  {
    Next(states[i], actions[i], states[i + 1])
  }

  /** The same critical sections as methods of the system. */
  class ActorSystem {
    var cells: map<Id, Cell>
    ghost var spawned: seq<Cell>
    var next: nat
    var stopCalls: seq<Cell>

    constructor ()
      ensures View() == INIT && next == 0
    {
      cells := map[];
      spawned := [];
      next := 0;
      stopCalls := [];
    }

    /** The state between calls: every stop a call sets off is over when the call returns. */
    ghost function View(): State
      reads this
    {
      State(cells, spawned, [], stopCalls)
    }

    method SpawnCell(id: Id) returns (ok: bool, pid: Cell)
      requires next == |spawned|
      modifies this
      ensures next == |spawned|
      ensures View() == SpawnStep(old(View()), id)
      ensures ok == (id !in old(cells))
      ensures ok ==> id in cells && cells[id] == pid
    {
      if id in cells {
        return false, cells[id];
      }
      pid := Cell(id, next);
      next := next + 1;
      spawned := spawned + [pid];
      cells := cells[id := pid];
      ok := true;
    }

    method Lookup(id: Id) returns (ok: bool, pid: Cell)
      ensures ok == (id in cells)
      ensures ok ==> pid == cells[id]
    {
      if id in cells {
        return true, cells[id];
      }
      return false, Cell(id, 0);
    }

    /** Stop looks the id of the pid up again; the cell it finds is the one it stops. */
    method StopPid(pid: Cell)
      modifies this`cells, this`stopCalls
      ensures View() == StopStep(old(View()), pid.id).(popped := [], stopped := stopCalls)
      ensures stopCalls == old(stopCalls) + StopStep(old(View()), pid.id).popped
    {
      if pid.id in cells {
        var cell := cells[pid.id];
        cells := cells - {pid.id};
        stopCalls := stopCalls + [cell];
      }
    }

    method ShutdownAll()
      modifies this`cells, this`stopCalls
      ensures cells == map[]
      ensures exists order :: Lists(old(cells), order) && stopCalls == old(stopCalls) + order
    {
      var todo := cells.Values;
      var order: seq<Cell> := [];
      while todo != {}
        invariant todo <= old(cells).Values
        invariant forall c :: c in order <==> c in old(cells).Values && c !in todo
        invariant forall i, j :: 0 <= i < j < |order| ==> order[i] != order[j]
        invariant cells == old(cells) && stopCalls == old(stopCalls)
        decreases todo
      {
        var cell :| cell in todo;
        order := order + [cell];
        todo := todo - {cell};
      }
      cells := map[];
      ghost var before := stopCalls;
      for i := 0 to |order|
        invariant stopCalls == before + order[..i]
        invariant cells == map[]
      {
        assert order[..i + 1] == order[..i] + [order[i]];
        stopCalls := stopCalls + [order[i]];
      }
      assert order[..|order|] == order;
    }
  }

  // ----- Every cell is in one place -----

  function Times(cells: seq<Cell>, c: Cell): nat {
    multiset(cells)[c]
  }

  function Registered(s: State, c: Cell): nat {
    if c.id in s.cells && s.cells[c.id] == c then 1 else 0
  }

  /** How often a cell is registered, about to be stopped, or stopped. */
  function Places(s: State, c: Cell): nat {
    Registered(s, c) + Times(s.popped, c) + Times(s.stopped, c)
  }

  /** Every cell ever spawned, and no other, is in exactly one place. */
  ghost predicate Inv(s: State) {
    && (forall id :: id in s.cells ==> s.cells[id].id == id)
    && (forall i :: 0 <= i < |s.spawned| ==> s.spawned[i].number == i)
    && (forall c :: Places(s, c) == if c in s.spawned then 1 else 0)
  }

  lemma SpawnKeepsInv(s: State, id: Id)
    requires Inv(s)
    ensures Inv(SpawnStep(s, id))
  {
    if id !in s.cells {
      var s' := SpawnStep(s, id);
      var cell := Cell(id, |s.spawned|);
      assert cell !in s.spawned;
      assert Places(s, cell) == 0;
      forall c
        ensures Places(s', c) == Places(s, c) + if c == cell then 1 else 0
      {
      }
      forall c
        ensures Places(s', c) == if c in s'.spawned then 1 else 0
      {
        assert Places(s, c) == if c in s.spawned then 1 else 0;
      }
    }
  }

  lemma StopKeepsPlaces(s: State, id: Id, c: Cell)
    requires Inv(s)
    ensures Places(StopStep(s, id), c) == Places(s, c)
  {
    if id in s.cells {
      assert multiset(s.popped + [s.cells[id]])[c] == multiset(s.popped)[c] + multiset([s.cells[id]])[c];
    }
  }

  lemma {:induction false} DistinctOnce(order: seq<Cell>, c: Cell)
    requires forall i, j :: 0 <= i < j < |order| ==> order[i] != order[j]
    ensures Times(order, c) == if c in order then 1 else 0
  {
    if order != [] {
      var n := |order| - 1;
      DistinctOnce(order[..n], c);
      assert order == order[..n] + [order[n]];
    }
  }

  /** Shutdown takes out exactly the cells registered at its critical section, each once. */
  lemma ShutdownKeepsPlaces(s: State, order: seq<Cell>, c: Cell)
    requires Inv(s) && Lists(s.cells, order)
    ensures Times(s.popped + order, c) == Times(s.popped, c) + Registered(s, c)
    ensures Places(s.(cells := map[], popped := s.popped + order), c) == Places(s, c)
  {
    DistinctOnce(order, c);
    assert c in s.cells.Values <==> Registered(s, c) == 1;
  }

  lemma CallStopKeepsPlaces(s: State, k: nat, s': State, c: Cell)
    requires Next(s, CallStop(k), s')
    ensures Places(s', c) == Places(s, c)
  {
    assert s.popped == s.popped[..k] + [s.popped[k]] + s.popped[k + 1..];
  }

  lemma StepKeepsInv(s: State, a: Action, s': State)
    requires Inv(s) && Next(s, a, s')
    ensures Inv(s')
  {
    match a {
      case Spawn(id) => SpawnKeepsInv(s, id);
      case Stop(id) =>
        forall c
          ensures Places(s', c) == Places(s, c)
        {
          StopKeepsPlaces(s, id, c);
        }
      case Shutdown(order) =>
        forall c
          ensures Places(s', c) == Places(s, c)
        {
          ShutdownKeepsPlaces(s, order, c);
        }
      case CallStop(k) =>
        forall c
          ensures Places(s', c) == Places(s, c)
        {
          CallStopKeepsPlaces(s, k, s', c);
        }
    }
  }

  lemma {:induction false} RunKeepsInv(states: seq<State>, actions: seq<Action>, i: nat)
    requires IsRun(states, actions) && i < |states|
    ensures Inv(states[i])
  {
    if i > 0 {
      RunKeepsInv(states, actions, i - 1);
      assert StepAt(states, actions, i - 1);
      StepKeepsInv(states[i - 1], actions[i - 1], states[i]);
    }
  }

  /** In every interleaving: every cell ever spawned is, exactly once, registered, about to be stopped
      or stopped; so its stop is called at most once, and never while it is registered. */
  lemma StoppedAtMostOnce(states: seq<State>, actions: seq<Action>, i: nat, c: Cell)
    requires IsRun(states, actions) && i < |states| && c in states[i].spawned
    ensures Registered(states[i], c) + Times(states[i].popped, c) + Times(states[i].stopped, c) == 1
  {
    RunKeepsInv(states, actions, i);
    assert Places(states[i], c) == 1;
  }

  /** When no cell is registered any more and all stop calls are over, every cell ever spawned has been
      stopped exactly once. */
  lemma AllStopped(states: seq<State>, actions: seq<Action>, c: Cell)
    requires IsRun(states, actions) && c in states[|actions|].spawned
    requires states[|actions|].cells == map[] && states[|actions|].popped == []
    ensures Times(states[|actions|].stopped, c) == 1
  {
    StoppedAtMostOnce(states, actions, |actions|, c);
  }

  // ----- Whom Stop stops -----

  /** Whether a step takes the cell registered under an id out of the registry. */
  predicate Removes(a: Action, id: Id) {
    a == Stop(id) || a.Shutdown?
  }

  /** No step from the i-th up to the j-th touches the registration of an id. */
  ghost predicate Untouched(actions: seq<Action>, id: Id, i: nat, j: nat)
    requires j <= |actions|
  {
    forall k :: i <= k < j ==> !Removes(actions[k], id)
  }

  /** Step j spawns the cell pid. */
  ghost predicate Spawns(states: seq<State>, actions: seq<Action>, j: nat, pid: Cell)
    requires j < |actions| && |states| == |actions| + 1
  {
    && actions[j] == Spawn(pid.id)
    && pid.id !in states[j].cells && pid == Cell(pid.id, |states[j].spawned|)
  }

  /** A cell is registered exactly as long as nobody has stopped its id or shut the system down. */
  lemma {:induction false} RegisteredExactlyWhen(states: seq<State>, actions: seq<Action>, j: nat, i: nat, pid: Cell)
    requires IsRun(states, actions) && j < i < |states| && Spawns(states, actions, j, pid)
    ensures pid in states[i].spawned
    ensures Registered(states[i], pid) == 1 <==> Untouched(actions, pid.id, j + 1, i)
  {
    assert StepAt(states, actions, i - 1);
    if j < i - 1 {
      RegisteredExactlyWhen(states, actions, j, i - 1, pid);
      RunKeepsInv(states, actions, i - 1);
      StillRegistered(states[i - 1], actions[i - 1], states[i], pid);
    }
  }

  lemma StillRegistered(s: State, a: Action, s': State, pid: Cell)
    requires Inv(s) && Next(s, a, s') && pid in s.spawned
    ensures pid in s'.spawned
    ensures Registered(s', pid) == 1 <==> Registered(s, pid) == 1 && !Removes(a, pid.id)
  {
    if a.Spawn? && pid.id == a.id && pid.id !in s.cells {
      var k :| 0 <= k < |s.spawned| && s.spawned[k] == pid;
      assert pid.number == k != |s.spawned|;
    }
  }

  /** An actor is spawned in step h and stays registered up to the i-th state. */
  ghost predicate InUse(actions: seq<Action>, id: Id, h: nat, i: nat)
    requires i <= |actions|
  {
    h < i && actions[h] == Spawn(id) && Untouched(actions, id, h + 1, i)
  }

  /** An id is in use exactly when it was asked for after it was last taken out. */
  lemma {:induction false} IdInUseExactlyWhen(states: seq<State>, actions: seq<Action>, i: nat, id: Id)
    requires IsRun(states, actions) && i < |states|
    ensures id in states[i].cells <==> exists h :: InUse(actions, id, h, i)
  {
    if i > 0 {
      var n: nat := i - 1;
      IdInUseExactlyWhen(states, actions, n, id);
      assert StepAt(states, actions, n);
      if actions[n] == Spawn(id) {
        assert InUse(actions, id, n, i);
      } else if Removes(actions[n], id) {
        forall h
          ensures !InUse(actions, id, h, i)
        {
          assert Removes(actions[n], id);
        }
      } else {
        forall h
          ensures InUse(actions, id, h, n) <==> InUse(actions, id, h, i)
        {
        }
      }
    }
  }

  /** Stop finds a cell by the id of the pid it is given. The i-th step stops the pid's own actor exactly
      when its id has been neither stopped nor shut down since the actor was spawned, another actor
      exactly when it has and the id was registered again after that, and nobody otherwise; the call then
      returns at once. */
  lemma WhomStopStops(states: seq<State>, actions: seq<Action>, j: nat, i: nat, pid: Cell)
    requires IsRun(states, actions) && j < i < |actions| && Spawns(states, actions, j, pid)
    requires actions[i] == Stop(pid.id)
    ensures var before, after := states[i].popped, states[i + 1].popped;
            var own := Untouched(actions, pid.id, j + 1, i);
            var reused := exists h :: InUse(actions, pid.id, h, i);
            && (after == before + [pid] <==> own)
            && ((exists other :: other != pid && after == before + [other]) <==> !own && reused)
            && (after == before <==> !reused)
  {
    assert StepAt(states, actions, i);
    RegisteredExactlyWhen(states, actions, j, i, pid);
    IdInUseExactlyWhen(states, actions, i, pid.id);
    TakenOut(states[i], pid.id);
    if Untouched(actions, pid.id, j + 1, i) {
      assert InUse(actions, pid.id, j, i);
    }
  }

  lemma TakenOut(s: State, id: Id)
    ensures var after := StopStep(s, id).popped;
            && (after == s.popped <==> id !in s.cells)
            && (forall c :: after == s.popped + [c] <==> id in s.cells && s.cells[id] == c)
  {
    var after := StopStep(s, id).popped;
    if id in s.cells {
      assert after[|s.popped|] == s.cells[id];
    } else {
      assert |after| == |s.popped|;
    }
  }

  /** A stale pid stops an actor it does not refer to. */
  lemma StalePidStopsAnother() returns (states: seq<State>, actions: seq<Action>)
    ensures IsRun(states, actions)
    ensures actions == [Spawn("a"), Stop("a"), CallStop(0), Spawn("a"), Stop("a"), CallStop(0)]
    ensures Spawns(states, actions, 0, Cell("a", 0)) && Spawns(states, actions, 3, Cell("a", 1))
    ensures states[|actions|].stopped == [Cell("a", 0), Cell("a", 1)]
  {
    var s1 := SpawnStep(INIT, "a");
    var s2 := StopStep(s1, "a");
    var s3 := s2.(popped := [], stopped := [Cell("a", 0)]);
    var s4 := SpawnStep(s3, "a");
    var s5 := StopStep(s4, "a");
    var s6 := s5.(popped := [], stopped := [Cell("a", 0), Cell("a", 1)]);
    assert s2.popped == [Cell("a", 0)];
    FirstCall(s2, Cell("a", 0), s3);
    assert s5.popped == [Cell("a", 1)];
    FirstCall(s5, Cell("a", 1), s6);
    states := [INIT, s1, s2, s3, s4, s5, s6];
    actions := [Spawn("a"), Stop("a"), CallStop(0), Spawn("a"), Stop("a"), CallStop(0)];
  }

  lemma FirstCall(s: State, c: Cell, s': State)
    requires s.popped == [c] && s' == s.(popped := [], stopped := s.stopped + [c])
    ensures Next(s, CallStop(0), s')
  {
    assert s.popped[..0] + s.popped[1..] == [];
  }

  /** Stop is documented to wait for the actor to exit. A second Stop of the same pid does not: it finds
      nothing to stop and returns while the first has not even called the cell's stop. */
  lemma SecondStopDoesNotWait() returns (states: seq<State>, actions: seq<Action>)
    ensures IsRun(states, actions) && actions == [Spawn("a"), Stop("a"), Stop("a")]
    ensures Spawns(states, actions, 0, Cell("a", 0))
    ensures states[3] == states[2] && states[3].popped == [Cell("a", 0)] && states[3].stopped == []
  {
    var s1 := SpawnStep(INIT, "a");
    var s2 := StopStep(s1, "a");
    assert s2.popped == [Cell("a", 0)];
    states := [INIT, s1, s2, StopStep(s2, "a")];
    actions := [Spawn("a"), Stop("a"), Stop("a")];
  }
}
