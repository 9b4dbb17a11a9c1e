/** Sync runs whose steps call run-once `host` tasks: barrier, permits and cells together. */
module SyncHostTasks {
  import opened Totals
  import Coord = HostCoordinator
  import Sync = SyncRun

  /*
   A host running a step may wait for a cell another host is filling, and holds its permit
   meanwhile. It calls at most `most` host tasks in one step. The coordinator may come from
   earlier batches, with cells filled already.
   */

  datatype State = State(sync: Sync.Sys, coord: Coord.State, calls: seq<nat>)

  /** One host moves on in the run, or on its way through a host task. */
  datatype Event = Moves(move: Sync.Event) | Shares(share: Coord.Event)

  ghost predicate Fits(s: State) {
    |s.coord.callers| == |s.calls| == |s.sync.hosts|
  }

  ghost predicate Enabled(s: State, e: Event) {
    && Fits(s)
    && match e
       case Moves(m) => Sync.Enabled(s.sync, m) && s.coord.callers[m.host].Idle?
       case Shares(c) =>
         Coord.Enabled(s.coord, c) && s.sync.hosts[c.c].phase.Running? && (c.Calls? ==> s.calls[c.c] > 0)
  }

  ghost function After(s: State, e: Event, most: nat): State
    requires Enabled(s, e)
  {
    match e
    case Moves(m) =>
      s.(sync := Sync.After(s.sync, m), calls := if m.Acquire? then s.calls[m.host := most] else s.calls)
    case Shares(c) =>
      s.(coord := Coord.After(s.coord, c), calls := if c.Calls? then s.calls[c.c := s.calls[c.c] - 1] else s.calls)
  }

  ghost predicate Inv(s: State, permits: nat, most: nat) {
    && Fits(s) && Sync.SysInv(s.sync, permits) && Coord.Inv(s.coord)
    && (forall i :: 0 <= i < |s.calls| ==> s.calls[i] <= most)
    && (forall i :: 0 <= i < |s.calls| && !s.coord.callers[i].Idle? ==> s.sync.hosts[i].phase.Running?)
  }

  /** A coordinator no host of this batch is calling yet. */
  ghost predicate Ready(coord: Coord.State, hosts: nat) {
    Coord.Inv(coord) && |coord.callers| == hosts && forall i :: 0 <= i < hosts ==> coord.callers[i].Idle?
  }

  ghost function Init(steps: nat, hosts: nat, permits: nat, coord: Coord.State): State {
    State(Sync.Init(steps, hosts, permits), coord, seq(hosts, _ => 0))
  }

  ghost predicate Run(steps: nat, hosts: nat, permits: nat, most: nat, coord: Coord.State, states: seq<State>, events: seq<Event>) {
    && Ready(coord, hosts)
    && |states| == |events| + 1
    && states[0] == Init(steps, hosts, permits, coord)
    && forall k :: 0 <= k < |events| ==>
         Enabled(states[k], events[k]) && states[k + 1] == After(states[k], events[k], most)
  }

  lemma InitInv(steps: nat, hosts: nat, permits: nat, most: nat, coord: Coord.State)
    requires Ready(coord, hosts)
    ensures Inv(Init(steps, hosts, permits, coord), permits, most)
  {
    Sync.InitInv(steps, hosts, permits);
  }

  lemma EventKeepsInv(s: State, permits: nat, most: nat, e: Event)
    requires Inv(s, permits, most) && Enabled(s, e)
    ensures Inv(After(s, e, most), permits, most)
  {
    match e
    case Moves(m) =>
      Sync.EventKeepsInv(s.sync, permits, m);
      RunnersStay(s.sync, m);
    case Shares(c) =>
      Coord.EventKeepsInv(s.coord, c);
      OthersCallOn(s.coord, c);
  }

  lemma OthersCallOn(s: Coord.State, c: Coord.Event)
    requires Coord.Enabled(s, c)
    ensures |Coord.After(s, c).callers| == |s.callers|
    ensures forall i :: 0 <= i < |s.callers| && i != c.c ==> Coord.After(s, c).callers[i] == s.callers[i]
  {
  }

  /** A host running a step goes on with it whatever the others do. */
  lemma RunnersStay(s: Sync.Sys, m: Sync.Event)
    requires Sync.Enabled(s, m)
    ensures |Sync.After(s, m).hosts| == |s.hosts|
    ensures forall i :: 0 <= i < |s.hosts| && i != m.host && s.hosts[i].phase.Running? ==> Sync.After(s, m).hosts[i] == s.hosts[i]
  {
    Sync.OnlyOneMoves(s, m);
  }

  lemma {:induction false} RunsKeepInv(
    steps: nat, hosts: nat, permits: nat, most: nat, coord: Coord.State, states: seq<State>, events: seq<Event>, k: nat)
    requires Run(steps, hosts, permits, most, coord, states, events) && k < |states|
    ensures Inv(states[k], permits, most)
  {
    if k == 0 {
      InitInv(steps, hosts, permits, most, coord);
    } else {
      RunsKeepInv(steps, hosts, permits, most, coord, states, events, k - 1);
      assert Enabled(states[k - 1], events[k - 1]);
      EventKeepsInv(states[k - 1], permits, most, events[k - 1]);
    }
  }

  /** A move of the run in which some host fails. */
  predicate IsFailure(e: Event) {
    e.Moves? && e.move.Fails?
  }

  /** No deadlock of the two together: whoever waits for a cell, holding a permit, waits for a
      host that can go on; and while some host is not done some host can move without failing. */
  lemma SomeHostCanMove(s: State, permits: nat, most: nat) returns (e: Event)
    requires Inv(s, permits, most) && permits >= 1 && !Sync.Finished(s.sync)
    ensures Enabled(s, e) && !IsFailure(e)
  {
    var m := Sync.SomeHostCanMove(s.sync, permits);
    if s.coord.callers[m.host].Idle? {
      e := Moves(m);
    } else {
      e := CallerCanMove(s, permits, most, m.host);
    }
  }

  lemma CallerCanMove(s: State, permits: nat, most: nat, i: nat) returns (e: Event)
    requires Inv(s, permits, most) && i < |s.calls| && !s.coord.callers[i].Idle?
    ensures Enabled(s, e) && !IsFailure(e)
  {
    var outcome := Coord.Panicked("");
    var caller := s.coord.callers[i];
    if caller.Running? {
      e := Shares(Coord.Ends(i, outcome));
    } else {
      match s.coord.cells[caller.key]
      case Empty => e := Shares(Coord.Begins(i));
      case Full(_) => e := Shares(Coord.Returns(i));
      case Busy =>
        var d :| 0 <= d < |s.coord.callers| && s.coord.callers[d] == Coord.Running(caller.key);
        e := Shares(Coord.Ends(d, outcome));
    }
  }

  // ---- It ends ----

  /** What a host still has to do in the calls of its step. */
  datatype Load = Load(caller: Coord.Caller, calls: nat)

  ghost function Rest(load: Load): nat {
    3 * load.calls + match load.caller case Idle => 0 case Holding(_) => 2 case Running(_) => 1
  }

  ghost function Loads(s: State): seq<Load>
    requires Fits(s)
  {
    seq(|s.calls|, i requires 0 <= i < |s.calls| => Load(s.coord.callers[i], s.calls[i]))
  }

  ghost function Measure(s: State, most: nat): nat
    requires Fits(s)
  {
    (3 * most + 1) * Sync.Measure(s.sync) + Total(Loads(s), Rest)
  }

  lemma {:induction false} LessTimes(k: nat, a: nat, b: nat)
    requires a < b
    ensures k * a + k <= k * b
  {
    if a + 1 < b {
      LessTimes(k, a, b - 1);
    }
    assert k * b == k * (b - 1) + k;
  }

  lemma MoveDecreases(s: State, permits: nat, most: nat, m: Sync.Event)
    requires Inv(s, permits, most) && Enabled(s, Moves(m))
    ensures Fits(After(s, Moves(m), most)) && Measure(After(s, Moves(m), most), most) < Measure(s, most)
  {
    var t := After(s, Moves(m), most);
    RunnersStay(s.sync, m);
    Sync.EventDecreases(s.sync, permits, m);
    LessTimes(3 * most + 1, Sync.Measure(t.sync), Sync.Measure(s.sync));
    assert Loads(t) == Loads(s)[m.host := Loads(t)[m.host]];
    TotalUpdate(Loads(s), m.host, Loads(t)[m.host], Rest);
  }

  lemma ShareDecreases(s: State, permits: nat, most: nat, c: Coord.Event)
    requires Inv(s, permits, most) && Enabled(s, Shares(c))
    ensures Fits(After(s, Shares(c), most)) && Measure(After(s, Shares(c), most), most) < Measure(s, most)
  {
    var t := After(s, Shares(c), most);
    OthersCallOn(s.coord, c);
    assert Loads(t) == Loads(s)[c.c := Loads(t)[c.c]];
    TotalUpdate(Loads(s), c.c, Loads(t)[c.c], Rest);
  }

  ghost function Bound(steps: nat, hosts: nat, most: nat): nat {
    (3 * most + 1) * (hosts * (9 * steps + 3))
  }

  lemma {:induction false} RunsAreBounded(
    steps: nat, hosts: nat, permits: nat, most: nat, coord: Coord.State, states: seq<State>, events: seq<Event>, k: nat)
    requires Run(steps, hosts, permits, most, coord, states, events) && k < |states|
    ensures Fits(states[k]) && k + Measure(states[k], most) <= Bound(steps, hosts, most)
  {
    if k == 0 {
      TotalConstant(states[0].sync.hosts, Sync.Rank(steps), 9 * steps + 3);
      TotalZero(Loads(states[0]), Rest);
    } else {
      RunsAreBounded(steps, hosts, permits, most, coord, states, events, k - 1);
      RunsKeepInv(steps, hosts, permits, most, coord, states, events, k - 1);
      assert Enabled(states[k - 1], events[k - 1]);
      match events[k - 1]
      case Moves(m) => MoveDecreases(states[k - 1], permits, most, m);
      case Shares(c) => ShareDecreases(states[k - 1], permits, most, c);
    }
  }

  /** A sync run with host tasks always ends: no run is longer than a bound fixed by the hosts,
      the steps and the calls in one; one that nothing but a failure can extend has every host
      done; and at every point no host task has run twice. */
  lemma SyncRunWithHostTasksEnds(
    steps: nat, hosts: nat, permits: nat, most: nat, coord: Coord.State, states: seq<State>, events: seq<Event>)
    requires permits >= 1 && Run(steps, hosts, permits, most, coord, states, events)
    ensures |events| <= Bound(steps, hosts, most)
    ensures (forall e: Event :: Enabled(states[|events|], e) ==> IsFailure(e)) ==> Sync.Finished(states[|events|].sync)
    ensures forall key :: multiset(states[|events|].coord.ran)[key] <= 1
  {
    var end := states[|events|];
    RunsAreBounded(steps, hosts, permits, most, coord, states, events, |events|);
    RunsKeepInv(steps, hosts, permits, most, coord, states, events, |events|);
    if !Sync.Finished(end.sync) {
      var e := SomeHostCanMove(end, permits, most);
      assert Enabled(end, e);
    }
  }
}
