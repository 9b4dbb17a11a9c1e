/**
 `host` tasks run once for the whole run: one cell a task, filled by the first runner to get
 there. Under any interleaving of callers a task's closure runs at most once, a panic counting
 as its result, and every caller sees the same result.
 */
module HostCoordinator {
  import opened TaskKeys
  import opened Wrappers

  // ---- One caller at a time ----

  datatype HostOutput = HostOutput(stdout: string, stderr: string, exitCode: int)
  type Stored = Result<HostOutput, string>

  /** What running a task's closure ends in. */
  datatype Outcome = Returned(result: Stored) | Panicked(message: string)

  function Store(outcome: Outcome): Stored {
    match outcome
    case Returned(result) => result
    case Panicked(message) => Err("host task panicked: " + message)
  }

  /** A cell that is set at most once. */
  class Cell {
    var stored: Option<Stored>

    constructor ()
      ensures stored == None
    {
      stored := None;
    }
  }

  class HostCoordinator {
    var cells: map<TaskKey, Cell>
    /** How often each key's closure ran. */
    ghost var runs: map<TaskKey, nat>

    constructor ()
      ensures Valid() && cells == map[] && runs == map[]
    {
      cells, runs := map[], map[];
    }

    ghost predicate Valid()
      reads this, cells.Values
    {
      && runs.Keys == cells.Keys
      && (forall k :: k in cells ==> runs[k] == if cells[k].stored.Some? then 1 else 0)
      && (forall k, l :: k in cells && l in cells && k != l ==> cells[k] != cells[l])
    }

    /** The stored result of a key, if its task ran. */
    ghost function Found(key: TaskKey): Option<Stored>
      reads this, cells.Values
    {
      if key in cells then cells[key].stored else None
    }

    /** The key's cell, the same one for every caller. */
    method CellFor(key: TaskKey) returns (cell: Cell)
      requires Valid()
      modifies this
      ensures Valid() && key in cells && cells[key] == cell
      ensures forall k :: k in old(cells) ==> k in cells && cells[k] == old(cells)[k]
      ensures cells.Keys == old(cells.Keys) + {key}
      ensures key !in old(cells) ==> fresh(cell) && cell.stored == None
      ensures forall k :: Found(k) == old(Found(k))
    {
      if key !in cells {
        var made := new Cell();
        cells, runs := cells[key := made], runs[key := 0];
      }
      cell := cells[key];
    }

    /** Set a cell that is not set: what `get_or_init` does with the first caller's outcome. */
    method Fill(key: TaskKey, outcome: Outcome)
      requires Valid() && key in cells && cells[key].stored.None?
      modifies this`runs, cells[key]
      ensures Valid() && Found(key) == Some(Store(outcome))
      ensures forall k :: k != key ==> Found(k) == old(Found(k))
    {
      assert forall k :: k in cells && k != key ==> cells[k] != cells[key];
      cells[key].stored := Some(Store(outcome));
      runs := runs[key := runs[key] + 1];
    }

    /** The first caller's closure runs and its outcome stays; later callers get it as it is,
        whatever their own closure would do. */
    method GetOrRun(key: TaskKey, run: () -> Outcome) returns (result: Stored)
      requires Valid()
      modifies this, cells.Values
      ensures Valid() && Found(key) == Some(result)
      ensures old(Found(key)).Some? ==> Some(result) == old(Found(key))
      ensures old(Found(key)).None? ==> result == Store(run())
      ensures forall k :: k != key ==> Found(k) == old(Found(k))
    {
      var cell := CellFor(key);
      if cell.stored.None? {
        Fill(key, run());
      }
      result := cell.stored.value;
    }
  }

  // ---- Any number of callers, interleaved ----

  datatype Caller = Idle | Holding(key: TaskKey) | Running(key: TaskKey)
  datatype CellState = Empty | Busy | Full(result: Stored)

  /** The cells, where each caller is, every run of a closure and every result returned. */
  datatype State = State(
    cells: map<TaskKey, CellState>,
    callers: seq<Caller>,
    ran: seq<TaskKey>,
    returned: seq<(TaskKey, Stored)>)

  /** One atomic step: taking the key's cell from the locked map, being the one to fill it,
      the closure's end, or a filled cell's result handed over. */
  datatype Event = Calls(c: nat, key: TaskKey) | Begins(c: nat) | Ends(c: nat, outcome: Outcome) | Returns(c: nat)

  predicate Enabled(s: State, e: Event) {
    && e.c < |s.callers|
    && var caller := s.callers[e.c];
       match e
       case Calls(_, _) => caller.Idle?
       case Begins(_) => caller.Holding? && caller.key in s.cells && s.cells[caller.key].Empty?
       case Ends(_, _) => caller.Running?
       case Returns(_) => caller.Holding? && caller.key in s.cells && s.cells[caller.key].Full?
  }

  function After(s: State, e: Event): State
    requires Enabled(s, e)
  {
    match e
    case Calls(c, key) =>
      s.(callers := s.callers[c := Holding(key)],
         cells := if key in s.cells then s.cells else s.cells[key := Empty])
    case Begins(c) =>
      var key := s.callers[c].key;
      s.(callers := s.callers[c := Running(key)], cells := s.cells[key := Busy], ran := s.ran + [key])
    case Ends(c, outcome) =>
      var key := s.callers[c].key;
      var result := Store(outcome);
      s.(callers := s.callers[c := Idle], cells := s.cells[key := Full(result)],
         returned := s.returned + [(key, result)])
    case Returns(c) =>
      var key := s.callers[c].key;
      s.(callers := s.callers[c := Idle], returned := s.returned + [(key, s.cells[key].result)])
  }

  ghost predicate Inv(s: State) {
    && (forall c :: 0 <= c < |s.callers| && !s.callers[c].Idle? ==> s.callers[c].key in s.cells)
    && (forall c :: 0 <= c < |s.callers| && s.callers[c].Running? ==> s.cells[s.callers[c].key].Busy?)
    && (forall c, d :: 0 <= c < d < |s.callers| && s.callers[c].Running? && s.callers[d].Running? ==>
          s.callers[c].key != s.callers[d].key)
    && (forall k :: k in s.cells && s.cells[k].Busy? ==>
          exists c :: 0 <= c < |s.callers| && s.callers[c] == Running(k))
    && (forall k :: multiset(s.ran)[k] == if k in s.cells && !s.cells[k].Empty? then 1 else 0)
    && (forall r :: r in s.returned ==> r.0 in s.cells && s.cells[r.0] == Full(r.1))
  }

  /** A closure begins only where none has, and its key is then busy with it. */
  lemma BeginKeepsInv(s: State, e: Event)
    requires Inv(s) && Enabled(s, e) && e.Begins?
    ensures Inv(After(s, e))
  {
    var t, key := After(s, e), s.callers[e.c].key;
    BusyHasRunner(s, e);
    assert multiset(t.ran) == multiset(s.ran) + multiset{key};
  }

  /** It ends only at the caller that began it. */
  lemma EndKeepsInv(s: State, e: Event)
    requires Inv(s) && Enabled(s, e) && e.Ends?
    ensures Inv(After(s, e))
  {
    BusyHasRunner(s, e);
  }

  lemma BusyHasRunner(s: State, e: Event)
    requires Inv(s) && Enabled(s, e)
    ensures var t := After(s, e);
            forall k :: k in t.cells && t.cells[k].Busy? ==>
              exists c :: 0 <= c < |t.callers| && t.callers[c] == Running(k)
  {
    var t := After(s, e);
    forall k | k in t.cells && t.cells[k].Busy?
      ensures exists c :: 0 <= c < |t.callers| && t.callers[c] == Running(k)
    {
      if k in s.cells && s.cells[k].Busy? {
        var c :| 0 <= c < |s.callers| && s.callers[c] == Running(k);
        assert t.callers[c] == Running(k);
      } else {
        assert t.callers[e.c] == Running(k);
      }
    }
  }

  lemma EventKeepsInv(s: State, e: Event)
    requires Inv(s) && Enabled(s, e)
    ensures Inv(After(s, e))
  {
    match e
    case Begins(_) => BeginKeepsInv(s, e);
    case Ends(_, _) => EndKeepsInv(s, e);
    case _ => BusyHasRunner(s, e);
  }

  function AfterAll(s: State, events: seq<Event>): Option<State> {
    if events == [] then Some(s)
    else
      match AfterAll(s, events[..|events| - 1])
      case None => None
      case Some(t) => if Enabled(t, events[|events| - 1]) then Some(After(t, events[|events| - 1])) else None
  }

  function Start(callers: nat): State {
    State(map[], seq(callers, _ => Idle), [], [])
  }

  lemma {:induction false} RunsKeepInv(callers: nat, events: seq<Event>)
    ensures var end := AfterAll(Start(callers), events); end.Some? ==> Inv(end.value)
  {
    if events != [] {
      var front, last := events[..|events| - 1], events[|events| - 1];
      RunsKeepInv(callers, front);
      var before := AfterAll(Start(callers), front);
      if before.Some? && Enabled(before.value, last) {
        EventKeepsInv(before.value, last);
      }
    }
  }

  /** However the callers interleave, no key's closure runs twice, and every caller of a key is
      handed the same result, that of the one run. */
  lemma RunsOnceForAll(callers: nat, events: seq<Event>, a: (TaskKey, Stored), b: (TaskKey, Stored))
    ensures var end := AfterAll(Start(callers), events);
            end.Some? ==>
              && (forall k :: multiset(end.value.ran)[k] <= 1)
              && (a in end.value.returned ==> multiset(end.value.ran)[a.0] == 1)
              && (a in end.value.returned && b in end.value.returned && a.0 == b.0 ==> a.1 == b.1)
  {
    RunsKeepInv(callers, events);
  }

  /** No caller waits for nothing: whoever holds a cell can go on, or the one filling it can. */
  lemma SomeoneCanMove(callers: nat, events: seq<Event>, c: nat, outcome: Outcome)
    ensures var end := AfterAll(Start(callers), events);
            end.Some? && c < |end.value.callers| && end.value.callers[c].Holding? ==>
              || Enabled(end.value, Begins(c))
              || Enabled(end.value, Returns(c))
              || exists d: nat :: Enabled(end.value, Ends(d, outcome)) && end.value.callers[d].key == end.value.callers[c].key
  {
    RunsKeepInv(callers, events);
    var end := AfterAll(Start(callers), events);
    if end.Some? && c < |end.value.callers| && end.value.callers[c].Holding? {
      var s := end.value;
      var key := s.callers[c].key;
      if s.cells[key].Busy? {
        var d :| 0 <= d < |s.callers| && s.callers[d] == Running(key);
        assert Enabled(s, Ends(d, outcome));
      }
    }
  }
}
