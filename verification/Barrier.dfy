/** The shrinking step barrier of `mode "sync"`. */
module Barrier {
  import opened Wrappers
  import opened Totals

  /*
   `Bar` is the value of a barrier and its seats; `Arrive`, `Resume` and `Leave` are what one pass
   through the locks does to it. The classes hold the same state in fields and are proved to
   change it in exactly that way.
   */

  datatype SeatStatus = Seated | Waiting(generation: nat) | Left

  /** The counters are integers here; that they never go below zero is part of `Inv`. */
  datatype Bar = Bar(participants: int, arrived: int, generation: nat, seats: seq<SeatStatus>)

  ghost function WaitsFor(g: nat): SeatStatus -> nat {
    (s: SeatStatus) => if s == Waiting(g) then 1 else 0
  }

  ghost function Takes(s: SeatStatus): nat {
    if s == Left then 0 else 1
  }

  /** How many seats wait for generation `g`. */
  ghost function Waiters(seats: seq<SeatStatus>, g: nat): nat {
    Total(seats, WaitsFor(g))
  }

  /** How many seats still take part. */
  ghost function Live(seats: seq<SeatStatus>): nat {
    Total(seats, Takes)
  }

  /** What every pass through the locks keeps. */
  ghost predicate Inv(b: Bar) {
    && b.arrived == Waiters(b.seats, b.generation)
    && b.participants == Live(b.seats)
    && (forall i :: 0 <= i < |b.seats| && b.seats[i].Waiting? ==>
          b.seats[i].generation <= b.generation <= b.seats[i].generation + 1)
    && (b.arrived > 0 ==> b.arrived < b.participants)
  }

  ghost function Fresh(n: nat): Bar {
    Bar(n, 0, 0, seq(n, _ => Seated))
  }

  ghost function ReleaseIfComplete(b: Bar): Bar {
    if b.arrived > 0 && b.arrived >= b.participants then
      b.(arrived := 0, generation := b.generation + 1)
    else
      b
  }

  /** The locked part of an arrival: released at once, or left waiting. */
  ghost function Arrive(b: Bar, i: nat): Bar
    requires i < |b.seats|
  {
    if b.seats[i] == Waiting(b.generation) then
      b
    else
      var bNext := ReleaseIfComplete(b.(arrived := b.arrived + 1));
      bNext.(seats := b.seats[i := if bNext.generation != b.generation then Seated else Waiting(b.generation)])
  }

  /** A waiter that saw its generation released takes its seat again. */
  ghost function Resume(b: Bar, i: nat): Bar
    requires i < |b.seats|
  {
    b.(seats := b.seats[i := Seated])
  }

  ghost function Leave(b: Bar, i: nat): Bar
    requires i < |b.seats|
  {
    if b.seats[i] == Left then
      b
    else
      var b1 := if b.seats[i] == Waiting(b.generation) then b.(arrived := b.arrived - 1) else b;
      ReleaseIfComplete(b1.(participants := b1.participants - 1)).(seats := b.seats[i := Left])
  }

  /** No count underflows: a live seat is among the participants, a waiting one among the arrived. */
  lemma LiveSeatIsCounted(b: Bar, i: nat)
    requires Inv(b) && i < |b.seats| && b.seats[i] != Left
    ensures b.participants > 0
    ensures b.seats[i] == Waiting(b.generation) ==> b.arrived > 0
  {
    TotalAtLeast(b.seats, i, Takes);
    TotalAtLeast(b.seats, i, WaitsFor(b.generation));
  }

  /** When as many wait as take part, everyone who takes part is waiting. */
  lemma EveryoneWaits(seats: seq<SeatStatus>, g: nat)
    ensures Waiters(seats, g) <= Live(seats)
    ensures Waiters(seats, g) == Live(seats) ==>
              forall i :: 0 <= i < |seats| ==> seats[i] == Left || seats[i] == Waiting(g)
  {
    TotalMonotone(seats, WaitsFor(g), Takes);
    if Waiters(seats, g) == Live(seats) {
      forall i | 0 <= i < |seats| ensures seats[i] == Left || seats[i] == Waiting(g) {
        assert WaitsFor(g)(seats[i]) == Takes(seats[i]);
      }
    }
  }

  lemma FreshInv(n: nat)
    ensures Inv(Fresh(n))
  {
    TotalConstant(Fresh(n).seats, Takes, 1);
    TotalZero(Fresh(n).seats, WaitsFor(0));
  }

  /** A release, with the seats already as they end up: everyone who takes part was waiting for
      it, except `i`, which completed it. */
  lemma ReleaseInv(b: Bar, i: nat, last: SeatStatus)
    requires i < |b.seats| && !last.Waiting?
    requires forall j :: 0 <= j < |b.seats| && j != i ==> b.seats[j] == Left || b.seats[j] == Waiting(b.generation)
    requires b.participants == Live(b.seats[i := last])
    ensures Inv(b.(arrived := 0, generation := b.generation + 1, seats := b.seats[i := last]))
  {
    TotalZero(b.seats[i := last], WaitsFor(b.generation + 1));
  }

  /** Arriving keeps the invariant. It releases the generation exactly when everyone else who
      takes part already waits for it, and otherwise leaves only this seat's status changed. */
  lemma ArriveKeepsInv(b: Bar, i: nat)
    requires Inv(b) && i < |b.seats| && b.seats[i] != Left
    ensures Inv(Arrive(b, i))
    ensures Arrive(b, i).generation ==
            if b.seats[i] != Waiting(b.generation)
            && forall j :: 0 <= j < |b.seats| && j != i ==> b.seats[j] == Left || b.seats[j] == Waiting(b.generation)
            then b.generation + 1 else b.generation
  {
    if b.seats[i] != Waiting(b.generation) {
      var now := Waiting(b.generation);
      var seats := b.seats[i := now];
      TotalUpdate(b.seats, i, now, WaitsFor(b.generation));
      TotalUpdate(b.seats, i, now, Takes);
      EveryoneWaits(seats, b.generation);
      var complete := b.arrived + 1 >= b.participants;
      assert Waiters(seats, b.generation) == b.arrived + 1 && Live(seats) == b.participants;
      if complete {
        forall j | 0 <= j < |b.seats| && j != i
          ensures b.seats[j] == Left || b.seats[j] == Waiting(b.generation)
        {
          assert seats[j] == b.seats[j];
        }
        TotalUpdate(b.seats, i, Seated, Takes);
        ReleaseInv(b, i, Seated);
      } else if forall j :: 0 <= j < |b.seats| && j != i ==> b.seats[j] == Left || b.seats[j] == now {
        forall x | x in seats ensures Takes(x) <= WaitsFor(b.generation)(x) {
        }
        TotalMonotone(seats, Takes, WaitsFor(b.generation));
      }
    }
  }

  lemma ResumeKeepsInv(b: Bar, i: nat)
    requires Inv(b) && i < |b.seats| && b.seats[i].Waiting? && b.seats[i].generation != b.generation
    ensures Inv(Resume(b, i))
  {
    TotalUpdate(b.seats, i, Seated, Takes);
    TotalUpdate(b.seats, i, Seated, WaitsFor(b.generation));
  }

  /** Leaving keeps the invariant; it releases the others exactly when they all were waiting
      (and there are any), and never otherwise. */
  lemma LeaveKeepsInv(b: Bar, i: nat)
    requires Inv(b) && i < |b.seats|
    ensures Inv(Leave(b, i))
    ensures Leave(b, i).generation == b.generation || Leave(b, i).generation == b.generation + 1
    ensures Leave(b, i).generation != b.generation ==>
              forall j :: 0 <= j < |b.seats| && j != i ==> b.seats[j] == Left || b.seats[j] == Waiting(b.generation)
    ensures Leave(b, i).seats == b.seats[i := Left]
  {
    if b.seats[i] == Left {
      assert b.seats[i := Left] == b.seats;
    } else {
      LiveSeatIsCounted(b, i);
      TotalUpdate(b.seats, i, Left, Takes);
      TotalUpdate(b.seats, i, Left, WaitsFor(b.generation));
      var seats := b.seats[i := Left];
      EveryoneWaits(seats, b.generation);
      if Leave(b, i).generation != b.generation {
        forall j | 0 <= j < |b.seats| && j != i
          ensures b.seats[j] == Left || b.seats[j] == Waiting(b.generation)
        {
          assert seats[j] == b.seats[j];
        }
        ReleaseInv(b.(participants := Live(seats)), i, Left);
      }
    }
  }

  /** Whoever still takes part, they never all wait for the current generation: a barrier nobody
      outside it is still heading for has been released. */
  lemma NeverAllWaiting(b: Bar)
    requires Inv(b) && b.participants > 0
    ensures exists i :: 0 <= i < |b.seats| && b.seats[i] != Left && b.seats[i] != Waiting(b.generation)
  {
    if forall i :: 0 <= i < |b.seats| ==> b.seats[i] == Left || b.seats[i] == Waiting(b.generation) {
      forall x | x in b.seats ensures Takes(x) <= WaitsFor(b.generation)(x) {
      }
      TotalMonotone(b.seats, Takes, WaitsFor(b.generation));
      assert false;
    }
  }

  // ---- Any interleaving of arrivals, abandoned waits and departures ----

  /** One pass through the locks by some seat. Abandoning a wait takes no lock and changes
      nothing: the seat stays `Waiting`. */
  datatype Pass = Arrives(seat: nat) | Abandons(seat: nat) | Resumes(seat: nat) | Leaves(seat: nat)

  ghost predicate Allowed(b: Bar, p: Pass) {
    && p.seat < |b.seats|
    && match p
       case Arrives(i) => b.seats[i] != Left
       case Abandons(i) => b.seats[i].Waiting?
       case Resumes(i) => b.seats[i].Waiting? && b.seats[i].generation != b.generation
       case Leaves(_) => true
  }

  ghost function After(b: Bar, p: Pass): Bar
    requires Allowed(b, p)
  {
    match p
    case Arrives(i) => Arrive(b, i)
    case Abandons(_) => b
    case Resumes(i) => Resume(b, i)
    case Leaves(i) => Leave(b, i)
  }

  ghost predicate Interleaving(n: nat, states: seq<Bar>, passes: seq<Pass>) {
    && |states| == |passes| + 1
    && states[0] == Fresh(n)
    && forall k :: 0 <= k < |passes| ==>
         Allowed(states[k], passes[k]) && states[k + 1] == After(states[k], passes[k])
  }

  /** The barrier's invariant holds throughout every interleaving: the counters are what the
      seats say, a stale wait lags by at most one generation, and nobody is stuck. */
  lemma {:induction false} InterleavingsKeepInv(n: nat, states: seq<Bar>, passes: seq<Pass>, k: nat)
    requires Interleaving(n, states, passes) && k < |states|
    ensures Inv(states[k]) && |states[k].seats| == n
    ensures states[k].participants > 0 ==>
              exists i :: 0 <= i < n && states[k].seats[i] != Left && states[k].seats[i] != Waiting(states[k].generation)
  {
    if k == 0 {
      FreshInv(n);
    } else {
      InterleavingsKeepInv(n, states, passes, k - 1);
      var b := states[k - 1];
      assert Allowed(b, passes[k - 1]);
      match passes[k - 1]
      case Arrives(i) => ArriveKeepsInv(b, i);
      case Abandons(_) =>
      case Resumes(i) => ResumeKeepsInv(b, i);
      case Leaves(i) => LeaveKeepsInv(b, i);
    }
    if states[k].participants > 0 {
      NeverAllWaiting(states[k]);
    }
  }

  /** Everyone but `seat` who takes part waits for the current generation. */
  ghost predicate OthersWait(b: Bar, seat: nat) {
    forall j :: 0 <= j < |b.seats| && j != seat ==> b.seats[j] == Left || b.seats[j] == Waiting(b.generation)
  }

  lemma ReleasingPass(b: Bar, pass: Pass)
    requires Inv(b) && Allowed(b, pass) && After(b, pass).generation != b.generation
    ensures OthersWait(b, pass.seat) && After(b, pass).generation == b.generation + 1
    ensures pass.Arrives? || pass.Leaves?
  {
    match pass
    case Arrives(i) => ArriveKeepsInv(b, i);
    case Leaves(i) => LeaveKeepsInv(b, i);
    case _ =>
  }

  /** What the end of a wait tells: whoever waited for a generation goes on only after a pass, an
      arrival or a departure, before which everyone else who took part was waiting for it. */
  lemma {:induction false} WaitEndsWhenAllArrived(n: nat, states: seq<Bar>, passes: seq<Pass>, k: nat, l: nat)
    returns (m: nat)
    requires Interleaving(n, states, passes) && k <= l < |states| && states[l].generation != states[k].generation
    ensures k <= m < l && states[m].generation == states[k].generation && states[m + 1].generation == states[k].generation + 1
    ensures OthersWait(states[m], passes[m].seat) && (passes[m].Arrives? || passes[m].Leaves?)
    decreases l
  {
    InterleavingsKeepInv(n, states, passes, l - 1);
    if states[l - 1].generation != states[k].generation {
      m := WaitEndsWhenAllArrived(n, states, passes, k, l - 1);
    } else {
      m := l - 1;
      ReleasingPass(states[m], passes[m]);
    }
  }

  // ---- The barrier and its seats as objects ----

  class StepBarrier {
    var participants: nat
    var arrived: nat
    var generation: nat
    ghost const size: nat
    ghost var seats: seq<Seat>

    /** The barrier as a value; a seat not handed out yet counts as seated. */
    ghost function View(): Bar
      reads this, seats
    {
      Bar(participants, arrived, generation,
          seq(size, (i: nat) reads this, seats => if i < |seats| then seats[i].status else Seated))
    }

    ghost predicate Valid()
      reads this, seats
    {
      && |seats| <= size
      && (forall i :: 0 <= i < |seats| ==> seats[i].barrier == this && seats[i].index == i)
      && Inv(View())
    }

    constructor (n: nat)
      ensures Valid() && View() == Fresh(n) && size == n && seats == []
    {
      participants, arrived, generation := n, 0, 0;
      size, seats := n, [];
      new;
      assert View() == Fresh(n);
      FreshInv(n);
    }

    /** One seat per participant; a seat beyond those would not be counted. */
    method NewSeat() returns (seat: Seat)
      requires Valid()
      modifies this`seats
      ensures View() == old(View()) && (old(|seats|) < size ==> Valid())
      ensures fresh(seat) && seat.barrier == this && seats == old(seats) + [seat]
    {
      ghost var before := View();
      seat := new Seat(this, |seats|);
      seats := seats + [seat];
      assert View().seats == before.seats;
    }

    /** An arrival counted, and the generation released if that completes it. */
    method CountArrival() returns (released: bool)
      modifies this`arrived, this`generation
      ensures View() == ReleaseIfComplete(old(View()).(arrived := old(arrived) + 1))
      ensures released == (generation != old(generation))
    {
      arrived := arrived + 1;
      released := ReleaseIfCompleteNow();
    }

    method ReleaseIfCompleteNow() returns (released: bool)
      modifies this`arrived, this`generation
      ensures View() == ReleaseIfComplete(old(View()))
      ensures released == (generation != old(generation))
    {
      released := arrived > 0 && arrived >= participants;
      if released {
        arrived := 0;
        generation := generation + 1;
      }
    }
  }

  class Seat {
    const barrier: StepBarrier
    ghost const index: nat
    var status: SeatStatus

    constructor (b: StepBarrier, ghost i: nat)
      ensures barrier == b && index == i && status == Seated
    {
      barrier, index, status := b, i, Seated;
    }

    ghost predicate Valid()
      reads this, barrier, barrier.seats
    {
      barrier.Valid() && index < |barrier.seats| && barrier.seats[index] == this
    }

    /** The locked part of `arrive`: `None` when released at once, else the generation to wait for. */
    method ArriveLocked() returns (wait: Option<nat>)
      requires Valid()
      modifies this`status, barrier`arrived, barrier`generation
      ensures barrier.View() == Arrive(old(barrier.View()), index) && (old(status) != Left ==> Valid())
      ensures wait == if status.Waiting? then Some(status.generation) else None
      ensures status == Seated || status == Waiting(barrier.generation)
    {
      ghost var before := barrier.View();
      if status != Left {
        ArriveKeepsInv(before, index);
      }
      var generation := barrier.generation;
      var resuming := status == Waiting(generation);
      if !resuming {
        var released := barrier.CountArrival();
        if released {
          status := Seated;
          assert barrier.View() == Arrive(before, index);
          return None;
        }
      }
      status := Waiting(generation);
      wait := Some(generation);
      assert barrier.View() == Arrive(before, index);
    }

    /** The end of `arrive`, once the generation waited for was released. */
    method TakeSeatAgain()
      requires Valid() && status.Waiting? && status.generation != barrier.generation
      modifies this`status
      ensures Valid() && barrier.View() == Resume(old(barrier.View()), index)
    {
      ghost var before := barrier.View();
      ResumeKeepsInv(before, index);
      status := Seated;
      assert barrier.View() == Resume(before, index);
    }

    method LeaveSeat()
      requires Valid()
      modifies this`status, barrier`participants, barrier`arrived, barrier`generation
      ensures Valid() && status == Left
      ensures barrier.View() == Leave(old(barrier.View()), index)
    {
      ghost var before := barrier.View();
      LeaveKeepsInv(before, index);
      if status == Left {
        return;
      }
      LiveSeatIsCounted(before, index);
      if status.Waiting? && barrier.generation == status.generation {
        barrier.arrived := barrier.arrived - 1;
      }
      barrier.participants := barrier.participants - 1;
      var _ := barrier.ReleaseIfCompleteNow();
      status := Left;
      assert barrier.View() == Leave(before, index);
    }
  }
}
