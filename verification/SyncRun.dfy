/**
 One batch of a `mode "sync"` run, host by host, over the step barrier and the permits.
 */
module SyncRun {
  import opened Totals
  import opened Barrier

  /*
   Every host walks through connecting, the step barrier and the steps, with a permit held only
   while connecting and while running a step. Each event is one host's move between two points
   where it can be preempted; any host may fail wherever it is. All interleavings of these events
   are considered.

   A host waiting at the barrier goes round a loop: it registers for the next release, looks
   again whether its own has come, and only then sleeps until it is notified. `again` is history:
   it has been woken in this wait before.
   */

  datatype Phase =
    | NeedConnect
    | Connecting
    | Before(step: nat)
    | Parked(step: nat, generation: nat, again: bool)
    | Registered(step: nat, generation: nat, again: bool, notified: bool)
    | Asleep(step: nat, generation: nat, notified: bool)
    | Woken(step: nat)
    | NeedPermit(step: nat)
    | Running(step: nat)
    | Exiting
    | Gone

  /** `arrivals` and `completed` are history: arrivals at the barrier, and steps finished. */
  datatype Host = Host(phase: Phase, arrivals: nat, completed: nat)

  /** The run of `steps` steps: the barrier, the free permits, the hosts by seat. */
  datatype Sys = Sys(steps: nat, bar: Bar, free: int, hosts: seq<Host>)

  datatype Event =
    | Acquire(host: nat)
    | Connected(host: nat)
    | Arrives(host: nat)
    | Registers(host: nat)
    | Checks(host: nat)
    | Wakes(host: nat)
    | Resumes(host: nat)
    | Finishes(host: nat)
    | Fails(host: nat)
    | Leaves(host: nat)

  ghost function Init(steps: nat, hosts: nat, permits: nat): Sys {
    Sys(steps, Fresh(hosts), permits, seq(hosts, _ => Host(NeedConnect, 0, 0)))
  }

  ghost function Holds(h: Host): nat {
    if h.phase.Connecting? || h.phase.Running? then 1 else 0
  }

  /** Permits held. */
  ghost function Held(s: Sys): nat {
    Total(s.hosts, Holds)
  }

  ghost predicate Enabled(s: Sys, e: Event) {
    && |s.bar.seats| == |s.hosts|
    && e.host < |s.hosts|
    && var phase := s.hosts[e.host].phase;
    match e
    case Acquire(_) => (phase.NeedConnect? || phase.NeedPermit?) && s.free > 0
    case Connected(_) => phase.Connecting?
    case Arrives(_) => phase.Before?
    case Registers(_) => phase.Parked?
    case Checks(_) => phase.Registered?
    case Wakes(_) => phase.Asleep? && phase.notified
    case Resumes(_) => phase.Woken?
    case Finishes(_) => phase.Running?
    case Fails(_) => !phase.Exiting? && !phase.Gone?
    case Leaves(_) => phase.Exiting?
  }

  ghost function NextStep(s: Sys, step: nat): Phase {
    if step < s.steps then Before(step) else Exiting
  }

  /** A release notifies whoever has registered. */
  ghost function Notify(h: Host): Host {
    match h.phase
    case Registered(k, g, again, _) => h.(phase := Registered(k, g, again, true))
    case Asleep(k, g, _) => h.(phase := Asleep(k, g, true))
    case _ => h
  }

  ghost function NotifyAll(hosts: seq<Host>): seq<Host> {
    seq(|hosts|, j requires 0 <= j < |hosts| => Notify(hosts[j]))
  }

  /** The barrier changed to `bar`, a release with its notification included. */
  ghost function WithBar(s: Sys, bar: Bar): Sys {
    s.(bar := bar, hosts := if bar.generation != s.bar.generation then NotifyAll(s.hosts) else s.hosts)
  }

  ghost function Move(s: Sys, i: nat, h: Host): Sys
    requires i < |s.hosts|
  {
    s.(hosts := s.hosts[i := h])
  }

  ghost function After(s: Sys, e: Event): Sys
    requires Enabled(s, e)
  {
    var i := e.host;
    var h := s.hosts[i];
    match e
    case Acquire(_) =>
      Move(s, i, h.(phase := if h.phase.NeedConnect? then Connecting else Running(h.phase.step)))
        .(free := s.free - 1)
    case Connected(_) =>
      Move(s, i, h.(phase := NextStep(s, 0))).(free := s.free + 1)
    case Arrives(_) =>
      var bar := Arrive(s.bar, i);
      var phase := if bar.seats[i].Waiting?
                   then Parked(h.phase.step, bar.seats[i].generation, false)
                   else NeedPermit(h.phase.step);
      Move(WithBar(s, bar), i, h.(phase := phase, arrivals := h.arrivals + 1))
    case Registers(_) =>
      Move(s, i, h.(phase := Registered(h.phase.step, h.phase.generation, h.phase.again, false)))
    case Checks(_) =>
      Move(s, i, h.(phase := if s.bar.generation != h.phase.generation then Woken(h.phase.step)
                             else Asleep(h.phase.step, h.phase.generation, h.phase.notified)))
    case Wakes(_) =>
      Move(s, i, h.(phase := Parked(h.phase.step, h.phase.generation, true)))
    case Resumes(_) =>
      Move(s, i, h.(phase := NeedPermit(h.phase.step))).(bar := Resume(s.bar, i))
    case Finishes(_) =>
      Move(s, i, h.(phase := NextStep(s, h.phase.step + 1), completed := h.completed + 1))
        .(free := s.free + 1)
    case Fails(_) =>
      Move(s, i, h.(phase := Exiting)).(free := s.free + Holds(h))
    case Leaves(_) =>
      Move(WithBar(s, Leave(s.bar, i)), i, h.(phase := Gone))
  }

  /** A run: some initial state, then enabled events one at a time. */
  ghost predicate Run(steps: nat, hosts: nat, permits: nat, states: seq<Sys>, events: seq<Event>) {
    && |states| == |events| + 1
    && states[0] == Init(steps, hosts, permits)
    && forall k :: 0 <= k < |events| ==>
         Enabled(states[k], events[k]) && states[k + 1] == After(states[k], events[k])
  }

  // ---- The invariant ----

  /** How one host's phase, its seat and its history fit together. */
  ghost predicate HostInv(steps: nat, g: nat, seat: SeatStatus, h: Host) {
    && (seat == Left <==> h.phase.Gone?)
    && (!h.phase.Gone? ==> h.arrivals == if seat == Waiting(g) then g + 1 else g)
    && h.completed <= h.arrivals <= h.completed + 1
    && match h.phase
       case NeedConnect | Connecting => seat == Seated && h.arrivals == 0
       case Before(k) => seat == Seated && h.arrivals == h.completed == k && k < steps
       case Parked(k, w, again) =>
         seat == Waiting(w) && h.arrivals == k + 1 && h.completed == k < steps && (again ==> w != g)
       case Registered(k, w, again, notified) =>
         seat == Waiting(w) && h.arrivals == k + 1 && h.completed == k < steps && (again || notified ==> w != g)
       case Asleep(k, w, notified) =>
         seat == Waiting(w) && h.arrivals == k + 1 && h.completed == k < steps && (notified <==> w != g)
       case Woken(k) => seat.Waiting? && seat != Waiting(g) && h.arrivals == k + 1 && h.completed == k < steps
       case NeedPermit(k) => seat == Seated && h.arrivals == k + 1 && h.completed == k < steps
       case Running(k) => seat == Seated && h.arrivals == k + 1 && h.completed == k < steps
       case Exiting => true
       case Gone => true
  }

  ghost predicate SysInv(s: Sys, permits: nat) {
    && Inv(s.bar)
    && |s.bar.seats| == |s.hosts|
    && s.free >= 0
    && s.free + Held(s) == permits
    && forall i :: 0 <= i < |s.hosts| ==> HostInv(s.steps, s.bar.generation, s.bar.seats[i], s.hosts[i])
  }

  lemma InitInv(steps: nat, hosts: nat, permits: nat)
    ensures SysInv(Init(steps, hosts, permits), permits)
  {
    FreshInv(hosts);
    TotalZero(Init(steps, hosts, permits).hosts, Holds);
  }

  /** When the generation moves on, the hosts that took part in it fit the new one: each was
      waiting for it. */
  lemma OthersAfterRelease(s: Sys, permits: nat, i: nat)
    requires SysInv(s, permits) && i < |s.hosts|
    requires forall j :: 0 <= j < |s.hosts| && j != i ==> s.bar.seats[j] == Left || s.bar.seats[j] == Waiting(s.bar.generation)
    ensures forall j :: 0 <= j < |s.hosts| && j != i ==>
              HostInv(s.steps, s.bar.generation + 1, s.bar.seats[j], Notify(s.hosts[j]))
  {
    forall j | 0 <= j < |s.hosts| && j != i
      ensures HostInv(s.steps, s.bar.generation + 1, s.bar.seats[j], Notify(s.hosts[j]))
    {
      assert HostInv(s.steps, s.bar.generation, s.bar.seats[j], s.hosts[j]);
    }
  }

  /** The hosts other than the one that moves, when the generation stays or is released. */
  lemma OthersKeep(s: Sys, permits: nat, i: nat, sNext: Sys)
    requires SysInv(s, permits) && i < |s.hosts| && sNext.steps == s.steps
    requires |sNext.hosts| == |sNext.bar.seats| == |s.hosts|
    requires forall j :: 0 <= j < |s.hosts| && j != i ==> sNext.bar.seats[j] == s.bar.seats[j]
    requires forall j :: 0 <= j < |s.hosts| && j != i ==>
               sNext.hosts[j] == if sNext.bar.generation != s.bar.generation then Notify(s.hosts[j]) else s.hosts[j]
    requires sNext.bar.generation == s.bar.generation
             || (sNext.bar.generation == s.bar.generation + 1
                 && forall j :: 0 <= j < |s.hosts| && j != i ==>
                      s.bar.seats[j] == Left || s.bar.seats[j] == Waiting(s.bar.generation))
    ensures forall j :: 0 <= j < |s.hosts| && j != i ==>
              HostInv(s.steps, sNext.bar.generation, sNext.bar.seats[j], sNext.hosts[j])
  {
    if sNext.bar.generation != s.bar.generation {
      OthersAfterRelease(s, permits, i);
    } else {
      forall j | 0 <= j < |s.hosts| && j != i
        ensures HostInv(s.steps, sNext.bar.generation, sNext.bar.seats[j], sNext.hosts[j])
      {
        assert HostInv(s.steps, s.bar.generation, s.bar.seats[j], s.hosts[j]);
      }
    }
  }

  /** The hosts after an event, but for the one that moves: notified, if it released the barrier. */
  ghost function OthersAfter(s: Sys, e: Event): seq<Host>
    requires Enabled(s, e)
  {
    if After(s, e).bar.generation != s.bar.generation then NotifyAll(s.hosts) else s.hosts
  }

  /** An event moves one host on, and leaves the others where they are but for being notified. */
  lemma OnlyOneMoves(s: Sys, e: Event)
    requires Enabled(s, e)
    ensures var t := After(s, e);
            |t.hosts| == |s.hosts| == |OthersAfter(s, e)| && t.hosts == OthersAfter(s, e)[e.host := t.hosts[e.host]]
    ensures After(s, e).steps == s.steps && OthersAfter(s, e)[e.host] in [s.hosts[e.host], Notify(s.hosts[e.host])]
  {
  }

  /** A weight that a notification does not change is not changed in total. */
  lemma {:induction false} NotifiedWeighAlike(hosts: seq<Host>, weight: Host -> nat)
    requires forall h :: weight(Notify(h)) == weight(h)
    ensures Total(NotifyAll(hosts), weight) == Total(hosts, weight)
  {
    if hosts != [] {
      NotifiedWeighAlike(hosts[1..], weight);
      assert NotifyAll(hosts)[1..] == NotifyAll(hosts[1..]);
    }
  }

  lemma OthersHoldAsMany(s: Sys, e: Event)
    requires Enabled(s, e)
    ensures Total(OthersAfter(s, e), Holds) == Held(s)
  {
    NotifiedWeighAlike(s.hosts, Holds);
  }

  lemma EventKeepsInv(s: Sys, permits: nat, e: Event)
    requires SysInv(s, permits) && Enabled(s, e)
    ensures SysInv(After(s, e), permits)
  {
    var i := e.host;
    var sNext := After(s, e);
    EventKeepsBarrier(s, permits, e);
    OnlyOneMoves(s, e);
    TotalUpdate(OthersAfter(s, e), i, sNext.hosts[i], Holds);
    OthersHoldAsMany(s, e);
    OthersKeep(s, permits, i, sNext);
    MovedHostFits(s, permits, e);
  }

  lemma EventKeepsBarrier(s: Sys, permits: nat, e: Event)
    requires SysInv(s, permits) && Enabled(s, e)
    ensures Inv(After(s, e).bar)
    ensures |After(s, e).bar.seats| == |s.bar.seats|
    ensures forall j :: 0 <= j < |s.hosts| && j != e.host ==> After(s, e).bar.seats[j] == s.bar.seats[j]
    ensures After(s, e).bar.generation == s.bar.generation
            || (After(s, e).bar.generation == s.bar.generation + 1
                && forall j :: 0 <= j < |s.hosts| && j != e.host ==>
                     s.bar.seats[j] == Left || s.bar.seats[j] == Waiting(s.bar.generation))
  {
    var i := e.host;
    assert HostInv(s.steps, s.bar.generation, s.bar.seats[i], s.hosts[i]);
    match e
    case Arrives(_) => ArriveKeepsInv(s.bar, i);
    case Resumes(_) => ResumeKeepsInv(s.bar, i);
    case Leaves(_) => LeaveKeepsInv(s.bar, i);
    case _ =>
  }

  lemma WaiterFits(s: Sys, permits: nat, e: Event)
    requires SysInv(s, permits) && Enabled(s, e) && (e.Registers? || e.Checks? || e.Wakes? || e.Resumes?)
    ensures HostInv(s.steps, After(s, e).bar.generation, After(s, e).bar.seats[e.host], After(s, e).hosts[e.host])
  {
    assert HostInv(s.steps, s.bar.generation, s.bar.seats[e.host], s.hosts[e.host]);
  }

  lemma MovedHostFits(s: Sys, permits: nat, e: Event)
    requires SysInv(s, permits) && Enabled(s, e)
    ensures HostInv(s.steps, After(s, e).bar.generation, After(s, e).bar.seats[e.host], After(s, e).hosts[e.host])
  {
    if e.Registers? || e.Checks? || e.Wakes? || e.Resumes? {
      WaiterFits(s, permits, e);
    } else {
      assert HostInv(s.steps, s.bar.generation, s.bar.seats[e.host], s.hosts[e.host]);
      if e.Leaves? {
        LeaveKeepsInv(s.bar, e.host);
      }
    }
  }

  lemma {:induction false} RunsKeepInv(
    steps: nat, hosts: nat, permits: nat, states: seq<Sys>, events: seq<Event>, k: nat)
    requires Run(steps, hosts, permits, states, events) && k < |states|
    ensures SysInv(states[k], permits) && |states[k].hosts| == hosts && states[k].steps == steps
  {
    if k == 0 {
      InitInv(steps, hosts, permits);
    } else {
      RunsKeepInv(steps, hosts, permits, states, events, k - 1);
      assert Enabled(states[k - 1], events[k - 1]);
      EventKeepsInv(states[k - 1], permits, events[k - 1]);
    }
  }

  // ---- What every run guarantees ----

  /** Permits are conserved, and no host waiting at the barrier holds one. */
  lemma PermitsConserved(
    steps: nat, hosts: nat, permits: nat, states: seq<Sys>, events: seq<Event>, k: nat)
    requires Run(steps, hosts, permits, states, events) && k < |states|
    ensures 0 <= states[k].free <= permits && states[k].free + Held(states[k]) == permits
    ensures |states[k].hosts| == |states[k].bar.seats| == hosts
    ensures forall i :: 0 <= i < hosts && states[k].bar.seats[i].Waiting? ==> Holds(states[k].hosts[i]) == 0
  {
    RunsKeepInv(steps, hosts, permits, states, events, k);
    forall i | 0 <= i < hosts && states[k].bar.seats[i].Waiting? ensures Holds(states[k].hosts[i]) == 0 {
      assert HostInv(steps, states[k].bar.generation, states[k].bar.seats[i], states[k].hosts[i]);
    }
  }

  ghost predicate PastBarrierOf(h: Host, step: nat) {
    h.phase == Woken(step) || h.phase == NeedPermit(step) || h.phase == Running(step)
  }

  /** Lock-step: once any host is past the barrier of `step`, every host that still takes part
      has finished all the steps before it. */
  lemma LockStep(
    steps: nat, hosts: nat, permits: nat, states: seq<Sys>, events: seq<Event>, k: nat,
    i: nat, step: nat, j: nat)
    requires Run(steps, hosts, permits, states, events) && k < |states| && i < hosts && j < hosts
    requires |states[k].hosts| == hosts && |states[k].bar.seats| == hosts
    requires PastBarrierOf(states[k].hosts[i], step)
    ensures states[k].bar.seats[j] == Left || states[k].hosts[j].completed >= step
  {
    RunsKeepInv(steps, hosts, permits, states, events, k);
    var s := states[k];
    assert HostInv(steps, s.bar.generation, s.bar.seats[i], s.hosts[i]);
    assert HostInv(steps, s.bar.generation, s.bar.seats[j], s.hosts[j]);
  }

  /** No release is missed: whoever sleeps has been notified exactly if its generation is over. */
  lemma NoReleaseIsMissed(
    steps: nat, hosts: nat, permits: nat, states: seq<Sys>, events: seq<Event>, k: nat, i: nat)
    requires Run(steps, hosts, permits, states, events) && k < |states| && i < hosts
    ensures |states[k].hosts| == hosts
    ensures states[k].hosts[i].phase.Asleep? ==>
              (Enabled(states[k], Wakes(i)) <==> states[k].hosts[i].phase.generation != states[k].bar.generation)
  {
    RunsKeepInv(steps, hosts, permits, states, events, k);
    assert HostInv(steps, states[k].bar.generation, states[k].bar.seats[i], states[k].hosts[i]);
  }

  ghost predicate Finished(s: Sys) {
    forall i :: 0 <= i < |s.hosts| ==> s.hosts[i].phase.Gone?
  }

  /** No deadlock: while some host is not done, some host can move on — without failing —
      as long as there is at least one permit. */
  lemma SomeHostCanMove(s: Sys, permits: nat) returns (e: Event)
    requires SysInv(s, permits) && permits >= 1 && !Finished(s)
    ensures Enabled(s, e) && !e.Fails?
  {
    if i :| 0 <= i < |s.hosts| && CanAlwaysMove(s.hosts[i].phase) {
      e := AlwaysEnabled(s, i);
    } else {
      if Held(s) > 0 {
        var i := TotalWitness(s.hosts, Holds);
        assert CanAlwaysMove(s.hosts[i].phase);
        assert false;
      }
      var i :| 0 <= i < |s.hosts| && !s.hosts[i].phase.Gone?;
      if s.hosts[i].phase.Asleep? {
        assert HostInv(s.steps, s.bar.generation, s.bar.seats[i], s.hosts[i]);
        TotalAtLeast(s.bar.seats, i, Takes);
        NeverAllWaiting(s.bar);
        var j :| 0 <= j < |s.bar.seats| && s.bar.seats[j] != Left && s.bar.seats[j] != Waiting(s.bar.generation);
        assert HostInv(s.steps, s.bar.generation, s.bar.seats[j], s.hosts[j]);
        e := if s.hosts[j].phase.Asleep? then Wakes(j) else Acquire(j);
      } else {
        e := Acquire(i);
      }
    }
  }

  /** The phases a host leaves without anyone else's help. */
  ghost predicate CanAlwaysMove(p: Phase) {
    p.Connecting? || p.Before? || p.Parked? || p.Registered? || p.Woken? || p.Running? || p.Exiting?
  }

  lemma AlwaysEnabled(s: Sys, i: nat) returns (e: Event)
    requires |s.bar.seats| == |s.hosts| && i < |s.hosts| && CanAlwaysMove(s.hosts[i].phase)
    ensures Enabled(s, e) && !e.Fails?
  {
    match s.hosts[i].phase
    case Connecting => e := Connected(i);
    case Before(_) => e := Event.Arrives(i);
    case Parked(_, _, _) => e := Registers(i);
    case Registered(_, _, _, _) => e := Checks(i);
    case Woken(_) => e := Event.Resumes(i);
    case Running(_) => e := Finishes(i);
    case Exiting => e := Event.Leaves(i);
  }

  /** How many moves a host still has in it at most. */
  ghost function Rank(steps: nat): Host -> nat {
    (h: Host) => PhaseRank(steps, h.phase)
  }

  ghost function PhaseRank(steps: nat, p: Phase): nat {
    match p
    case NeedConnect => 9 * steps + 3
    case Connecting => 9 * steps + 2
    case Before(k) => RankLeft(steps, k) + 1
    case Parked(k, _, again) => RankLeft(steps, k) - if k < steps && again then 3 else 0
    case Registered(k, _, again, _) => RankLeft(steps, k) - if k < steps then (if again then 4 else 1) else 0
    case Asleep(k, _, _) => RankLeft(steps, k) - if k < steps then 2 else 0
    case Woken(k) => RankLeft(steps, k) - if k < steps then 5 else 0
    case NeedPermit(k) => RankLeft(steps, k) - if k < steps then 6 else 0
    case Running(k) => RankLeft(steps, k) - if k < steps then 7 else 0
    case Exiting => 1
    case Gone => 0
  }

  ghost function RankLeft(steps: nat, k: nat): nat {
    if k < steps then 9 * (steps - k) else 0
  }

  ghost function Measure(s: Sys): nat {
    Total(s.hosts, Rank(s.steps))
  }

  lemma WaitRankDecreases(s: Sys, permits: nat, e: Event)
    requires SysInv(s, permits) && Enabled(s, e) && (e.Registers? || e.Checks? || e.Wakes? || e.Resumes?)
    ensures PhaseRank(s.steps, After(s, e).hosts[e.host].phase) < PhaseRank(s.steps, s.hosts[e.host].phase)
  {
    assert HostInv(s.steps, s.bar.generation, s.bar.seats[e.host], s.hosts[e.host]);
  }

  lemma NextStepRank(s: Sys, step: nat)
    ensures PhaseRank(s.steps, NextStep(s, step)) == if step < s.steps then 9 * (s.steps - step) + 1 else 1
  {
  }

  lemma ArrivalIsClose(s: Sys, e: Event)
    requires Enabled(s, e) && e.Arrives?
    ensures var k := s.hosts[e.host].phase.step;
            var p := After(s, e).hosts[e.host].phase;
            p == NeedPermit(k) || (p.Parked? && p.step == k)
  {
  }

  lemma StepRankDecreases(s: Sys, permits: nat, e: Event)
    requires SysInv(s, permits) && Enabled(s, e) && (e.Acquire? || e.Connected? || e.Arrives? || e.Finishes?)
    ensures PhaseRank(s.steps, After(s, e).hosts[e.host].phase) < PhaseRank(s.steps, s.hosts[e.host].phase)
  {
    assert HostInv(s.steps, s.bar.generation, s.bar.seats[e.host], s.hosts[e.host]);
    match e
    case Acquire(_) =>
    case Connected(_) => NextStepRank(s, 0);
    case Arrives(_) => ArrivalIsClose(s, e);
    case Finishes(_) => NextStepRank(s, s.hosts[e.host].phase.step + 1);
  }

  lemma RankAboveExit(steps: nat, g: nat, seat: SeatStatus, h: Host)
    requires HostInv(steps, g, seat, h) && !h.phase.Exiting? && !h.phase.Gone?
    ensures PhaseRank(steps, h.phase) > PhaseRank(steps, Exiting)
  {
  }

  lemma RankDecreases(s: Sys, permits: nat, e: Event)
    requires SysInv(s, permits) && Enabled(s, e)
    ensures PhaseRank(s.steps, After(s, e).hosts[e.host].phase) < PhaseRank(s.steps, s.hosts[e.host].phase)
  {
    match e
    case Fails(i) =>
      assert HostInv(s.steps, s.bar.generation, s.bar.seats[i], s.hosts[i]);
      RankAboveExit(s.steps, s.bar.generation, s.bar.seats[i], s.hosts[i]);
    case Leaves(_) =>
    case Acquire(_) => StepRankDecreases(s, permits, e);
    case Connected(_) => StepRankDecreases(s, permits, e);
    case Arrives(_) => StepRankDecreases(s, permits, e);
    case Finishes(_) => StepRankDecreases(s, permits, e);
    case _ => WaitRankDecreases(s, permits, e);
  }

  /** Every event, a failure included, brings the end closer. */
  lemma EventDecreases(s: Sys, permits: nat, e: Event)
    requires SysInv(s, permits) && Enabled(s, e)
    ensures Measure(After(s, e)) < Measure(s)
  {
    OnlyOneMoves(s, e);
    RankDecreases(s, permits, e);
    NotifiedWeighAlike(s.hosts, Rank(s.steps));
    TotalUpdate(OthersAfter(s, e), e.host, After(s, e).hosts[e.host], Rank(s.steps));
  }

  lemma {:induction false} RunsAreBounded(
    steps: nat, hosts: nat, permits: nat, states: seq<Sys>, events: seq<Event>, k: nat)
    requires Run(steps, hosts, permits, states, events) && k < |states|
    ensures k + Measure(states[k]) <= hosts * (9 * steps + 3)
  {
    if k == 0 {
      TotalConstant(states[0].hosts, Rank(steps), 9 * steps + 3);
    } else {
      RunsAreBounded(steps, hosts, permits, states, events, k - 1);
      RunsKeepInv(steps, hosts, permits, states, events, k - 1);
      assert Enabled(states[k - 1], events[k - 1]);
      EventDecreases(states[k - 1], permits, events[k - 1]);
    }
  }

  /** A sync run always ends: no run is longer than a bound fixed by the hosts and steps, and
      one that nothing but a failure can extend has every host done and every permit free. */
  lemma SyncRunEnds(steps: nat, hosts: nat, permits: nat, states: seq<Sys>, events: seq<Event>)
    requires permits >= 1 && Run(steps, hosts, permits, states, events)
    ensures |events| <= hosts * (9 * steps + 3)
    ensures (forall e: Event :: Enabled(states[|events|], e) ==> e.Fails?) ==>
              Finished(states[|events|]) && states[|events|].free == permits
  {
    RunsAreBounded(steps, hosts, permits, states, events, |events|);
    RunsKeepInv(steps, hosts, permits, states, events, |events|);
    var s := states[|events|];
    if !Finished(s) {
      var e := SomeHostCanMove(s, permits);
      assert Enabled(s, e);
    } else {
      forall h | h in s.hosts ensures Holds(h) == 0 {
        var i :| 0 <= i < |s.hosts| && s.hosts[i] == h;
      }
      TotalZero(s.hosts, Holds);
    }
  }

  ghost predicate Done(p: Phase) {
    p.Exiting? || p.Gone?
  }

  /** A host comes to its end, when it does not fail, only after its last step. */
  lemma EndsAfterLastStep(s: Sys, permits: nat, e: Event, i: nat)
    requires SysInv(s, permits) && Enabled(s, e) && e != Fails(i) && i < |s.hosts|
    requires Done(After(s, e).hosts[i].phase) && !Done(s.hosts[i].phase)
    ensures After(s, e).hosts[i].completed == s.steps
  {
    OnlyOneMoves(s, e);
    assert HostInv(s.steps, s.bar.generation, s.bar.seats[i], s.hosts[i]);
  }

  /** A host that is done and did not fail has finished every step. */
  lemma {:induction false} LeavingWithoutFailureMeansAllStepsDone(
    steps: nat, hosts: nat, permits: nat, states: seq<Sys>, events: seq<Event>, k: nat, i: nat)
    requires Run(steps, hosts, permits, states, events) && k < |states| && i < hosts
    requires |states[k].hosts| == hosts
    requires forall m :: 0 <= m < k ==> events[m] != Fails(i)
    requires Done(states[k].hosts[i].phase)
    ensures states[k].hosts[i].completed == steps
  {
    if k > 0 {
      RunsKeepInv(steps, hosts, permits, states, events, k - 1);
      var s := states[k - 1];
      assert Enabled(s, events[k - 1]) && states[k] == After(s, events[k - 1]);
      OnlyOneMoves(s, events[k - 1]);
      if Done(s.hosts[i].phase) {
        LeavingWithoutFailureMeansAllStepsDone(steps, hosts, permits, states, events, k - 1, i);
        DoneStaysAsItWas(s, events[k - 1], i);
      } else {
        EndsAfterLastStep(s, permits, events[k - 1], i);
      }
    }
  }

  lemma DoneStaysAsItWas(s: Sys, e: Event, i: nat)
    requires Enabled(s, e) && i < |s.hosts| && Done(s.hosts[i].phase)
    ensures After(s, e).hosts[i].completed == s.hosts[i].completed
  {
  }
}
