/**
 The two-level command gate: every VBoxManage command for a VM takes that VM's
 one-slot channel, then one of the four global slots, runs, and gives both back
 in reverse order. Either wait can be abandoned, by cancellation or by timeout.

 N callers are modelled by their phases; one action of one caller is one step.
 */
module Gate {
  import opened Common

  const MAX_CONCURRENT := 4

  /** ran: the command was started, so it ended; otherwise the caller gave up waiting. */
  datatype Phase =
    | Entering
    | WaitVm
    | WaitSlot
    | Running
    | FreeingSlot
    | FreeingVm(ran: bool)
    | Done(ran: bool)

  /** vm is empty for commands that address no VM; they skip the per-VM channel. */
  datatype Caller = Caller(vm: string, phase: Phase)

  datatype Action = Enter | TakeVm | QuitVm | TakeSlot | QuitSlot | CommandEnds | PutSlot | PutVm

  /** The number of values in each per-VM channel and in the global one, and the callers. */
  datatype State = State(locks: map<string, nat>, slots: nat, callers: seq<Caller>)

  // ---- the steps ----

  function Occupancy(s: State, vm: string): nat {
    if vm in s.locks then s.locks[vm] else 0
  }

  /** A send needs room in the channel; a receive needs a value in it. */
  predicate Enabled(s: State, i: nat, a: Action)
    requires i < |s.callers|
  {
    var c := s.callers[i];
    match a
    case Enter => c.phase == Entering
    case TakeVm => c.phase == WaitVm && Occupancy(s, c.vm) < 1
    case QuitVm => c.phase == WaitVm
    case TakeSlot => c.phase == WaitSlot && s.slots < MAX_CONCURRENT
    case QuitSlot => c.phase == WaitSlot
    case CommandEnds => c.phase == Running
    case PutSlot => c.phase == FreeingSlot && s.slots > 0
    case PutVm => c.phase.FreeingVm? && Occupancy(s, c.vm) > 0
  }

  function Leave(c: Caller, ran: bool): Phase {
    if c.vm == "" then Done(ran) else FreeingVm(ran)
  }

  function Apply(s: State, i: nat, a: Action): (s': State)
    requires i < |s.callers| && Enabled(s, i, a)
    ensures |s'.callers| == |s.callers|
  {
    var c := s.callers[i];
    match a
    case Enter =>
      var locks := if c.vm == "" || c.vm in s.locks then s.locks else s.locks[c.vm := 0];
      Move(s.(locks := locks), i, if c.vm == "" then WaitSlot else WaitVm)
    case TakeVm => Move(s.(locks := s.locks[c.vm := Occupancy(s, c.vm) + 1]), i, WaitSlot)
    case QuitVm => Move(s, i, Done(false))
    case TakeSlot => Move(s.(slots := s.slots + 1), i, Running)
    case QuitSlot => Move(s, i, Leave(c, false))
    case CommandEnds => Move(s, i, FreeingSlot)
    case PutSlot => Move(s.(slots := s.slots - 1), i, Leave(c, true))
    case PutVm => Move(s.(locks := s.locks[c.vm := Occupancy(s, c.vm) - 1]), i, Done(c.phase.ran))
  }

  function Move(s: State, i: nat, phase: Phase): State
    requires i < |s.callers|
  {
    s.(callers := s.callers[i := s.callers[i].(phase := phase)])
  }

  /** A schedule: whose turn it is, and what that caller does. */
  type Schedule = seq<(nat, Action)>

  /** Every step of the schedule is one that was possible at that point. */
  predicate Possible(s: State, sched: Schedule)
    decreases |sched|
  {
    sched != [] ==>
      && sched[0].0 < |s.callers|
      && Enabled(s, sched[0].0, sched[0].1)
      && Possible(Apply(s, sched[0].0, sched[0].1), sched[1..])
  }

  function After(s: State, sched: Schedule): State
    requires Possible(s, sched)
    decreases |sched|
  {
    if sched == [] then s else After(Apply(s, sched[0].0, sched[0].1), sched[1..])
  }

  ghost predicate Initial(s: State) {
    s.locks == map[] && s.slots == 0 && forall c :: c in s.callers ==> c.phase == Entering
  }

  lemma {:induction false} AppendStep(s: State, sched: Schedule, i: nat, a: Action)
    requires Possible(s, sched) && i < |After(s, sched).callers| && Enabled(After(s, sched), i, a)
    ensures Possible(s, sched + [(i, a)]) && After(s, sched + [(i, a)]) == Apply(After(s, sched), i, a)
    decreases |sched|
  {
    if sched == [] {
      assert sched + [(i, a)] == [(i, a)] && [(i, a)][1..] == [];
    } else {
      assert (sched + [(i, a)])[1..] == sched[1..] + [(i, a)];
      AppendStep(Apply(s, sched[0].0, sched[0].1), sched[1..], i, a);
    }
  }

  lemma {:induction false} JoinRuns(s: State, first: Schedule, second: Schedule)
    requires Possible(s, first) && Possible(After(s, first), second)
    ensures Possible(s, first + second) && After(s, first + second) == After(After(s, first), second)
    decreases |second|
  {
    if second == [] {
      assert first + second == first;
    } else {
      AppendStep(s, first, second[0].0, second[0].1);
      JoinRuns(s, first + [second[0]], second[1..]);
      assert first + [second[0]] + second[1..] == first + second;
    }
  }

  // ---- the channels as the code updates them ----

  class CommandGate {
    var locks: map<string, nat>
    var slots: nat
    var callers: seq<Caller>

    function View(): State
      reads this
    {
      State(locks, slots, callers)
    }

    constructor (vms: seq<string>)
      ensures Initial(View()) && |callers| == |vms|
      ensures forall i :: 0 <= i < |vms| ==> callers[i].vm == vms[i]
    {
      locks, slots := map[], 0;
      callers := seq(|vms|, i requires 0 <= i < |vms| => Caller(vms[i], Entering));
    }

    /** The channel of a VM is created on first use and never removed. */
    method ChanFor(id: string)
      modifies `locks
      ensures locks == if id in old(locks) then old(locks) else old(locks)[id := 0]
    {
      if id !in locks {
        locks := locks[id := 0];
      }
    }

    method SetPhase(i: nat, phase: Phase)
      requires i < |callers|
      modifies `callers
      ensures View() == Move(old(View()), i, phase)
    {
      callers := callers[i := callers[i].(phase := phase)];
    }

    /** One action of caller i. Blocked is returned when the channel does not allow it now. */
    method Act(i: nat, a: Action) returns (blocked: bool)
      requires i < |callers|
      modifies this
      ensures blocked == !Enabled(old(View()), i, a)
      ensures View() == if blocked then old(View()) else Apply(old(View()), i, a)
    {
      var c := callers[i];
      blocked := !Enabled(View(), i, a);
      if blocked {
        return;
      }
      match a {
        case Enter =>
          if c.vm == "" {
            SetPhase(i, WaitSlot);
          } else {
            ChanFor(c.vm);
            SetPhase(i, WaitVm);
          }
        case TakeVm =>
          ChanFor(c.vm);
          locks := locks[c.vm := locks[c.vm] + 1];
          SetPhase(i, WaitSlot);
        case QuitVm => SetPhase(i, Done(false));
        case TakeSlot =>
          slots := slots + 1;
          SetPhase(i, Running);
        case QuitSlot => SetPhase(i, if c.vm == "" then Done(false) else FreeingVm(false));
        case CommandEnds => SetPhase(i, FreeingSlot);
        case PutSlot =>
          slots := slots - 1;
          SetPhase(i, if c.vm == "" then Done(true) else FreeingVm(true));
        case PutVm =>
          locks := locks[c.vm := locks[c.vm] - 1];
          SetPhase(i, Done(c.phase.ran));
      }
    }

    /** Waits for a global slot, or gives up; runs the command; gives the slot back. */
    method Exec(i: nat, givesUp: bool) returns (ran: bool, ghost sched: Schedule)
      requires i < |callers| && callers[i].phase == WaitSlot && (givesUp || slots < MAX_CONCURRENT)
      modifies this
      ensures Possible(old(View()), sched) && After(old(View()), sched) == View()
      ensures ran == !givesUp && slots == old(slots) && locks == old(locks)
      ensures callers == old(callers)[i := old(callers)[i].(phase := Leave(old(callers)[i], ran))]
    {
      ghost var s0 := View();
      sched := [];
      if givesUp {
        AppendStep(s0, sched, i, QuitSlot);
        var _ := Act(i, QuitSlot);
        return false, sched + [(i, QuitSlot)];
      }
      AppendStep(s0, sched, i, TakeSlot);
      sched := sched + [(i, TakeSlot)];
      var _ := Act(i, TakeSlot);
      AppendStep(s0, sched, i, CommandEnds);
      sched := sched + [(i, CommandEnds)];
      var _ := Act(i, CommandEnds);
      AppendStep(s0, sched, i, PutSlot);
      sched := sched + [(i, PutSlot)];
      var _ := Act(i, PutSlot);
      ran := true;
    }

    /** Waits for the VM's channel, created on first use, or gives up. */
    method AcquireVm(i: nat, givesUp: bool) returns (taken: bool, ghost sched: Schedule)
      requires i < |callers| && callers[i].phase == Entering && callers[i].vm != ""
      requires givesUp || Occupancy(View(), callers[i].vm) < 1
      modifies this
      ensures Possible(old(View()), sched) && After(old(View()), sched) == View()
      ensures taken == !givesUp && slots == old(slots)
      ensures callers == old(callers)[i := old(callers)[i].(phase := if taken then WaitSlot else Done(false))]
      ensures locks == old(locks)[callers[i].vm := old(Occupancy(View(), callers[i].vm)) + if taken then 1 else 0]
    {
      ghost var s0 := View();
      AppendStep(s0, [], i, Enter);
      sched := [] + [(i, Enter)];
      var _ := Act(i, Enter);
      taken := !givesUp;
      if givesUp {
        AppendStep(s0, sched, i, QuitVm);
        sched := sched + [(i, QuitVm)];
        var _ := Act(i, QuitVm);
      } else {
        AppendStep(s0, sched, i, TakeVm);
        sched := sched + [(i, TakeVm)];
        var _ := Act(i, TakeVm);
      }
    }

    /**
     The whole of one call when nobody comes in between: wait for the VM's channel,
     or give up; run the command within a global slot; give the channel back. On
     every path the channels hold afterwards what they held before.
     */
    method RunForVM(i: nat, givesUpVm: bool, givesUpSlot: bool) returns (ran: bool, ghost sched: Schedule)
      requires i < |callers| && callers[i].phase == Entering && callers[i].vm != ""
      requires givesUpVm || Occupancy(View(), callers[i].vm) < 1
      requires givesUpSlot || slots < MAX_CONCURRENT
      modifies this
      ensures Possible(old(View()), sched) && After(old(View()), sched) == View()
      ensures ran == (!givesUpVm && !givesUpSlot)
      ensures callers == old(callers)[i := old(callers)[i].(phase := Done(ran))]
      ensures slots == old(slots) && forall vm :: Occupancy(View(), vm) == old(Occupancy(View(), vm))
    {
      ghost var s0 := View();
      var taken;
      taken, sched := AcquireVm(i, givesUpVm);
      if !taken {
        return false, sched;
      }
      ghost var more;
      ran, more := Exec(i, givesUpSlot);
      JoinRuns(s0, sched, more);
      sched := sched + more;
      AppendStep(s0, sched, i, PutVm);
      sched := sched + [(i, PutVm)];
      var _ := Act(i, PutVm);
    }
  }

  // ---- safety ----

  predicate HoldsVm(c: Caller, vm: string) {
    vm != "" && c.vm == vm && (c.phase.WaitSlot? || c.phase.Running? || c.phase.FreeingSlot? || c.phase.FreeingVm?)
  }

  predicate HoldsSlot(c: Caller) {
    c.phase.Running? || c.phase.FreeingSlot?
  }

  ghost function VmHolders(s: State, vm: string): set<nat> {
    set i: nat | i < |s.callers| && HoldsVm(s.callers[i], vm)
  }

  ghost function SlotHolders(s: State): set<nat> {
    set i: nat | i < |s.callers| && HoldsSlot(s.callers[i])
  }

  ghost function RunningCallers(s: State): set<nat> {
    set i: nat | i < |s.callers| && s.callers[i].phase.Running?
  }

  /** Each channel holds exactly one value per holder, and never more than it has room for. */
  ghost predicate Inv(s: State) {
    && s.slots == |SlotHolders(s)| <= MAX_CONCURRENT
    && (forall vm :: Occupancy(s, vm) == |VmHolders(s, vm)| <= 1)
    && (forall i: nat :: i < |s.callers| && s.callers[i].vm == "" ==>
          !s.callers[i].phase.WaitVm? && !s.callers[i].phase.FreeingVm?)
  }

  lemma SlotHoldersStep(s: State, i: nat, a: Action)
    requires i < |s.callers| && Enabled(s, i, a)
    ensures var s' := Apply(s, i, a);
            SlotHolders(s') == (if a == TakeSlot then SlotHolders(s) + {i} else if a == PutSlot then SlotHolders(s) - {i} else SlotHolders(s))
  {
  }

  lemma HoldersAfterMove(s: State, s': State, i: nat, vm: string)
    requires i < |s.callers| && |s'.callers| == |s.callers| && s'.callers == s.callers[i := s'.callers[i]]
    ensures VmHolders(s', vm) == if HoldsVm(s'.callers[i], vm) then VmHolders(s, vm) + {i} else VmHolders(s, vm) - {i}
  {
  }

  lemma HoldingStep(s: State, i: nat, a: Action, vm: string)
    requires i < |s.callers| && Enabled(s, i, a) && Inv(s)
    ensures var c, c' := s.callers[i], Apply(s, i, a).callers[i];
            HoldsVm(c', vm) == (if vm != c.vm then false else if a == TakeVm then true else if a == PutVm then false else HoldsVm(c, vm))
  {
  }

  lemma VmHoldersStep(s: State, i: nat, a: Action, vm: string)
    requires i < |s.callers| && Enabled(s, i, a) && Inv(s)
    ensures VmHolders(Apply(s, i, a), vm)
            == if vm == s.callers[i].vm && a == TakeVm then VmHolders(s, vm) + {i}
               else if vm == s.callers[i].vm && a == PutVm then VmHolders(s, vm) - {i}
               else VmHolders(s, vm)
  {
    HoldersAfterMove(s, Apply(s, i, a), i, vm);
    HoldingStep(s, i, a, vm);
  }

  lemma OccupancyStep(s: State, i: nat, a: Action, vm: string)
    requires i < |s.callers| && Enabled(s, i, a) && (s.callers[i].vm == "" ==> a != TakeVm && a != PutVm)
    ensures Occupancy(Apply(s, i, a), vm)
            == Occupancy(s, vm) + if vm != s.callers[i].vm then 0 else if a == TakeVm then 1 else if a == PutVm then -1 else 0
  {
  }

  lemma OneInOrOut(holders: set<nat>, i: nat)
    ensures i !in holders ==> |holders + {i}| == |holders| + 1
    ensures i in holders ==> |holders - {i}| == |holders| - 1
  {
  }

  lemma VmChannelStep(s: State, i: nat, a: Action, vm: string)
    requires i < |s.callers| && Enabled(s, i, a) && Inv(s)
    ensures Occupancy(Apply(s, i, a), vm) == |VmHolders(Apply(s, i, a), vm)| <= 1
  {
    VmHoldersStep(s, i, a, vm);
    OccupancyStep(s, i, a, vm);
    OneInOrOut(VmHolders(s, vm), i);
    assert Occupancy(s, vm) == |VmHolders(s, vm)|;
  }

  lemma SlotChannelStep(s: State, i: nat, a: Action)
    requires i < |s.callers| && Enabled(s, i, a) && Inv(s)
    ensures Apply(s, i, a).slots == |SlotHolders(Apply(s, i, a))| <= MAX_CONCURRENT
  {
    SlotHoldersStep(s, i, a);
    if a == PutSlot {
      assert i in SlotHolders(s);
    }
  }

  lemma StepKeepsInv(s: State, i: nat, a: Action)
    requires i < |s.callers| && Enabled(s, i, a) && Inv(s)
    ensures Inv(Apply(s, i, a))
  {
    SlotChannelStep(s, i, a);
    forall vm
      ensures Occupancy(Apply(s, i, a), vm) == |VmHolders(Apply(s, i, a), vm)| <= 1
    {
      VmChannelStep(s, i, a, vm);
    }
  }

  lemma {:induction false} RunKeepsInv(s: State, sched: Schedule)
    requires Inv(s) && Possible(s, sched)
    ensures Inv(After(s, sched)) && |After(s, sched).callers| == |s.callers|
    decreases |sched|
  {
    if sched != [] {
      StepKeepsInv(s, sched[0].0, sched[0].1);
      RunKeepsInv(Apply(s, sched[0].0, sched[0].1), sched[1..]);
    }
  }

  lemma InitialInv(s: State)
    requires Initial(s)
    ensures Inv(s)
  {
    assert SlotHolders(s) == {};
    forall vm
      ensures Occupancy(s, vm) == |VmHolders(s, vm)|
    {
      assert VmHolders(s, vm) == {};
    }
  }

  lemma AtMostOne(a: set<nat>, i: nat, j: nat)
    requires i in a && j in a && |a| <= 1
    ensures i == j
  {
    if i != j {
      assert {i, j} <= a;
      SubsetSize({i, j}, a);
    }
  }

  /**
   In every interleaving, cancellations and timeouts included: no two commands
   for the same VM run at once, and at most four commands run in all.
   */
  lemma GateSafety(s0: State, sched: Schedule)
    requires Initial(s0) && Possible(s0, sched)
    ensures var s := After(s0, sched);
            && (forall i: nat, j: nat :: i < j < |s.callers| && s.callers[i].phase.Running? && s.callers[j].phase.Running? ==>
                  s.callers[i].vm == "" || s.callers[i].vm != s.callers[j].vm)
            && |RunningCallers(s)| <= MAX_CONCURRENT
  {
    InitialInv(s0);
    RunKeepsInv(s0, sched);
    var s := After(s0, sched);
    SubsetSize(RunningCallers(s), SlotHolders(s));
    forall i: nat, j: nat | i < j < |s.callers| && s.callers[i].phase.Running? && s.callers[j].phase.Running?
      ensures s.callers[i].vm == "" || s.callers[i].vm != s.callers[j].vm
    {
      var vm := s.callers[i].vm;
      if vm != "" && vm == s.callers[j].vm {
        assert Occupancy(s, vm) == |VmHolders(s, vm)|;
        AtMostOne(VmHolders(s, vm), i, j);
      }
    }
  }

  /** Callers of a VM that hold its channel, and callers that hold a global slot: those past their wait and not yet done with it. */
  predicate PastVmWait(c: Caller) {
    c.phase.WaitSlot? || c.phase.Running? || c.phase.FreeingSlot? || c.phase.FreeingVm?
  }

  /**
   In every interleaving a caller waits only while it has to: it can take its VM's
   channel exactly when no other caller is past its wait for that VM, and a global
   slot exactly when fewer than four callers hold one.
   */
  lemma WaitsOnlyWhileHeld(s0: State, sched: Schedule, i: nat)
    requires Initial(s0) && Possible(s0, sched) && i < |After(s0, sched).callers|
    ensures var s := After(s0, sched);
            && (s.callers[i].phase == WaitVm ==>
                  (Enabled(s, i, TakeVm) <==>
                     forall j :: 0 <= j < |s.callers| && s.callers[j].vm == s.callers[i].vm ==> !PastVmWait(s.callers[j])))
            && (s.callers[i].phase == WaitSlot ==> (Enabled(s, i, TakeSlot) <==> |SlotHolders(s)| < 4))
  {
    InitialInv(s0);
    RunKeepsInv(s0, sched);
    var s := After(s0, sched);
    var vm := s.callers[i].vm;
    if s.callers[i].phase == WaitVm {
      assert vm != "";
      assert Occupancy(s, vm) == |VmHolders(s, vm)| <= 1;
      if Enabled(s, i, TakeVm) {
        assert VmHolders(s, vm) == {};
        forall j | 0 <= j < |s.callers| && s.callers[j].vm == vm
          ensures !PastVmWait(s.callers[j])
        {
          assert j !in VmHolders(s, vm);
        }
      } else {
        var j :| j in VmHolders(s, vm);
      }
    }
  }

  // ---- giving back ----

  function Count(sched: Schedule, i: nat, a: Action): nat {
    if sched == [] then 0 else (if sched[0] == (i, a) then 1 else 0) + Count(sched[1..], i, a)
  }

  function Held(b: bool): int {
    if b then 1 else 0
  }

  lemma StepTakesOrPuts(s: State, j: nat, a: Action, i: nat)
    requires Inv(s) && j < |s.callers| && i < |s.callers| && Enabled(s, j, a)
    ensures var c, c' := s.callers[i], Apply(s, j, a).callers[i];
            && c'.vm == c.vm
            && Held(i == j && a == TakeVm) - Held(i == j && a == PutVm) == Held(HoldsVm(c', c.vm)) - Held(HoldsVm(c, c.vm))
            && Held(i == j && a == TakeSlot) - Held(i == j && a == PutSlot) == Held(HoldsSlot(c')) - Held(HoldsSlot(c))
  {
  }

  lemma {:induction false} TakenMinusPut(s: State, sched: Schedule, i: nat)
    requires Inv(s) && Possible(s, sched) && i < |s.callers|
    ensures var s' := After(s, sched);
            && i < |s'.callers| && s'.callers[i].vm == s.callers[i].vm
            && Count(sched, i, TakeVm) - Count(sched, i, PutVm)
               == Held(HoldsVm(s'.callers[i], s.callers[i].vm)) - Held(HoldsVm(s.callers[i], s.callers[i].vm))
            && Count(sched, i, TakeSlot) - Count(sched, i, PutSlot)
               == Held(HoldsSlot(s'.callers[i])) - Held(HoldsSlot(s.callers[i]))
    decreases |sched|
  {
    if sched != [] {
      var j, a := sched[0].0, sched[0].1;
      StepTakesOrPuts(s, j, a, i);
      StepKeepsInv(s, j, a);
      TakenMinusPut(Apply(s, j, a), sched[1..], i);
    }
  }

  function Quits(sched: Schedule, i: nat): nat {
    Count(sched, i, QuitVm) + Count(sched, i, QuitSlot)
  }

  /** Whether the caller's command has ended, and whether it has given up, as its phase says. */
  predicate HasRun(c: Caller) {
    c.phase.FreeingSlot? || (c.phase.FreeingVm? && c.phase.ran) || (c.phase.Done? && c.phase.ran)
  }

  predicate HasQuit(c: Caller) {
    (c.phase.FreeingVm? && !c.phase.ran) || (c.phase.Done? && !c.phase.ran)
  }

  lemma StepRunsOrQuits(s: State, j: nat, a: Action, i: nat)
    requires j < |s.callers| && i < |s.callers| && Enabled(s, j, a)
    ensures var c, c' := s.callers[i], Apply(s, j, a).callers[i];
            && Held(HasRun(c')) - Held(HasRun(c)) == Held(i == j && a == CommandEnds)
            && Held(HasQuit(c')) - Held(HasQuit(c)) == Held(i == j && (a == QuitVm || a == QuitSlot))
  {
  }

  lemma {:induction false} RunsAndQuits(s: State, sched: Schedule, i: nat)
    requires Possible(s, sched) && i < |s.callers|
    ensures var s' := After(s, sched);
            && i < |s'.callers|
            && Count(sched, i, CommandEnds) == Held(HasRun(s'.callers[i])) - Held(HasRun(s.callers[i]))
            && Quits(sched, i) == Held(HasQuit(s'.callers[i])) - Held(HasQuit(s.callers[i]))
    decreases |sched|
  {
    if sched != [] {
      StepRunsOrQuits(s, sched[0].0, sched[0].1, i);
      RunsAndQuits(Apply(s, sched[0].0, sched[0].1), sched[1..], i);
    }
  }

  /**
   A caller that has left either ran its command, once, and never gave up, or gave up,
   once, and ran nothing; which of the two is what it reports. This goes for commands
   that address no VM too.
   */
  lemma LeavesByRunOrQuit(s0: State, sched: Schedule, i: nat)
    requires Initial(s0) && Possible(s0, sched) && i < |s0.callers|
    ensures i < |After(s0, sched).callers|
    ensures var phase := After(s0, sched).callers[i].phase;
            phase.Done? ==>
              && Count(sched, i, CommandEnds) == (if phase.ran then 1 else 0)
              && Quits(sched, i) == (if phase.ran then 0 else 1)
  {
    assert s0.callers[i] in s0.callers;
    RunsAndQuits(s0, sched, i);
  }

  /** Whichever way a caller leaves, it has put back into each channel exactly what it took. */
  lemma EveryExitGivesBack(s0: State, sched: Schedule, i: nat)
    requires Initial(s0) && Possible(s0, sched) && i < |s0.callers|
    ensures i < |After(s0, sched).callers|
    ensures After(s0, sched).callers[i].phase.Done? ==>
              && Count(sched, i, TakeVm) == Count(sched, i, PutVm)
              && Count(sched, i, TakeSlot) == Count(sched, i, PutSlot)
  {
    InitialInv(s0);
    assert s0.callers[i] in s0.callers;
    TakenMinusPut(s0, sched, i);
  }

  // ---- progress ----

  predicate Voluntary(a: Action) {
    a != QuitVm && a != QuitSlot
  }

  ghost predicate CanProceed(s: State) {
    exists i: nat, a :: i < |s.callers| && Voluntary(a) && Enabled(s, i, a)
  }

  /**
   No deadlock: as long as some caller is unfinished, some caller can take a step
   that is neither a cancellation nor a timeout.
   */
  lemma NoDeadlock(s: State, i: nat)
    requires Inv(s) && i < |s.callers| && !s.callers[i].phase.Done?
    ensures CanProceed(s)
  {
    var c := s.callers[i];
    match c.phase {
      case Entering => assert Enabled(s, i, Enter);
      case WaitVm =>
        if Occupancy(s, c.vm) < 1 {
          assert Enabled(s, i, TakeVm);
        } else {
          assert Occupancy(s, c.vm) == |VmHolders(s, c.vm)|;
          var j :| j in VmHolders(s, c.vm);
          HolderProceeds(s, j);
        }
      case _ => HolderProceeds(s, i);
    }
  }

  lemma HolderProceeds(s: State, i: nat)
    requires Inv(s) && i < |s.callers|
    requires s.callers[i].phase.WaitSlot? || s.callers[i].phase.Running? || s.callers[i].phase.FreeingSlot? || s.callers[i].phase.FreeingVm?
    ensures CanProceed(s)
  {
    var c := s.callers[i];
    match c.phase {
      case WaitSlot =>
        if s.slots < MAX_CONCURRENT {
          assert Enabled(s, i, TakeSlot);
        } else {
          var j :| j in SlotHolders(s);
          SlotHolderProceeds(s, j);
        }
      case FreeingVm(_) =>
        assert i in VmHolders(s, c.vm);
        assert Occupancy(s, c.vm) == |VmHolders(s, c.vm)|;
        assert Enabled(s, i, PutVm);
      case _ => SlotHolderProceeds(s, i);
    }
  }

  lemma SlotHolderProceeds(s: State, i: nat)
    requires Inv(s) && i in SlotHolders(s)
    ensures CanProceed(s)
  {
    if s.callers[i].phase.Running? {
      assert Enabled(s, i, CommandEnds);
    } else {
      assert Enabled(s, i, PutSlot);
    }
  }

  function Rank(p: Phase): nat {
    match p
    case Entering => 6
    case WaitVm => 5
    case WaitSlot => 4
    case Running => 3
    case FreeingSlot => 2
    case FreeingVm(_) => 1
    case Done(_) => 0
  }

  /** How many steps the callers can still take between them. */
  function Work(cs: seq<Caller>): nat {
    if cs == [] then 0 else Rank(cs[0].phase) + Work(cs[1..])
  }

  lemma {:induction false} WorkUpdate(cs: seq<Caller>, i: nat, c: Caller)
    requires i < |cs|
    ensures Work(cs[i := c]) == Work(cs) - Rank(cs[i].phase) + Rank(c.phase)
    decreases |cs|
  {
    if i > 0 {
      assert cs[i := c][1..] == cs[1..][i - 1 := c];
      WorkUpdate(cs[1..], i - 1, c);
    } else {
      assert cs[i := c][1..] == cs[1..];
    }
  }

  lemma StepDoesWork(s: State, i: nat, a: Action)
    requires i < |s.callers| && Enabled(s, i, a)
    ensures Work(Apply(s, i, a).callers) < Work(s.callers)
  {
    WorkUpdate(s.callers, i, Apply(s, i, a).callers[i]);
  }

  lemma {:induction false} InitialWork(cs: seq<Caller>)
    requires forall c :: c in cs ==> c.phase == Entering
    ensures Work(cs) == 6 * |cs|
  {
    if cs != [] {
      InitialWork(cs[1..]);
    }
  }

  lemma {:induction false} WorkBoundsSchedule(s: State, sched: Schedule)
    requires Possible(s, sched)
    ensures |sched| + Work(After(s, sched).callers) <= Work(s.callers)
    decreases |sched|
  {
    if sched != [] {
      StepDoesWork(s, sched[0].0, sched[0].1);
      WorkBoundsSchedule(Apply(s, sched[0].0, sched[0].1), sched[1..]);
    }
  }

  /**
   N callers, whatever the interleaving, take at most 6N steps between them; and
   when no further step is possible every one of them has finished and every
   channel is empty again.
   */
  lemma EveryoneFinishes(s0: State, sched: Schedule)
    requires Initial(s0) && Possible(s0, sched)
    ensures |sched| <= 6 * |s0.callers|
    ensures !CanProceed(After(s0, sched)) ==>
              && (forall c :: c in After(s0, sched).callers ==> c.phase.Done?)
              && After(s0, sched).slots == 0
              && (forall vm :: Occupancy(After(s0, sched), vm) == 0)
  {
    InitialInv(s0);
    InitialWork(s0.callers);
    WorkBoundsSchedule(s0, sched);
    RunKeepsInv(s0, sched);
    var s := After(s0, sched);
    if !CanProceed(s) {
      forall i: nat | i < |s.callers|
        ensures s.callers[i].phase.Done?
      {
        if !s.callers[i].phase.Done? {
          NoDeadlock(s, i);
        }
      }
      assert SlotHolders(s) == {};
      forall vm
        ensures Occupancy(s, vm) == 0
      {
        assert VmHolders(s, vm) == {};
        assert Occupancy(s, vm) == |VmHolders(s, vm)|;
      }
    }
  }
}
