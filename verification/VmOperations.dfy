/**
 Requests against one VM, interleaved. A handler takes the VM's operation lock
 without waiting (or answers "conflict"), reads the VM's state, and only then
 issues its command; clone and export do so in a background job that inherits
 the lock, after an earlier check made without it.

 The environment may change the VM's state at any moment, but only a command of
 the agent makes a VM live that was not.
 */
module VmOperations {
  import opened Common

  /** The states in which VirtualBox is executing the machine. */
  predicate VmStateIsLive(state: string) {
    state in {"running", "paused", "stuck", "starting", "restoring"}
  }

  /**
   StartVm: start or resume. Control: stop, reset, save state, power off.
   Guarded: delete, change hardware, resize, add or detach a disk.
   Restore: snapshot restore, which powers a live VM off first.
   Background: clone and export.
   */
  datatype Kind = StartVm | Control | Guarded | Restore | Background

  datatype Outcome = Rejected | Conflict | Failed | Succeeded | Panicked

  /**
   Cleared: the VM was read as not live under the lock, the command comes next.
   Issued: the command is running. Unlocked: a background job whose work is over
   and whose lock is back, but whose status does not say so yet.
   */
  datatype Phase =
    | Fresh
    | PreChecked
    | Locked
    | MustPowerOff
    | Polling
    | Cleared
    | Issued
    | Unlocked(outcome: Outcome)
    | Over(outcome: Outcome)

  /** id is the VM's identifier as the request spells it: letter case is not normalised. */
  datatype Request = Request(kind: Kind, id: string, phase: Phase)

  /** locks says, for each spelling whose lock is held, which request holds it. All requests are for the one VM. */
  datatype System = System(vm: string, locks: map<string, nat>, requests: seq<Request>)

  /**
   Act is one attempt at a start or control command and carries the state it
   leaves the VM in, whether or not it succeeds; it may be retried before Return.
   GiveUp is a failed read, power-off or wait, or a time-out.
   */
  datatype Action =
    | PreCheck
    | TryLock
    | Read
    | Act(vm: string)
    | Return(ok: bool)
    | PowerOff(vm: string)
    | Poll
    | Issue
    | Finish(vm: string, ok: bool)
    | GiveUp
    | Panic
    | ReportJob

  /** A turn of request i, or a change of the VM by itself. */
  datatype Event = Turn(i: nat, action: Action) | Drift(vm: string)

  predicate Holding(p: Phase) {
    p.Locked? || p.MustPowerOff? || p.Polling? || p.Cleared? || p.Issued?
  }

  /** What a command that does not start the VM, or the guest itself, may do to its state. */
  predicate NotStarted(before: string, after: string) {
    VmStateIsLive(after) ==> VmStateIsLive(before)
  }

  predicate Enabled(s: System, e: Event) {
    match e
    case Drift(vm) => NotStarted(s.vm, vm)
    case Turn(i, action) =>
      && i < |s.requests|
      && var r := s.requests[i];
         match action
         case PreCheck => r.kind == Background && r.phase == Fresh
         case TryLock => r.phase == (if r.kind == Background then PreChecked else Fresh)
         case Read => r.phase == Locked && r.kind in {Guarded, Restore, Background}
         case Act(vm) => r.phase == Locked && (r.kind == StartVm || (r.kind == Control && NotStarted(s.vm, vm)))
         case Return(ok) => r.phase == Locked && r.kind in {StartVm, Control}
         case PowerOff(vm) => r.phase == MustPowerOff && NotStarted(s.vm, vm)
         case Poll => r.phase == Polling
         case Issue => r.phase == Cleared
         case Finish(vm, ok) => r.phase == Issued && NotStarted(s.vm, vm)
         case GiveUp => Holding(r.phase) && r.phase != Issued
         case Panic => Holding(r.phase)
         case ReportJob => r.phase.Unlocked?
  }

  function Move(s: System, i: nat, p: Phase): System
    requires i < |s.requests|
  {
    s.(requests := s.requests[i := s.requests[i].(phase := p)])
  }

  /** The deferred unlock; a background job still has to report afterwards. */
  function Release(s: System, i: nat, o: Outcome): System
    requires i < |s.requests|
  {
    Move(s.(locks := s.locks - {s.requests[i].id}), i, if s.requests[i].kind == Background then Unlocked(o) else Over(o))
  }

  function Apply(s: System, e: Event): (s': System)
    requires Enabled(s, e)
    ensures |s'.requests| == |s.requests|
  {
    match e
    case Drift(vm) => s.(vm := vm)
    case Turn(i, action) =>
      var live := VmStateIsLive(s.vm);
      match action
      case PreCheck => Move(s, i, if live then Over(Rejected) else PreChecked)
      case TryLock =>
        if s.requests[i].id in s.locks then Move(s, i, Over(Conflict))
        else Move(s.(locks := s.locks[s.requests[i].id := i]), i, Locked)
      case Read =>
        if !live then Move(s, i, Cleared)
        else if s.requests[i].kind == Restore then Move(s, i, MustPowerOff)
        else Release(s, i, Rejected)
      case Act(vm) => s.(vm := vm)
      case Return(ok) => Release(s, i, if ok then Succeeded else Failed)
      case PowerOff(vm) => Move(s.(vm := vm), i, Polling)
      case Poll => if live then s else Move(s, i, Cleared)
      case Issue => Move(s, i, Issued)
      case Finish(vm, ok) => Release(s.(vm := vm), i, if ok then Succeeded else Failed)
      case GiveUp => Release(s, i, Failed)
      case Panic => Release(s, i, Panicked)
      case ReportJob => Move(s, i, Over(s.requests[i].phase.outcome))
  }

  predicate Possible(s: System, run: seq<Event>)
    decreases |run|
  {
    run != [] ==> Enabled(s, run[0]) && Possible(Apply(s, run[0]), run[1..])
  }

  function After(s: System, run: seq<Event>): System
    requires Possible(s, run)
    decreases |run|
  {
    if run == [] then s else After(Apply(s, run[0]), run[1..])
  }

  predicate Initial(s: System) {
    s.locks == map[] && forall i :: 0 <= i < |s.requests| ==> s.requests[i].phase == Fresh
  }

  // ---- the lock ----

  predicate Holds(s: System, i: nat) {
    i < |s.requests| && s.requests[i].id in s.locks && s.locks[s.requests[i].id] == i
  }

  /** Each lock is held by exactly the request inside its critical section. */
  ghost predicate LockInv(s: System) {
    forall i: nat :: i < |s.requests| ==> (Holding(s.requests[i].phase) <==> Holds(s, i))
  }

  lemma StepKeepsLock(s: System, e: Event)
    requires LockInv(s) && Enabled(s, e)
    ensures LockInv(Apply(s, e))
  {
    if e.Turn? {
      assert Holding(s.requests[e.i].phase) <==> Holds(s, e.i);
    }
  }

  lemma {:induction false} RunKeepsLock(s: System, run: seq<Event>)
    requires LockInv(s) && Possible(s, run)
    ensures LockInv(After(s, run))
    decreases |run|
  {
    if run != [] {
      StepKeepsLock(s, run[0]);
      RunKeepsLock(Apply(s, run[0]), run[1..]);
    }
  }

  lemma InitialLock(s: System)
    requires Initial(s)
    ensures LockInv(s)
  {
  }

  lemma {:induction false} RequestsStay(s: System, run: seq<Event>, i: nat)
    requires Possible(s, run) && i < |s.requests|
    ensures |After(s, run).requests| == |s.requests|
    ensures After(s, run).requests[i].kind == s.requests[i].kind && After(s, run).requests[i].id == s.requests[i].id
    decreases |run|
  {
    if run != [] {
      RequestsStay(Apply(s, run[0]), run[1..], i);
    }
  }

  /** Two requests that spell the VM alike are never inside their critical sections together, and one that is over holds nothing. */
  lemma LockExcludes(s0: System, run: seq<Event>, i: nat, j: nat)
    requires Initial(s0) && Possible(s0, run) && i < |s0.requests| && j < |s0.requests| && i != j
    requires s0.requests[i].id == s0.requests[j].id
    ensures var s := After(s0, run);
            && |s.requests| == |s0.requests|
            && !(Holding(s.requests[i].phase) && Holding(s.requests[j].phase))
            && (s.requests[i].phase.Over? || s.requests[i].phase.Unlocked? ==> !Holds(s, i))
  {
    InitialLock(s0);
    RunKeepsLock(s0, run);
    RequestsStay(s0, run, i);
    RequestsStay(s0, run, j);
    assert Holds(After(s0, run), i) && Holds(After(s0, run), j) ==> i == j;
  }

  /**
   Whenever a clone or export job that got its lock is seen finished, rejected by
   the second read or panicked included, it was not holding its lock just before.
   That the lock comes back before the report is proved in JobSafety.
   */
  lemma LockBackBeforeReport(s0: System, run: seq<Event>, e: Event, i: nat)
    requires Initial(s0) && Possible(s0, run) && Enabled(After(s0, run), e)
    requires i < |s0.requests| && s0.requests[i].kind == Background
    ensures var s, s' := After(s0, run), Apply(After(s0, run), e);
            && |s.requests| == |s0.requests|
            && (s'.requests[i].phase.Over? && !s.requests[i].phase.Over? && !s.requests[i].phase.Fresh? && !s.requests[i].phase.PreChecked? ==>
                  s.requests[i].phase.Unlocked? && !Holds(s, i))
  {
    InitialLock(s0);
    RunKeepsLock(s0, run);
    RequestsStay(s0, run, i);
  }

  // ---- commands find the VM stopped ----

  /** The requests that read the VM's state before they act on it. */
  predicate Checks(k: Kind) {
    k in {Guarded, Restore, Background}
  }

  /** Requests that start the VM spell it as do those that need it stopped. */
  ghost predicate SpeltAlike(s: System) {
    forall i, j :: 0 <= i < |s.requests| && 0 <= j < |s.requests| && Checks(s.requests[i].kind) && s.requests[j].kind == StartVm ==>
      s.requests[i].id == s.requests[j].id
  }

  /** Request i is about to issue its command, or is running it. */
  predicate Acting(s: System, i: nat) {
    i < |s.requests| && (s.requests[i].phase.Cleared? || s.requests[i].phase.Issued?)
  }

  ghost predicate StoppedInv(s: System) {
    && (forall i: nat :: Acting(s, i) ==> !VmStateIsLive(s.vm) && Checks(s.requests[i].kind))
    && (forall i: nat :: i < |s.requests| && (s.requests[i].phase.MustPowerOff? || s.requests[i].phase.Polling?) ==> s.requests[i].kind == Restore)
  }

  lemma StepKeepsStopped(s: System, e: Event)
    requires LockInv(s) && StoppedInv(s) && SpeltAlike(s) && Enabled(s, e)
    ensures StoppedInv(Apply(s, e)) && SpeltAlike(Apply(s, e))
  {
    forall i: nat | Acting(s, i)
      ensures Holds(s, i)
    {
    }
    if e.Turn? {
      assert Holding(s.requests[e.i].phase) <==> Holds(s, e.i);
    }
  }

  lemma {:induction false} RunKeepsStopped(s: System, run: seq<Event>)
    requires LockInv(s) && StoppedInv(s) && SpeltAlike(s) && Possible(s, run)
    ensures StoppedInv(After(s, run))
    decreases |run|
  {
    if run != [] {
      StepKeepsStopped(s, run[0]);
      StepKeepsLock(s, run[0]);
      RunKeepsStopped(Apply(s, run[0]), run[1..]);
    }
  }

  lemma AppendStep(s: System, run: seq<Event>, e: Event)
    requires Possible(s, run) && Enabled(After(s, run), e)
    ensures Possible(s, run + [e]) && After(s, run + [e]) == Apply(After(s, run), e)
    decreases |run|
  {
    if run == [] {
      assert run + [e] == [e] && [e][1..] == [];
    } else {
      assert (run + [e])[1..] == run[1..] + [e];
      AppendStep(Apply(s, run[0]), run[1..], e);
    }
  }

  /** The run on which request i is cleared, and then j, who spells the VM differently, starts it. */
  function StartBehind(i: nat, j: nat, background: bool): seq<Event> {
    [Drift("poweroff")] + (if background then [Turn(i, PreCheck)] else []) + [Turn(i, TryLock)] + [Turn(i, Read)]
      + [Turn(j, TryLock)] + [Turn(j, Act("running"))]
  }

  lemma StartBehindRuns(s0: System, i: nat, j: nat)
    requires Initial(s0) && i < |s0.requests| && j < |s0.requests| && s0.requests[i].id != s0.requests[j].id
    requires Checks(s0.requests[i].kind) && s0.requests[j].kind == StartVm
    ensures var run := StartBehind(i, j, s0.requests[i].kind == Background);
            Possible(s0, run) && Acting(After(s0, run), i) && VmStateIsLive(After(s0, run).vm)
  {
    var background := s0.requests[i].kind == Background;
    assert Possible(Apply(s0, Drift("poweroff")), []);
    AppendStep(s0, [], Drift("poweroff"));
    var run := [Drift("poweroff")];
    assert [] + run == run;
    if background {
      AppendStep(s0, run, Turn(i, PreCheck));
      run := run + [Turn(i, PreCheck)];
    }
    assert run == [Drift("poweroff")] + (if background then [Turn(i, PreCheck)] else []);
    AppendStep(s0, run, Turn(i, TryLock));
    AppendStep(s0, run + [Turn(i, TryLock)], Turn(i, Read));
    var read := run + [Turn(i, TryLock)] + [Turn(i, Read)];
    AppendStep(s0, read, Turn(j, TryLock));
    AppendStep(s0, read + [Turn(j, TryLock)], Turn(j, Act("running")));
  }

  /** In every interleaving, a request that issues its command or is running it finds the VM not live. */
  ghost predicate AlwaysStopped(s0: System) {
    forall run, i: nat :: Possible(s0, run) && Acting(After(s0, run), i) ==> !VmStateIsLive(After(s0, run).vm)
  }

  /**
   In every interleaving, whenever a clone, export, delete, hardware change, disk
   operation or snapshot restore is issued, and for as long as it runs, the VM is
   not live, if and only if the requests that start the VM spell its identifier as
   those others do: the lock is found by the spelling.
   */
  lemma CommandsFindVmStopped(s0: System)
    requires Initial(s0)
    ensures AlwaysStopped(s0) <==> SpeltAlike(s0)
  {
    if SpeltAlike(s0) {
      InitialLock(s0);
      forall run, i: nat | Possible(s0, run) && Acting(After(s0, run), i)
        ensures !VmStateIsLive(After(s0, run).vm)
      {
        RunKeepsStopped(s0, run);
      }
    } else {
      var i: nat, j: nat :| i < |s0.requests| && j < |s0.requests| && Checks(s0.requests[i].kind) && s0.requests[j].kind == StartVm
        && s0.requests[i].id != s0.requests[j].id;
      StartBehindRuns(s0, i, j);
    }
  }

  const STOPPED := System("poweroff", map[], [Request(Background, "vm", Fresh), Request(StartVm, "vm", Fresh)])
  const STARTED := System("running", map[], [Request(Background, "vm", PreChecked), Request(StartVm, "vm", Over(Succeeded))])

  /** A clone passes its first check, and then the VM is started. */
  function StartAfterCheck(): seq<Event> {
    [Turn(0, PreCheck), Turn(1, TryLock), Turn(1, Act("running")), Turn(1, Return(true))]
  }

  function LockThenRead(): seq<Event> {
    [Turn(0, TryLock), Turn(0, Read)]
  }

  lemma StartAfterCheckRuns()
    ensures Possible(STOPPED, StartAfterCheck()) && After(STOPPED, StartAfterCheck()) == STARTED
  {
    var run := StartAfterCheck();
    assert run[1..] == [Turn(1, TryLock), Turn(1, Act("running")), Turn(1, Return(true))];
    assert run[1..][1..] == [Turn(1, Act("running")), Turn(1, Return(true))];
    assert run[1..][1..][1..] == [Turn(1, Return(true))];
    assert run[1..][1..][1..][1..] == [];
    var s1 := Apply(STOPPED, run[0]);
    var s2 := Apply(s1, run[1]);
    var s3 := Apply(s2, run[2]);
    assert Apply(s3, run[3]) == STARTED;
    assert Possible(s3, [run[3]]) && After(s3, [run[3]]) == STARTED;
    assert Possible(s2, run[1..][1..]) && After(s2, run[1..][1..]) == STARTED;
  }

  lemma SecondReadRejects()
    ensures Possible(STARTED, LockThenRead()) && After(STARTED, LockThenRead()).requests[0].phase == Unlocked(Rejected)
  {
    assert LockThenRead()[1..] == [Turn(0, Read)] && [Turn(0, Read)][1..] == [];
  }

  /**
   The check a clone or export makes before it has the lock guarantees nothing:
   here the VM is started between that check and the lock. It is the second read,
   under the lock, that turns the job away.
   */
  lemma PreCheckIsNotEnough()
    ensures exists s0, run ::
              && Initial(s0) && Possible(s0, run)
              && var s := After(s0, run);
                 && |s.requests| == 2 && s.requests[0] == Request(Background, "vm", PreChecked) && VmStateIsLive(s.vm)
                 && Possible(s, LockThenRead())
                 && After(s, LockThenRead()).requests[0].phase == Unlocked(Rejected)
  {
    StartAfterCheckRuns();
    SecondReadRejects();
    assert Initial(STOPPED) && Possible(STOPPED, StartAfterCheck());
  }

  // ---- the handlers ----

  /** A run in which only request i has turns. */
  ghost predicate OnlyTurnsOf(run: seq<Event>, i: nat) {
    forall k :: 0 <= k < |run| && run[k].Turn? ==> run[k].i == i
  }

  /** From s, request i can take this run by itself, and it ends in s'. */
  ghost predicate Leads(s: System, run: seq<Event>, s': System, i: nat) {
    Possible(s, run) && After(s, run) == s' && OnlyTurnsOf(run, i)
  }

  lemma LeadsOne(s: System, run: seq<Event>, s1: System, e: Event, i: nat)
    requires Leads(s, run, s1, i) && Enabled(s1, e) && (e.Turn? ==> e.i == i)
    ensures Leads(s, run + [e], Apply(s1, e), i)
  {
    AppendStep(s, run, e);
  }

  lemma {:induction false} LeadsOn(s: System, run: seq<Event>, s1: System, more: seq<Event>, s2: System, i: nat)
    requires Leads(s, run, s1, i) && Leads(s1, more, s2, i)
    ensures Leads(s, run + more, s2, i)
    decreases |more|
  {
    if more == [] {
      assert run + more == run;
    } else {
      LeadsOne(s, run, s1, more[0], i);
      LeadsOn(s, run + [more[0]], Apply(s1, more[0]), more[1..], s2, i);
      assert run + [more[0]] + more[1..] == run + more;
    }
  }

  /** The VM may go through these states by itself, one after the other. */
  predicate Drifts(vm: string, states: seq<string>) {
    && (states != [] ==> NotStarted(vm, states[0]))
    && forall k :: 0 <= k < |states| - 1 ==> NotStarted(states[k], states[k + 1])
  }

  /** The server's locks and requests; each method is what one handler does when nobody comes in between. */
  class AgentServer {
    var vm: string
    var locks: map<string, nat>
    var requests: seq<Request>

    function View(): System
      reads this
    {
      System(vm, locks, requests)
    }

    constructor (vm: string, requests: seq<Request>)
      requires forall i :: 0 <= i < |requests| ==> requests[i].phase == Fresh
      ensures Initial(View()) && this.vm == vm && this.requests == requests
    {
      this.vm, locks, this.requests := vm, map[], requests;
    }

    method SetPhase(i: nat, p: Phase)
      requires i < |requests|
      modifies `requests
      ensures View() == Move(old(View()), i, p)
    {
      requests := requests[i := requests[i].(phase := p)];
    }

    /** The VM's mutex is tried, never waited for. */
    method TryLockVm(i: nat) returns (ok: bool)
      requires Enabled(View(), Turn(i, TryLock))
      modifies this
      ensures View() == Apply(old(View()), Turn(i, TryLock))
      ensures ok <==> requests[i].id !in old(locks)
      ensures ok ==> Holds(View(), i) && requests[i].phase == Locked
    {
      ok := requests[i].id !in locks;
      if ok {
        locks := locks[requests[i].id := i];
        SetPhase(i, Locked);
      } else {
        SetPhase(i, Over(Conflict));
      }
    }

    method Unlock(i: nat, o: Outcome)
      requires i < |requests|
      modifies this
      ensures View() == Release(old(View()), i, o)
    {
      locks := locks - {requests[i].id};
      SetPhase(i, if requests[i].kind == Background then Unlocked(o) else Over(o));
    }

    /** Polls the state until it is not live; polled holds what the VM drifts to before each poll. */
    method WaitUntilNotLive(i: nat, polled: seq<string>) returns (stopped: bool, ghost run: seq<Event>)
      requires i < |requests| && requests[i].phase == Polling && Drifts(vm, polled)
      modifies `vm, `requests
      ensures Leads(old(View()), run, View(), i)
      ensures stopped <==> exists k :: 0 <= k < |polled| && !VmStateIsLive(polled[k])
      ensures requests == old(requests)[i := old(requests)[i].(phase := if stopped then Cleared else Polling)]
      ensures vm == old(vm) || vm in polled
      ensures stopped ==> !VmStateIsLive(vm)
    {
      run, stopped := [], false;
      ghost var s0 := View();
      var k := 0;
      while k < |polled|
        invariant k <= |polled|
        invariant Leads(s0, run, View(), i)
        invariant requests == old(requests)
        invariant forall j :: 0 <= j < k ==> VmStateIsLive(polled[j])
        invariant vm == if k == 0 then old(vm) else polled[k - 1]
      {
        LeadsOne(s0, run, View(), Drift(polled[k]), i);
        run := run + [Drift(polled[k])];
        vm := polled[k];
        LeadsOne(s0, run, View(), Turn(i, Poll), i);
        run := run + [Turn(i, Poll)];
        if !VmStateIsLive(vm) {
          SetPhase(i, Cleared);
          return true, run;
        }
        k := k + 1;
      }
      assert requests == old(requests)[i := old(requests)[i].(phase := Polling)];
    }

    /** Issues the command and, when it has ended, gives the lock back. after is the state it leaves. */
    method ActAndUnlock(i: nat, after: string, ok: bool) returns (outcome: Outcome, ghost run: seq<Event>)
      requires i < |requests| && requests[i].phase == Cleared && NotStarted(vm, after)
      modifies this
      ensures Leads(old(View()), run, View(), i)
      ensures outcome == if ok then Succeeded else Failed
      ensures View() == Release(old(View()).(vm := after), i, outcome)
    {
      ghost var s0 := View();
      LeadsOne(s0, [], s0, Turn(i, Issue), i);
      run := [] + [Turn(i, Issue)];
      SetPhase(i, Issued);
      LeadsOne(s0, run, View(), Turn(i, Finish(after, ok)), i);
      run := run + [Turn(i, Finish(after, ok))];
      vm := after;
      outcome := if ok then Succeeded else Failed;
      Unlock(i, outcome);
    }

    /**
     Deleting the VM, changing its hardware, or a disk operation: try the lock, read
     the state, act if the VM is not live, and give the lock back.
     */
    method HandleGuarded(i: nat, after: string, ok: bool) returns (outcome: Outcome, ghost run: seq<Event>)
      requires i < |requests| && requests[i].kind == Guarded && requests[i].phase == Fresh && NotStarted(vm, after)
      modifies this
      ensures Leads(old(View()), run, View(), i)
      ensures requests == old(requests)[i := old(requests)[i].(phase := Over(outcome))] && locks == old(locks)
      ensures outcome ==
              if requests[i].id in old(locks) then Conflict
              else if VmStateIsLive(old(vm)) then Rejected
              else if ok then Succeeded else Failed
      ensures vm == if outcome == Conflict || outcome == Rejected then old(vm) else after
    {
      ghost var s0 := View();
      LeadsOne(s0, [], s0, Turn(i, TryLock), i);
      run := [] + [Turn(i, TryLock)];
      var locked := TryLockVm(i);
      if !locked {
        return Conflict, run;
      }
      LeadsOne(s0, run, View(), Turn(i, Read), i);
      run := run + [Turn(i, Read)];
      if VmStateIsLive(vm) {
        Unlock(i, Rejected);
        return Rejected, run;
      }
      SetPhase(i, Cleared);
      ghost var s1, more := View(), [];
      outcome, more := ActAndUnlock(i, after, ok);
      LeadsOn(s0, run, s1, more, View(), i);
      run := run + more;
    }

    /**
     Starting, stopping or resetting the VM: try the lock, attempt the command as often
     as it is retried, each attempt leaving the VM in a state, and give the lock back.
     */
    method HandleOperation(i: nat, attempts: seq<string>, ok: bool) returns (outcome: Outcome, ghost run: seq<Event>)
      requires i < |requests| && requests[i].phase == Fresh
      requires requests[i].kind == StartVm || (requests[i].kind == Control && Drifts(vm, attempts))
      modifies this
      ensures Leads(old(View()), run, View(), i)
      ensures requests == old(requests)[i := old(requests)[i].(phase := Over(outcome))] && locks == old(locks)
      ensures outcome == if requests[i].id in old(locks) then Conflict else if ok then Succeeded else Failed
      ensures vm == if outcome == Conflict || attempts == [] then old(vm) else attempts[|attempts| - 1]
    {
      ghost var s0 := View();
      LeadsOne(s0, [], s0, Turn(i, TryLock), i);
      run := [] + [Turn(i, TryLock)];
      var locked := TryLockVm(i);
      if !locked {
        return Conflict, run;
      }
      ghost var held := View();
      var k := 0;
      while k < |attempts|
        invariant k <= |attempts|
        invariant Leads(s0, run, View(), i)
        invariant requests == held.requests && locks == held.locks
        invariant vm == if k == 0 then old(vm) else attempts[k - 1]
      {
        LeadsOne(s0, run, View(), Turn(i, Act(attempts[k])), i);
        run := run + [Turn(i, Act(attempts[k]))];
        vm := attempts[k];
        k := k + 1;
      }
      LeadsOne(s0, run, View(), Turn(i, Return(ok)), i);
      run := run + [Turn(i, Return(ok))];
      outcome := if ok then Succeeded else Failed;
      Unlock(i, outcome);
    }

    /**
     Restoring a snapshot: a live VM is powered off first (powered is the state that
     leaves, None if it fails) and waited for; the restore is issued only once the
     VM was read as not live.
     */
    method HandleRestore(i: nat, powered: Option<string>, polled: seq<string>, after: string, ok: bool)
      returns (outcome: Outcome, ghost run: seq<Event>)
      requires i < |requests| && requests[i].kind == Restore && requests[i].phase == Fresh && !VmStateIsLive(after)
      requires powered.Some? ==> NotStarted(vm, powered.value) && Drifts(powered.value, polled)
      modifies this
      ensures Leads(old(View()), run, View(), i)
      ensures requests == old(requests)[i := old(requests)[i].(phase := Over(outcome))] && locks == old(locks)
      ensures outcome ==
              if requests[i].id in old(locks) then Conflict
              else if VmStateIsLive(old(vm)) && (powered.None? || forall k :: 0 <= k < |polled| ==> VmStateIsLive(polled[k])) then Failed
              else if ok then Succeeded else Failed
      ensures outcome == Succeeded ==> vm == after
      ensures outcome == Conflict || (outcome == Failed && VmStateIsLive(old(vm)) && powered.None?) ==> vm == old(vm)
    {
      ghost var s0 := View();
      LeadsOne(s0, [], s0, Turn(i, TryLock), i);
      run := [] + [Turn(i, TryLock)];
      var locked := TryLockVm(i);
      if !locked {
        return Conflict, run;
      }
      ghost var s1 := View();
      ghost var more;
      outcome, more := RestoreUnderLock(i, powered, polled, after, ok);
      LeadsOn(s0, run, s1, more, View(), i);
      run := run + more;
    }

    /** Powers the VM off and waits until it was read as not live. */
    method PowerOffAndWait(i: nat, powered: Option<string>, polled: seq<string>) returns (stopped: bool, ghost run: seq<Event>)
      requires i < |requests| && requests[i].phase == MustPowerOff
      requires powered.Some? ==> NotStarted(vm, powered.value) && Drifts(powered.value, polled)
      modifies `vm, `requests
      ensures Leads(old(View()), run, View(), i)
      ensures stopped <==> powered.Some? && exists k :: 0 <= k < |polled| && !VmStateIsLive(polled[k])
      ensures |requests| == |old(requests)| && Holding(requests[i].phase) && requests[i].phase != Issued
      ensures requests == old(requests)[i := old(requests)[i].(phase := requests[i].phase)]
      ensures stopped ==> requests[i].phase == Cleared && !VmStateIsLive(vm)
      ensures powered.None? ==> vm == old(vm)
    {
      ghost var s0 := View();
      if powered.None? {
        return false, [];
      }
      LeadsOne(s0, [], s0, Turn(i, PowerOff(powered.value)), i);
      run := [] + [Turn(i, PowerOff(powered.value))];
      vm := powered.value;
      SetPhase(i, Polling);
      ghost var s1, polls := View(), [];
      stopped, polls := WaitUntilNotLive(i, polled);
      LeadsOn(s0, run, s1, polls, View(), i);
      run := run + polls;
    }

    method RestoreUnderLock(i: nat, powered: Option<string>, polled: seq<string>, after: string, ok: bool)
      returns (outcome: Outcome, ghost run: seq<Event>)
      requires Holds(View(), i) && requests[i].kind == Restore && requests[i].phase == Locked && !VmStateIsLive(after)
      requires powered.Some? ==> NotStarted(vm, powered.value) && Drifts(powered.value, polled)
      modifies this
      ensures Leads(old(View()), run, View(), i)
      ensures requests == old(requests)[i := old(requests)[i].(phase := Over(outcome))]
      ensures locks == old(locks) - {requests[i].id}
      ensures outcome ==
              if VmStateIsLive(old(vm)) && (powered.None? || forall k :: 0 <= k < |polled| ==> VmStateIsLive(polled[k])) then Failed
              else if ok then Succeeded else Failed
      ensures outcome == Succeeded ==> vm == after
      ensures outcome == Failed && VmStateIsLive(old(vm)) && powered.None? ==> vm == old(vm)
    {
      ghost var s0 := View();
      LeadsOne(s0, [], s0, Turn(i, Read), i);
      run := [] + [Turn(i, Read)];
      var stopped := !VmStateIsLive(vm);
      if stopped {
        SetPhase(i, Cleared);
      } else {
        SetPhase(i, MustPowerOff);
        ghost var s1, waits := View(), [];
        stopped, waits := PowerOffAndWait(i, powered, polled);
        LeadsOn(s0, run, s1, waits, View(), i);
        run := run + waits;
      }
      if !stopped {
        LeadsOne(s0, run, View(), Turn(i, GiveUp), i);
        run := run + [Turn(i, GiveUp)];
        Unlock(i, Failed);
        return Failed, run;
      }
      ghost var s2, more := View(), [];
      outcome, more := ActAndUnlock(i, after, ok);
      LeadsOn(s0, run, s2, more, View(), i);
      run := run + more;
    }

    /** A clone or export is accepted if the VM is not live and its lock is free; the job then holds the lock. */
    method AcceptBackground(i: nat) returns (accepted: bool, ghost run: seq<Event>)
      requires i < |requests| && requests[i].kind == Background && requests[i].phase == Fresh
      modifies this
      ensures Leads(old(View()), run, View(), i)
      ensures accepted <==> !VmStateIsLive(old(vm)) && old(requests)[i].id !in old(locks)
      ensures var phase := if accepted then Locked else if VmStateIsLive(old(vm)) then Over(Rejected) else Over(Conflict);
              requests == old(requests)[i := old(requests)[i].(phase := phase)]
      ensures locks == (if accepted then old(locks)[old(requests)[i].id := i] else old(locks)) && vm == old(vm)
    {
      ghost var s0 := View();
      LeadsOne(s0, [], s0, Turn(i, PreCheck), i);
      run := [] + [Turn(i, PreCheck)];
      if VmStateIsLive(vm) {
        SetPhase(i, Over(Rejected));
        return false, run;
      }
      SetPhase(i, PreChecked);
      LeadsOne(s0, run, View(), Turn(i, TryLock), i);
      run := run + [Turn(i, TryLock)];
      accepted := TryLockVm(i);
    }

    /**
     The job itself, in whatever state the VM is by then: it reads the state again,
     and gives the lock back before its outcome can be seen, a panic included.
     */
    method RunBackgroundJob(i: nat, after: string, ok: bool, panics: bool) returns (outcome: Outcome, ghost run: seq<Event>)
      requires Holds(View(), i) && requests[i].kind == Background && requests[i].phase == Locked && NotStarted(vm, after)
      modifies this
      ensures Leads(old(View()), run, View(), i)
      ensures requests == old(requests)[i := old(requests)[i].(phase := Over(outcome))]
      ensures locks == old(locks) - {requests[i].id}
      ensures outcome == if VmStateIsLive(old(vm)) then Rejected else if panics then Panicked else if ok then Succeeded else Failed
      ensures vm == if outcome == Rejected || outcome == Panicked then old(vm) else after
    {
      ghost var s0 := View();
      LeadsOne(s0, [], s0, Turn(i, Read), i);
      run := [] + [Turn(i, Read)];
      if VmStateIsLive(vm) {
        outcome := Rejected;
        Unlock(i, outcome);
      } else {
        SetPhase(i, Cleared);
        if panics {
          LeadsOne(s0, run, View(), Turn(i, Panic), i);
          run := run + [Turn(i, Panic)];
          outcome := Panicked;
          Unlock(i, outcome);
        } else {
          ghost var s1, more := View(), [];
          outcome, more := ActAndUnlock(i, after, ok);
          LeadsOn(s0, run, s1, more, View(), i);
          run := run + more;
        }
      }
      LeadsOne(s0, run, View(), Turn(i, ReportJob), i);
      run := run + [Turn(i, ReportJob)];
      SetPhase(i, Over(outcome));
    }
  }
}
