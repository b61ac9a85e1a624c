/**
 The goroutines of background jobs, with the language's deferred calls: a function
 runs its body, then its deferred calls last in first out, a panic skips the rest
 of the body and goes on to the caller, and a deferred call may recover from it.

 The job's goroutine calls a closure and then records the result under the job
 table's mutex. For a clone or an export the closure holds the VM's lock and defers
 giving it back. Nothing here orders the lock and the record but those rules.
 */
module JobGoroutines {
  import opened Common
  import CreateJobs

  // ---- functions and their deferred calls ----

  datatype Deferred = Recover | Cancel | UnlockVm | UnlockTable

  datatype Instr = Defer(d: Deferred) | CallClosure | Work | LockTable | Record | Crash

  datatype Frame = Frame(body: seq<Instr>, defers: seq<Deferred>)

  /** The innermost call comes last. */
  datatype Control = Control(frames: seq<Frame>, panicking: bool)

  const AFTER_CLOSURE := [LockTable, Defer(UnlockTable), Record]

  const GOROUTINE := [Defer(Recover), Defer(Cancel), CallClosure] + AFTER_CLOSURE

  /** What the recovering deferred call does about a panic. */
  const RECOVERY := [LockTable, Defer(UnlockTable), Crash]

  function Closure(locked: bool): seq<Instr> {
    if locked then [Defer(UnlockVm), Work] else [Work]
  }

  datatype Act = Do(i: Instr) | RunDeferred(d: Deferred) | Leave

  function Top(c: Control): Frame
    requires c.frames != []
  {
    c.frames[|c.frames| - 1]
  }

  function NextAct(c: Control): Act
    requires c.frames != []
  {
    var top := Top(c);
    if top.body != [] then Do(top.body[0])
    else if top.defers != [] then RunDeferred(top.defers[|top.defers| - 1])
    else Leave
  }

  /** The work, and the recording of its result, may panic. */
  predicate MayPanic(a: Act) {
    a == Do(Work) || a == Do(Record)
  }

  function WithTop(c: Control, top: Frame): Control
    requires c.frames != []
  {
    c.(frames := c.frames[..|c.frames| - 1] + [top])
  }

  function Pushed(c: Control, body: seq<Instr>): Control {
    c.(frames := c.frames + [Frame(body, [])])
  }

  /** A panicking call leaves its caller panicking: the rest of the caller's body is skipped too. */
  function Left(c: Control): Control
    requires c.frames != []
  {
    var outer := c.frames[..|c.frames| - 1];
    if c.panicking && outer != [] then
      c.(frames := outer[..|outer| - 1] + [outer[|outer| - 1].(body := [])])
    else c.(frames := outer)
  }

  function NextControl(c: Control, locked: bool, panics: bool): Control
    requires c.frames != []
  {
    var top := Top(c);
    match NextAct(c)
    case Leave => Left(c)
    case RunDeferred(d) =>
      var c' := WithTop(c, top.(defers := top.defers[..|top.defers| - 1]));
      if d == Recover && c.panicking then Pushed(c'.(panicking := false), RECOVERY) else c'
    case Do(i) =>
      if panics && MayPanic(Do(i)) then WithTop(c, top.(body := [])).(panicking := true)
      else
        var top' := top.(body := top.body[1..]);
        match i
        case Defer(d) => WithTop(c, top'.(defers := top.defers + [d]))
        case CallClosure => Pushed(WithTop(c, top'), Closure(locked))
        case _ => WithTop(c, top')
  }

  // ---- the shared state ----

  datatype Owner = ByJob(id: string) | ByRequest

  datatype Goroutine = Goroutine(vm: Option<string>, control: Control, result: Option<CreateJobs.WorkResult>)

  /** The job table and who holds its mutex, the VM locks that are held, and every goroutine started so far. */
  datatype System = System(
    jobs: CreateJobs.Jobs, mutex: Option<string>, locks: map<string, Owner>, goroutines: map<string, Goroutine>)

  const EMPTY := System(map[], None, map[], map[])

  /**
   Start: a handler takes the VM's lock, unless the job needs none, and registers
   the job. Go: one step of a job's goroutine; what the work returns, and whether it
   panics, is up to the environment. Request and Release: other requests on a VM.
   */
  datatype Event =
    | Start(id: string, locked: Option<string>, name: string, now: int)
    | Go(id: string, result: CreateJobs.WorkResult, panics: bool, now: int)
    | Request(vm: string)
    | Release(vm: string)

  predicate Enabled(s: System, e: Event) {
    match e
    case Start(id, vm, _, _) => id !in s.goroutines && s.mutex.None? && (vm.Some? ==> vm.value !in s.locks)
    case Go(id, _, _, _) =>
      && id in s.goroutines && s.goroutines[id].control.frames != []
      && (NextAct(s.goroutines[id].control) == Do(LockTable) ==> s.mutex.None?)
    case Request(vm) => vm !in s.locks
    case Release(vm) => vm in s.locks && s.locks[vm] == ByRequest
  }

  function Apply(s: System, e: Event): System
    requires Enabled(s, e)
  {
    match e
    case Start(id, vm, name, now) =>
      System(CreateJobs.Swept(s.jobs, now)[id := CreateJobs.Job(CreateJobs.Running, "", "", name, None)], s.mutex,
             if vm.Some? then s.locks[vm.value := ByJob(id)] else s.locks,
             s.goroutines[id := Goroutine(vm, Control([Frame(GOROUTINE, [])], false), None)])
    case Go(id, result, panics, now) => Gone(s, id, result, panics, now)
    case Request(vm) => s.(locks := s.locks[vm := ByRequest])
    case Release(vm) => s.(locks := s.locks - {vm})
  }

  function Gone(s: System, id: string, result: CreateJobs.WorkResult, panics: bool, now: int): System
    requires id in s.goroutines && s.goroutines[id].control.frames != []
  {
    var g := s.goroutines[id];
    GoneBy(s, id, NextAct(g.control), NextControl(g.control, g.vm.Some?, panics), result, panics, now)
  }

  /** What an act of job id's goroutine does to the shared state, leaving the goroutine at c. */
  function GoneBy(s: System, id: string, act: Act, c: Control, result: CreateJobs.WorkResult, panics: bool, now: int): System
    requires id in s.goroutines
  {
    var g := s.goroutines[id];
    var g' := g.(control := c, result := if act == Do(Work) && !panics then Some(result) else g.result);
    var s' := s.(goroutines := s.goroutines[id := g']);
    match act
    case Do(LockTable) => s'.(mutex := Some(id))
    case RunDeferred(UnlockTable) => s'.(mutex := None)
    case RunDeferred(UnlockVm) => if g.vm.Some? then s'.(locks := s.locks - {g.vm.value}) else s'
    case Do(Record) =>
      if panics || g.result.None? || id !in s.jobs then s'
      else s'.(jobs := s.jobs[id := CreateJobs.Recorded(s.jobs[id], g.result.value, now)])
    case Do(Crash) =>
      if id !in s.jobs then s' else s'.(jobs := s.jobs[id := CreateJobs.Crashed(s.jobs[id], now)])
    case _ => s'
  }

  predicate Possible(s: System, run: seq<Event>)
    decreases |run|
  {
    run != [] ==> Enabled(s, run[0]) && Possible(Apply(s, run[0]), run[1..])
  }

  function After(s: System, run: seq<Event>): System
    requires Possible(s, run)
    decreases |run|
  {
    if run == [] then s else After(Apply(s, run[0]), run[1..])
  }

  // ---- where a goroutine can be ----

  /** The points a job's goroutine passes through; panicked tells which way it got there. */
  datatype Point =
    | AtStart | RecoverDeferred | CancelDeferred
    | InClosure | Working | ClosureOver(panicked: bool) | ClosureUnlocked(panicked: bool)
    | BackFromClosure | TableLocked | Recording | RecordOver(panicked: bool)
    | CancelLeft(panicked: bool) | RecoverLeft(panicked: bool)
    | RecoveryStart | RecoveryLocked | RecoveryMarking | RecoveryMarked | RecoveryUnlocked
    | Ending | Over

  function At(p: Point, locked: bool): Control {
    var outer := Frame(AFTER_CLOSURE, [Recover, Cancel]);
    var unlock := if locked then [UnlockVm] else [];
    match p
    case AtStart => Control([Frame(GOROUTINE, [])], false)
    case RecoverDeferred => Control([Frame([Defer(Cancel), CallClosure] + AFTER_CLOSURE, [Recover])], false)
    case CancelDeferred => Control([Frame([CallClosure] + AFTER_CLOSURE, [Recover, Cancel])], false)
    case InClosure => Control([outer, Frame(Closure(locked), [])], false)
    case Working => Control([outer, Frame([Work], unlock)], false)
    case ClosureOver(panicked) => Control([outer, Frame([], unlock)], panicked)
    case ClosureUnlocked(panicked) => Control([outer, Frame([], [])], panicked)
    case BackFromClosure => Control([outer], false)
    case TableLocked => Control([Frame([Defer(UnlockTable), Record], [Recover, Cancel])], false)
    case Recording => Control([Frame([Record], [Recover, Cancel, UnlockTable])], false)
    case RecordOver(panicked) => Control([Frame([], [Recover, Cancel, UnlockTable])], panicked)
    case CancelLeft(panicked) => Control([Frame([], [Recover, Cancel])], panicked)
    case RecoverLeft(panicked) => Control([Frame([], [Recover])], panicked)
    case RecoveryStart => Control([Frame([], []), Frame(RECOVERY, [])], false)
    case RecoveryLocked => Control([Frame([], []), Frame([Defer(UnlockTable), Crash], [])], false)
    case RecoveryMarking => Control([Frame([], []), Frame([Crash], [UnlockTable])], false)
    case RecoveryMarked => Control([Frame([], []), Frame([], [UnlockTable])], false)
    case RecoveryUnlocked => Control([Frame([], []), Frame([], [])], false)
    case Ending => Control([Frame([], [])], false)
    case Over => Control([], false)
  }

  function NextPoint(p: Point, locked: bool, panics: bool): Point {
    match p
    case AtStart => RecoverDeferred
    case RecoverDeferred => CancelDeferred
    case CancelDeferred => InClosure
    case InClosure => if locked then Working else ClosureOver(panics)
    case Working => ClosureOver(panics)
    case ClosureOver(panicked) =>
      if locked then ClosureUnlocked(panicked) else if panicked then CancelLeft(true) else BackFromClosure
    case ClosureUnlocked(panicked) => if panicked then CancelLeft(true) else BackFromClosure
    case BackFromClosure => TableLocked
    case TableLocked => Recording
    case Recording => RecordOver(panics)
    case RecordOver(panicked) => CancelLeft(panicked)
    case CancelLeft(panicked) => RecoverLeft(panicked)
    case RecoverLeft(panicked) => if panicked then RecoveryStart else Ending
    case RecoveryStart => RecoveryLocked
    case RecoveryLocked => RecoveryMarking
    case RecoveryMarking => RecoveryMarked
    case RecoveryMarked => RecoveryUnlocked
    case RecoveryUnlocked => Ending
    case Ending => Over
    case Over => Over
  }

  function ActAt(p: Point, locked: bool): Act {
    match p
    case AtStart => Do(Defer(Recover))
    case RecoverDeferred => Do(Defer(Cancel))
    case CancelDeferred => Do(CallClosure)
    case InClosure => if locked then Do(Defer(UnlockVm)) else Do(Work)
    case Working => Do(Work)
    case ClosureOver(_) => if locked then RunDeferred(UnlockVm) else Leave
    case ClosureUnlocked(_) => Leave
    case BackFromClosure => Do(LockTable)
    case TableLocked => Do(Defer(UnlockTable))
    case Recording => Do(Record)
    case RecordOver(_) => RunDeferred(UnlockTable)
    case CancelLeft(_) => RunDeferred(Cancel)
    case RecoverLeft(_) => RunDeferred(Recover)
    case RecoveryStart => Do(LockTable)
    case RecoveryLocked => Do(Defer(UnlockTable))
    case RecoveryMarking => Do(Crash)
    case RecoveryMarked => RunDeferred(UnlockTable)
    case RecoveryUnlocked => Leave
    case Ending => Leave
    case Over => Leave
  }

  /** c is in the call whose frame is top, called from below. */
  predicate IsIn(c: Control, below: seq<Frame>, top: Frame, panicking: bool) {
    c.frames == below + [top] && c.panicking == panicking
  }

  lemma Deferring(c: Control, c': Control, below: seq<Frame>, top: Frame, top': Frame, locked: bool, panics: bool)
    requires IsIn(c, below, top, false) && top.body != [] && top.body[0].Defer?
    requires IsIn(c', below, top', false) && top'.body == top.body[1..] && top'.defers == top.defers + [top.body[0].d]
    ensures NextAct(c) == Do(top.body[0]) && NextControl(c, locked, panics) == c'
  {
    assert c.frames[..|c.frames| - 1] == below;
  }

  lemma Doing(c: Control, c': Control, below: seq<Frame>, top: Frame, top': Frame, locked: bool, panics: bool)
    requires IsIn(c, below, top, false) && top.body != [] && !top.body[0].Defer? && top.body[0] != CallClosure
    requires var thrown := panics && MayPanic(Do(top.body[0]));
             IsIn(c', below, top', thrown) && top'.body == (if thrown then [] else top.body[1..]) && top'.defers == top.defers
    ensures NextAct(c) == Do(top.body[0]) && NextControl(c, locked, panics) == c'
  {
    assert c.frames[..|c.frames| - 1] == below;
  }

  lemma Calling(c: Control, c': Control, below: seq<Frame>, top: Frame, top': Frame, locked: bool, panics: bool)
    requires IsIn(c, below, top, false) && top.body != [] && top.body[0] == CallClosure
    requires top'.body == top.body[1..] && top'.defers == top.defers
    requires IsIn(c', below + [top'], Frame(Closure(locked), []), false)
    ensures NextAct(c) == Do(CallClosure) && NextControl(c, locked, panics) == c'
  {
    assert c.frames[..|c.frames| - 1] == below;
  }

  lemma RunningDeferred(c: Control, c': Control, below: seq<Frame>, top: Frame, top': Frame, locked: bool, panics: bool)
    requires IsIn(c, below, top, c.panicking) && top.body == [] && top.defers != []
    requires top'.body == [] && top'.defers == top.defers[..|top.defers| - 1]
    requires var d := top.defers[|top.defers| - 1];
             if d == Recover && c.panicking then IsIn(c', below + [top'], Frame(RECOVERY, []), false)
             else IsIn(c', below, top', c.panicking)
    ensures NextAct(c) == RunDeferred(top.defers[|top.defers| - 1]) && NextControl(c, locked, panics) == c'
  {
    assert c.frames[..|c.frames| - 1] == below;
  }

  lemma Leaving(c: Control, c': Control, outer: Frame, outer': Frame, locked: bool, panics: bool)
    requires IsIn(c, [outer], Frame([], []), c.panicking)
    requires outer' == (if c.panicking then outer.(body := []) else outer) && IsIn(c', [], outer', c.panicking)
    ensures NextAct(c) == Leave && NextControl(c, locked, panics) == c'
  {
    assert c.frames[..1] == [outer] && [outer][..0] == [];
  }

  predicate InRecovery(p: Point) {
    p.RecoveryStart? || p.RecoveryLocked? || p.RecoveryMarking? || p.RecoveryMarked? || p.RecoveryUnlocked? || p.Ending?
  }

  predicate InClosureCall(p: Point) {
    p.InClosure? || p.Working? || p.ClosureOver? || p.ClosureUnlocked?
  }

  /** From p, one step goes to the next point. */
  ghost predicate Follows(p: Point, locked: bool, panics: bool) {
    && At(p, locked).frames != [] && NextAct(At(p, locked)) == ActAt(p, locked)
    && NextControl(At(p, locked), locked, panics) == At(NextPoint(p, locked, panics), locked)
  }

  lemma ClosurePoints(p: Point, locked: bool, panics: bool)
    requires InClosureCall(p)
    ensures Follows(p, locked, panics)
  {
    var outer := Frame(AFTER_CLOSURE, [Recover, Cancel]);
    var unlock := if locked then [UnlockVm] else [];
    var c, c' := At(p, locked), At(NextPoint(p, locked, panics), locked);
    match p
    case InClosure =>
      if locked {
        Deferring(c, c', [outer], Frame(Closure(true), []), Frame([Work], [UnlockVm]), locked, panics);
      } else {
        Doing(c, c', [outer], Frame([Work], []), Frame([], []), locked, panics);
      }
    case Working => Doing(c, c', [outer], Frame([Work], unlock), Frame([], unlock), locked, panics);
    case ClosureOver(panicked) =>
      if locked {
        RunningDeferred(c, c', [outer], Frame([], [UnlockVm]), Frame([], []), locked, panics);
      } else {
        Leaving(c, c', outer, if panicked then outer.(body := []) else outer, locked, panics);
      }
    case ClosureUnlocked(panicked) => Leaving(c, c', outer, if panicked then outer.(body := []) else outer, locked, panics);
  }

  lemma RecoveryPoints(p: Point, locked: bool, panics: bool)
    requires InRecovery(p)
    ensures Follows(p, locked, panics)
  {
    var below := [Frame([], [])];
    var c, c' := At(p, locked), At(NextPoint(p, locked, panics), locked);
    match p
    case RecoveryStart => Doing(c, c', below, Frame(RECOVERY, []), Frame([Defer(UnlockTable), Crash], []), locked, panics);
    case RecoveryLocked => Deferring(c, c', below, Frame([Defer(UnlockTable), Crash], []), Frame([Crash], [UnlockTable]), locked, panics);
    case RecoveryMarking => Doing(c, c', below, Frame([Crash], [UnlockTable]), Frame([], [UnlockTable]), locked, panics);
    case RecoveryMarked => RunningDeferred(c, c', below, Frame([], [UnlockTable]), Frame([], []), locked, panics);
    case RecoveryUnlocked => Leaving(c, c', Frame([], []), Frame([], []), locked, panics);
    case Ending =>
  }

  predicate Unwinding(p: Point) {
    p.RecordOver? || p.CancelLeft? || p.RecoverLeft?
  }

  lemma UnwindingPoints(p: Point, locked: bool, panics: bool)
    requires Unwinding(p)
    ensures Follows(p, locked, panics)
  {
    var c, c' := At(p, locked), At(NextPoint(p, locked, panics), locked);
    match p
    case RecordOver(_) =>
      RunningDeferred(c, c', [], Frame([], [Recover, Cancel, UnlockTable]), Frame([], [Recover, Cancel]), locked, panics);
    case CancelLeft(_) => RunningDeferred(c, c', [], Frame([], [Recover, Cancel]), Frame([], [Recover]), locked, panics);
    case RecoverLeft(_) => RunningDeferred(c, c', [], Frame([], [Recover]), Frame([], []), locked, panics);
  }

  lemma BodyPoints(p: Point, locked: bool, panics: bool)
    requires !InRecovery(p) && !InClosureCall(p) && !Unwinding(p) && p != Over
    ensures Follows(p, locked, panics)
  {
    var c, c' := At(p, locked), At(NextPoint(p, locked, panics), locked);
    var top := Top(c);
    match p
    case AtStart => Deferring(c, c', [], top, Top(c'), locked, panics);
    case RecoverDeferred => Deferring(c, c', [], top, Top(c'), locked, panics);
    case CancelDeferred => Calling(c, c', [], top, Frame(AFTER_CLOSURE, [Recover, Cancel]), locked, panics);
    case BackFromClosure => Doing(c, c', [], top, Top(c'), locked, panics);
    case TableLocked => Deferring(c, c', [], top, Top(c'), locked, panics);
    case Recording => Doing(c, c', [], top, Top(c'), locked, panics);
  }

  /** The language's rules take a goroutine from point to point. */
  lemma PointsFollow(p: Point, locked: bool, panics: bool)
    requires p != Over
    ensures Follows(p, locked, panics)
  {
    if InClosureCall(p) {
      ClosurePoints(p, locked, panics);
    } else if InRecovery(p) {
      RecoveryPoints(p, locked, panics);
    } else if Unwinding(p) {
      UnwindingPoints(p, locked, panics);
    } else {
      BodyPoints(p, locked, panics);
    }
  }
}
