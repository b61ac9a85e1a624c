/**
 What the goroutines of background jobs keep on every run: who holds which lock at
 each point, and that a job is seen finished only when its VM's lock is free again.
 */
module JobSafety {
  import opened Common
  import opened JobGoroutines
  import CreateJobs

  // ---- what holds at each point ----

  predicate HoldsVm(p: Point) {
    p.AtStart? || p.RecoverDeferred? || p.CancelDeferred? || p.InClosure? || p.Working? || p.ClosureOver?
  }

  predicate HoldsTable(p: Point) {
    p.TableLocked? || p.Recording? || p.RecordOver? || p.RecoveryLocked? || p.RecoveryMarking? || p.RecoveryMarked?
  }

  predicate HasResult(p: Point) {
    p in {ClosureOver(false), ClosureUnlocked(false), BackFromClosure, TableLocked, Recording}
  }

  /** The job's outcome has been written to the table. */
  predicate Written(p: Point) {
    || p in {RecordOver(false), CancelLeft(false), RecoverLeft(false)}
    || p in {RecoveryMarked, RecoveryUnlocked, Ending, Over}
  }

  predicate Owns(s: System, id: string, vm: Option<string>) {
    vm.Some? && vm.value in s.locks && s.locks[vm.value] == ByJob(id)
  }

  predicate RunningJob(s: System, id: string) {
    id in s.jobs && s.jobs[id].state == CreateJobs.Running
  }

  predicate VmShared(s: System, id: string, vm: Option<string>, p: Point) {
    Owns(s, id, vm) <==> vm.Some? && HoldsVm(p)
  }

  predicate MutexShared(s: System, id: string, p: Point) {
    s.mutex == Some(id) <==> HoldsTable(p)
  }

  predicate JobShared(s: System, id: string, result: Option<CreateJobs.WorkResult>, p: Point) {
    (HasResult(p) ==> result.Some?) && (RunningJob(s, id) <==> !Written(p))
  }

  /** What a goroutine's point says about the shared state. */
  predicate Shared(s: System, id: string, p: Point)
    requires id in s.goroutines
  {
    var g := s.goroutines[id];
    VmShared(s, id, g.vm, p) && MutexShared(s, id, p) && JobShared(s, id, g.result, p)
  }

  predicate Fits(s: System, id: string, p: Point) {
    && id in s.goroutines
    && s.goroutines[id].control == At(p, s.goroutines[id].vm.Some?)
    && Shared(s, id, p)
  }

  ghost predicate SomePoint(s: System, id: string) {
    exists p :: Fits(s, id, p)
  }

  ghost predicate AllPlaced(s: System) {
    forall id :: id in s.goroutines ==> SomePoint(s, id)
  }

  predicate MutexOk(s: System) {
    s.mutex.Some? ==> s.mutex.value in s.goroutines
  }

  ghost predicate TableOk(s: System) {
    CreateJobs.Inv(Table(s))
  }

  ghost predicate Inv(s: System) {
    AllPlaced(s) && OwnersOk(s) && MutexOk(s) && TableOk(s)
  }

  /** The job table as its own model sees it: a job is being worked on until its outcome is written. */
  function Table(s: System): CreateJobs.System {
    CreateJobs.System(s.jobs, (set id | id in s.jobs && RunningJob(s, id)), s.goroutines.Keys)
  }

  /** What a step does to the job table, if anything. */
  function TableEvent(s: System, e: Event): Option<CreateJobs.Event>
    requires Enabled(s, e)
  {
    match e
    case Start(id, _, name, now) => Some(CreateJobs.Begins(id, name, now))
    case Go(id, _, panics, now) => EventOf(id, NextAct(s.goroutines[id].control), s.goroutines[id].result, panics, now)
    case _ => None
  }

  function EventOf(id: string, act: Act, result: Option<CreateJobs.WorkResult>, panics: bool, now: int): Option<CreateJobs.Event> {
    match act
    case Do(Record) => if panics || result.None? then None else Some(CreateJobs.Returns(id, result.value, now))
    case Do(Crash) => Some(CreateJobs.Panics(id, now))
    case _ => None
  }

  /** An event of the table, or none, takes it from t to t'. */
  predicate TableStep(t: CreateJobs.System, e: Option<CreateJobs.Event>, t': CreateJobs.System) {
    match e
    case None => t' == t
    case Some(event) => CreateJobs.Enabled(t, event) && t' == CreateJobs.Apply(t, event)
  }

  // ---- one step of a goroutine ----

  lemma GoneAt(s: System, e: Event, p: Point)
    requires Enabled(s, e) && e.Go? && Fits(s, e.id, p)
    ensures p != Over
    ensures var locked := s.goroutines[e.id].vm.Some?;
            && NextAct(s.goroutines[e.id].control) == ActAt(p, locked)
            && NextControl(s.goroutines[e.id].control, locked, e.panics) == At(NextPoint(p, locked, e.panics), locked)
  {
    if p != Over {
      PointsFollow(p, s.goroutines[e.id].vm.Some?, e.panics);
    }
  }

  lemma OwnVm(s: System, id: string, p: Point, c: Control, result: CreateJobs.WorkResult, panics: bool, now: int)
    requires id in s.goroutines && VmShared(s, id, s.goroutines[id].vm, p) && p != Over
    ensures var vm := s.goroutines[id].vm;
            VmShared(GoneBy(s, id, ActAt(p, vm.Some?), c, result, panics, now), id, vm, NextPoint(p, vm.Some?, panics))
  {
  }

  lemma OwnMutex(s: System, id: string, p: Point, c: Control, result: CreateJobs.WorkResult, panics: bool, now: int)
    requires id in s.goroutines && MutexShared(s, id, p) && p != Over
    ensures var locked := s.goroutines[id].vm.Some?;
            MutexShared(GoneBy(s, id, ActAt(p, locked), c, result, panics, now), id, NextPoint(p, locked, panics))
  {
  }

  lemma OwnResult(s: System, id: string, p: Point, c: Control, result: CreateJobs.WorkResult, panics: bool, now: int)
    requires id in s.goroutines && (HasResult(p) ==> s.goroutines[id].result.Some?) && p != Over
    ensures var locked := s.goroutines[id].vm.Some?;
            HasResult(NextPoint(p, locked, panics)) ==> GoneBy(s, id, ActAt(p, locked), c, result, panics, now).goroutines[id].result.Some?
  {
  }

  lemma OwnRunning(s: System, id: string, p: Point, c: Control, result: CreateJobs.WorkResult, panics: bool, now: int)
    requires id in s.goroutines && JobShared(s, id, s.goroutines[id].result, p) && p != Over
    ensures var locked := s.goroutines[id].vm.Some?;
            RunningJob(GoneBy(s, id, ActAt(p, locked), c, result, panics, now), id) <==> !Written(NextPoint(p, locked, panics))
  {
  }

  lemma OwnShared(s: System, id: string, p: Point, c: Control, result: CreateJobs.WorkResult, panics: bool, now: int)
    requires id in s.goroutines && Shared(s, id, p) && p != Over
    ensures var locked := s.goroutines[id].vm.Some?;
            Shared(GoneBy(s, id, ActAt(p, locked), c, result, panics, now), id, NextPoint(p, locked, panics))
  {
    OwnVm(s, id, p, c, result, panics, now);
    OwnMutex(s, id, p, c, result, panics, now);
    OwnResult(s, id, p, c, result, panics, now);
    OwnRunning(s, id, p, c, result, panics, now);
  }

  lemma OtherVm(s: System, id: string, p: Point, c: Control, result: CreateJobs.WorkResult, panics: bool, now: int, id': string, vm': Option<string>)
    requires id in s.goroutines && VmShared(s, id, s.goroutines[id].vm, p) && p != Over && id' != id
    ensures Owns(GoneBy(s, id, ActAt(p, s.goroutines[id].vm.Some?), c, result, panics, now), id', vm') <==> Owns(s, id', vm')
  {
  }

  lemma OtherMutex(s: System, id: string, p: Point, c: Control, result: CreateJobs.WorkResult, panics: bool, now: int, id': string)
    requires id in s.goroutines && MutexShared(s, id, p) && p != Over && id' != id
    requires ActAt(p, s.goroutines[id].vm.Some?) == Do(LockTable) ==> s.mutex.None?
    ensures GoneBy(s, id, ActAt(p, s.goroutines[id].vm.Some?), c, result, panics, now).mutex == Some(id') <==> s.mutex == Some(id')
  {
  }

  lemma OtherJob(s: System, id: string, act: Act, c: Control, result: CreateJobs.WorkResult, panics: bool, now: int, id': string)
    requires id in s.goroutines && id' != id
    ensures var s' := GoneBy(s, id, act, c, result, panics, now);
            && (RunningJob(s', id') <==> RunningJob(s, id'))
            && (id' in s.goroutines ==> id' in s'.goroutines && s'.goroutines[id'] == s.goroutines[id'])
  {
  }

  lemma OtherShared(s: System, id: string, p: Point, c: Control, result: CreateJobs.WorkResult, panics: bool, now: int, id': string, p': Point)
    requires id in s.goroutines && Shared(s, id, p) && p != Over
    requires id' != id && Fits(s, id', p')
    requires ActAt(p, s.goroutines[id].vm.Some?) == Do(LockTable) ==> s.mutex.None?
    ensures Fits(GoneBy(s, id, ActAt(p, s.goroutines[id].vm.Some?), c, result, panics, now), id', p')
  {
    OtherVm(s, id, p, c, result, panics, now, id', s.goroutines[id'].vm);
    OtherMutex(s, id, p, c, result, panics, now, id');
    OtherJob(s, id, ActAt(p, s.goroutines[id].vm.Some?), c, result, panics, now, id');
  }

  lemma GoTable(s: System, id: string, p: Point, c: Control, result: CreateJobs.WorkResult, panics: bool, now: int)
    requires id in s.goroutines && Shared(s, id, p) && p != Over
    ensures var act := ActAt(p, s.goroutines[id].vm.Some?);
            TableStep(Table(s), EventOf(id, act, s.goroutines[id].result, panics, now), Table(GoneBy(s, id, act, c, result, panics, now)))
  {
    var act := ActAt(p, s.goroutines[id].vm.Some?);
    assert GoneBy(s, id, act, c, result, panics, now).goroutines.Keys == s.goroutines.Keys;
  }

  lemma TableSteps(s: System, e: Event)
    requires Inv(s) && Enabled(s, e)
    ensures TableStep(Table(s), TableEvent(s, e), Table(Apply(s, e)))
  {
    if e.Go? {
      assert SomePoint(s, e.id);
      var p :| Fits(s, e.id, p);
      GoneAt(s, e, p);
      var g := s.goroutines[e.id];
      GoTable(s, e.id, p, NextControl(g.control, g.vm.Some?, e.panics), e.result, e.panics, e.now);
    }
  }

  // ---- every step keeps them ----

  lemma GoFits(s: System, e: Event, p: Point)
    requires Enabled(s, e) && e.Go? && Fits(s, e.id, p)
    ensures Fits(Apply(s, e), e.id, NextPoint(p, s.goroutines[e.id].vm.Some?, e.panics))
  {
    GoneAt(s, e, p);
    var g := s.goroutines[e.id];
    OwnShared(s, e.id, p, NextControl(g.control, g.vm.Some?, e.panics), e.result, e.panics, e.now);
  }

  lemma OthersFit(s: System, e: Event, id: string, p: Point)
    requires Inv(s) && Enabled(s, e) && Fits(s, id, p) && e.Go? && e.id != id
    ensures Fits(Apply(s, e), id, p)
  {
    assert SomePoint(s, e.id);
    var q :| Fits(s, e.id, q);
    GoneAt(s, e, q);
    var g := s.goroutines[e.id];
    OtherShared(s, e.id, q, NextControl(g.control, g.vm.Some?, e.panics), e.result, e.panics, e.now, id, p);
  }

  lemma BystandersFit(s: System, e: Event, id: string, p: Point)
    requires Inv(s) && Enabled(s, e) && Fits(s, id, p) && !e.Go?
    ensures Fits(Apply(s, e), id, p)
  {
  }

  lemma StartFits(s: System, e: Event)
    requires Inv(s) && Enabled(s, e) && e.Start?
    ensures Fits(Apply(s, e), e.id, AtStart)
  {
  }

  ghost predicate OwnersOk(s: System) {
    forall vm :: vm in s.locks && s.locks[vm].ByJob? ==> s.locks[vm].id in s.goroutines && s.goroutines[s.locks[vm].id].vm == Some(vm)
  }

  lemma OwnersStay(s: System, e: Event)
    requires OwnersOk(s) && Enabled(s, e)
    ensures OwnersOk(Apply(s, e))
  {
    var s' := Apply(s, e);
    assert s'.locks.Keys <= s.locks.Keys || e.Request? || e.Start?;
  }

  lemma AllFit(s: System, e: Event, id: string)
    requires Inv(s) && Enabled(s, e) && id in Apply(s, e).goroutines
    ensures SomePoint(Apply(s, e), id)
  {
    if e.Start? && e.id == id {
      StartFits(s, e);
    } else {
      assert SomePoint(s, id);
      var p :| Fits(s, id, p);
      if !e.Go? {
        BystandersFit(s, e, id, p);
      } else if e.id == id {
        GoFits(s, e, p);
      } else {
        OthersFit(s, e, id, p);
      }
    }
  }

  lemma MutexStays(s: System, e: Event)
    requires MutexOk(s) && Enabled(s, e)
    ensures MutexOk(Apply(s, e))
  {
  }

  lemma TableStays(s: System, e: Event)
    requires Inv(s) && Enabled(s, e)
    ensures TableOk(Apply(s, e))
  {
    TableSteps(s, e);
    if TableEvent(s, e).Some? {
      CreateJobs.StepKeepsInv(Table(s), TableEvent(s, e).value);
    }
  }

  lemma PlacedStay(s: System, e: Event)
    requires Inv(s) && Enabled(s, e)
    ensures AllPlaced(Apply(s, e))
  {
    forall id | id in Apply(s, e).goroutines
      ensures SomePoint(Apply(s, e), id)
    {
      AllFit(s, e, id);
    }
  }

  lemma StepKeepsInv(s: System, e: Event)
    requires Inv(s) && Enabled(s, e)
    ensures Inv(Apply(s, e))
  {
    PlacedStay(s, e);
    OwnersStay(s, e);
    MutexStays(s, e);
    TableStays(s, e);
  }

  lemma NoneForgotten(s: System, e: Event)
    requires Enabled(s, e)
    ensures s.goroutines.Keys <= Apply(s, e).goroutines.Keys
  {
  }

  lemma {:induction false} RunKeepsInv(s: System, run: seq<Event>)
    requires Inv(s) && Possible(s, run)
    ensures Inv(After(s, run)) && s.goroutines.Keys <= After(s, run).goroutines.Keys
    decreases |run|
  {
    if run != [] {
      NoneForgotten(s, run[0]);
      StepKeepsInv(s, run[0]);
      RunKeepsInv(Apply(s, run[0]), run[1..]);
    }
  }

  // ---- a job seen finished has given its lock back ----

  /**
   On every run, whatever the work returns and wherever it panics: a job that the
   table shows as finished, to a status request or to anyone, holds the lock of no VM.
   */
  lemma SeenFinishedIsUnlocked(run: seq<Event>, id: string)
    requires Possible(EMPTY, run) && id in After(EMPTY, run).jobs && After(EMPTY, run).jobs[id].state != CreateJobs.Running
    ensures forall vm :: vm in After(EMPTY, run).locks ==> After(EMPTY, run).locks[vm] != ByJob(id)
  {
    RunKeepsInv(EMPTY, run);
    var s := After(EMPTY, run);
    assert TableOk(s) && id in Table(s).used && SomePoint(s, id);
    var p :| Fits(s, id, p);
  }

  /**
   A goroutine that has ended, panic or not, has recovered, holds neither the table's
   mutex nor a VM's lock, and its job, if still listed, is finished.
   */
  lemma EndedIsClean(run: seq<Event>, id: string)
    requires Possible(EMPTY, run) && id in After(EMPTY, run).goroutines && After(EMPTY, run).goroutines[id].control.frames == []
    ensures var s := After(EMPTY, run);
            && !s.goroutines[id].control.panicking && s.mutex != Some(id)
            && (forall vm :: vm in s.locks ==> s.locks[vm] != ByJob(id))
            && (id in s.jobs ==> s.jobs[id].state != CreateJobs.Running)
  {
    RunKeepsInv(EMPTY, run);
    var s := After(EMPTY, run);
    assert SomePoint(s, id);
    var p :| Fits(s, id, p);
    if p != Over {
      PointsFollow(p, s.goroutines[id].vm.Some?, false);
    }
  }

  // ---- no goroutine is stuck ----

  predicate CanGo(s: System, id: string) {
    Enabled(s, Go(id, CreateJobs.Failure(""), false, 0))
  }

  lemma HolderGoes(s: System, id: string, p: Point)
    requires Fits(s, id, p) && s.mutex == Some(id)
    ensures CanGo(s, id)
  {
    PointsFollow(p, s.goroutines[id].vm.Some?, false);
  }

  /** While a goroutine has not ended, it or the one that holds the table's mutex can take a step. */
  lemma NoDeadlock(run: seq<Event>, id: string)
    requires Possible(EMPTY, run) && id in After(EMPTY, run).goroutines && After(EMPTY, run).goroutines[id].control.frames != []
    ensures CanGo(After(EMPTY, run), id)
            || (After(EMPTY, run).mutex.Some? && CanGo(After(EMPTY, run), After(EMPTY, run).mutex.value))
  {
    RunKeepsInv(EMPTY, run);
    var s := After(EMPTY, run);
    if s.mutex.Some? {
      assert SomePoint(s, s.mutex.value);
      var p :| Fits(s, s.mutex.value, p);
      HolderGoes(s, s.mutex.value, p);
    }
  }

  // ---- the table keeps its own laws ----

  function TableRun(s: System, run: seq<Event>): seq<CreateJobs.Event>
    requires Possible(s, run)
    decreases |run|
  {
    if run == [] then []
    else
      (match TableEvent(s, run[0])
       case None => []
       case Some(t) => [t]) + TableRun(Apply(s, run[0]), run[1..])
  }

  lemma {:induction false} RunRefines(s: System, run: seq<Event>)
    requires Inv(s) && Possible(s, run)
    ensures CreateJobs.Possible(Table(s), TableRun(s, run))
    ensures CreateJobs.After(Table(s), TableRun(s, run)) == Table(After(s, run))
    decreases |run|
  {
    if run != [] {
      TableSteps(s, run[0]);
      StepKeepsInv(s, run[0]);
      RunRefines(Apply(s, run[0]), run[1..]);
      var rest := TableRun(Apply(s, run[0]), run[1..]);
      assert TableEvent(s, run[0]).Some? ==> ([TableEvent(s, run[0]).value] + rest)[1..] == rest;
      assert [] + rest == rest;
    }
  }

  /**
   Every run of the goroutines is a run of the job table, so all that holds of the
   table's runs holds here: a job changes once, and its result is never lost.
   */
  lemma JobsAreTableRuns(run: seq<Event>)
    requires Possible(EMPTY, run)
    ensures CreateJobs.Possible(CreateJobs.EMPTY, TableRun(EMPTY, run))
    ensures CreateJobs.After(CreateJobs.EMPTY, TableRun(EMPTY, run)).jobs == After(EMPTY, run).jobs
  {
    assert Table(EMPTY) == CreateJobs.EMPTY;
    RunRefines(EMPTY, run);
  }
}
