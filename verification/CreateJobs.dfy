/**
 The table of background jobs. A job is registered as running, its goroutine
 records the result when the work returns or panics, and starting another job
 sweeps out those that ended more than an hour ago.
 */
module CreateJobs {
  import opened Common

  /** createJobRetention, in nanoseconds. */
  const RETENTION: int := 3600 * 1_000_000_000

  datatype JobState = Running | Done | Error

  datatype Job = Job(state: JobState, message: string, vmId: string, name: string, endedAt: Option<int>)

  datatype WorkResult = Success(message: string, vmId: string, name: string) | Failure(message: string)

  type Jobs = map<string, Job>

  predicate Expired(j: Job, now: int) {
    j.endedAt.Some? && now - j.endedAt.value > RETENTION
  }

  function Swept(jobs: Jobs, now: int): Jobs {
    map id | id in jobs && !Expired(jobs[id], now) :: jobs[id]
  }

  function Recorded(j: Job, result: WorkResult, now: int): Job {
    match result
    case Success(message, vmId, name) =>
      Job(Done, message, vmId, if name != "" then name else j.name, Some(now))
    case Failure(message) => j.(state := Error, message := message, endedAt := Some(now))
  }

  function Crashed(j: Job, now: int): Job {
    j.(state := Error, message := "Internal server error.", endedAt := Some(now))
  }

  class JobTable {
    var jobs: Jobs

    constructor ()
      ensures jobs == map[]
    {
      jobs := map[];
    }

    method Sweep(now: int)
      modifies this
      ensures jobs == Swept(old(jobs), now)
    {
      var todo := jobs.Keys;
      while todo != {}
        invariant todo <= old(jobs).Keys
        invariant jobs == map id | id in old(jobs) && (id in todo || !Expired(old(jobs)[id], now)) :: old(jobs)[id]
        decreases todo
      {
        var id :| id in todo;
        if jobs[id].endedAt.Some? && now - jobs[id].endedAt.value > RETENTION {
          jobs := jobs - {id};
        }
        todo := todo - {id};
      }
    }

    method Begin(id: string, name: string, now: int)
      modifies this
      ensures jobs == Swept(old(jobs), now)[id := Job(Running, "", "", name, None)]
    {
      Sweep(now);
      jobs := jobs[id := Job(Running, "", "", name, None)];
    }

    /** The goroutine after its work returned. A job that is not in the table is left alone. */
    method WorkReturned(id: string, result: WorkResult, now: int)
      modifies this
      ensures jobs == if id in old(jobs) then old(jobs)[id := Recorded(old(jobs)[id], result, now)] else old(jobs)
    {
      if id !in jobs {
        return;
      }
      var j := jobs[id];
      j := j.(endedAt := Some(now));
      match result {
        case Failure(message) => j := j.(state := Error, message := message);
        case Success(message, vmId, name) =>
          j := j.(state := Done, message := message, vmId := vmId);
          if name != "" {
            j := j.(name := name);
          }
      }
      jobs := jobs[id := j];
    }

    /** The deferred recover of the goroutine: its job, if listed, ends as an error now and keeps its name; no other changes. */
    method WorkPanicked(id: string, now: int)
      modifies this
      ensures jobs.Keys == old(jobs).Keys && forall other :: other in jobs && other != id ==> jobs[other] == old(jobs)[other]
      ensures id in jobs ==> jobs[id] == Job(Error, "Internal server error.", old(jobs)[id].vmId, old(jobs)[id].name, Some(now))
    {
      if id in jobs {
        jobs := jobs[id := jobs[id].(state := Error, message := "Internal server error.", endedAt := Some(now))];
      }
    }

    method Status(id: string) returns (job: Option<Job>)
      ensures job == if id in jobs then Some(jobs[id]) else None
    {
      job := if id in jobs then Some(jobs[id]) else None;
    }
  }

  // ---- runs ----

  /** The table, the goroutines still working, and the identifiers given out so far. */
  datatype System = System(jobs: Jobs, working: set<string>, used: set<string>)

  datatype Event =
    | Begins(id: string, name: string, now: int)
    | Returns(id: string, result: WorkResult, now: int)
    | Panics(id: string, now: int)

  /** Identifiers are random, so a new one is taken to be unused; a goroutine ends once. */
  predicate Enabled(s: System, e: Event) {
    match e
    case Begins(id, _, _) => id !in s.used
    case Returns(id, _, _) => id in s.working
    case Panics(id, _) => id in s.working
  }

  function Apply(s: System, e: Event): System {
    match e
    case Begins(id, name, now) =>
      System(Swept(s.jobs, now)[id := Job(Running, "", "", name, None)], s.working + {id}, s.used + {id})
    case Returns(id, result, now) =>
      s.(jobs := if id in s.jobs then s.jobs[id := Recorded(s.jobs[id], result, now)] else s.jobs, working := s.working - {id})
    case Panics(id, now) =>
      s.(jobs := if id in s.jobs then s.jobs[id := Crashed(s.jobs[id], now)] else s.jobs, working := s.working - {id})
  }

  predicate Possible(s: System, run: seq<Event>)
    decreases |run|
  {
    run != [] ==> Enabled(s, run[0]) && Possible(Apply(s, run[0]), run[1..])
  }

  function After(s: System, run: seq<Event>): System
    decreases |run|
  {
    if run == [] then s else After(Apply(s, run[0]), run[1..])
  }

  const EMPTY := System(map[], {}, {})

  /** A job says "running" exactly while its goroutine works, and such a job is always in the table. */
  ghost predicate Inv(s: System) {
    && s.working <= s.jobs.Keys <= s.used
    && forall id :: id in s.jobs ==>
         && (s.jobs[id].state == Running <==> id in s.working)
         && (s.jobs[id].state == Running <==> s.jobs[id].endedAt.None?)
  }

  lemma StepKeepsInv(s: System, e: Event)
    requires Inv(s) && Enabled(s, e)
    ensures Inv(Apply(s, e))
  {
  }

  lemma {:induction false} RunKeepsInv(s: System, run: seq<Event>)
    requires Inv(s) && Possible(s, run)
    ensures Inv(After(s, run))
    decreases |run|
  {
    if run != [] {
      StepKeepsInv(s, run[0]);
      RunKeepsInv(Apply(s, run[0]), run[1..]);
    }
  }

  /** A finished job keeps its result for as long as it is listed, whatever happens afterwards. */
  lemma {:induction false} FinishedStays(s: System, run: seq<Event>, id: string)
    requires Inv(s) && Possible(s, run)
    requires id in s.used && (id in s.jobs ==> s.jobs[id].state != Running)
    ensures id in After(s, run).jobs ==> id in s.jobs && After(s, run).jobs[id] == s.jobs[id]
    decreases |run|
  {
    if run != [] {
      StepKeepsInv(s, run[0]);
      FinishedStays(Apply(s, run[0]), run[1..], id);
    }
  }

  /**
   On every run, panics included: a job changes state at most once, from running
   to done or error, and a job leaves the table only by a sweep, more than an
   hour after it finished; a running job is never dropped.
   */
  lemma JobLifeCycle(run: seq<Event>, e: Event, id: string)
    requires Possible(EMPTY, run) && Enabled(After(EMPTY, run), e)
    ensures var s, s' := After(EMPTY, run), Apply(After(EMPTY, run), e);
            id in s.jobs ==>
              if id in s'.jobs then
                s'.jobs[id] == s.jobs[id] || (s.jobs[id].state == Running && s'.jobs[id].state != Running && e.id == id)
              else
                e.Begins? && s.jobs[id].state != Running && e.now - s.jobs[id].endedAt.value > RETENTION
  {
    RunKeepsInv(EMPTY, run);
  }

  /** A new job is listed as running, under its name, with nothing else to say yet. */
  lemma BeginsRunning(s: System, e: Event)
    requires Enabled(s, e) && e.Begins?
    ensures e.id in Apply(s, e).jobs && Apply(s, e).jobs[e.id] == Job(Running, "", "", e.name, None)
    ensures forall id :: id != e.id && id in s.jobs ==>
              (id in Apply(s, e).jobs <==> s.jobs[id].endedAt.None? || e.now - s.jobs[id].endedAt.value <= 3600 * 1_000_000_000)
  {
  }

  /** A goroutine that ends always finds its job, so the result is never lost. */
  lemma ResultRecorded(run: seq<Event>, e: Event)
    requires Possible(EMPTY, run) && Enabled(After(EMPTY, run), e) && !e.Begins?
    ensures var s, s' := After(EMPTY, run), Apply(After(EMPTY, run), e);
            && e.id in s.jobs && s.jobs[e.id].state == Running
            && e.id in s'.jobs && s'.jobs[e.id].endedAt == Some(e.now)
            && s'.jobs[e.id].state == (if e.Returns? && e.result.Success? then Done else Error)
            && (if e.Returns? && e.result.Success? then
                  && s'.jobs[e.id].message == e.result.message && s'.jobs[e.id].vmId == e.result.vmId
                  && s'.jobs[e.id].name == (if e.result.name == "" then s.jobs[e.id].name else e.result.name)
                else
                  && s'.jobs[e.id].message == (if e.Returns? then e.result.message else "Internal server error.")
                  && s'.jobs[e.id].vmId == s.jobs[e.id].vmId && s'.jobs[e.id].name == s.jobs[e.id].name)
  {
    RunKeepsInv(EMPTY, run);
  }
}
