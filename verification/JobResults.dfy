/**
 What a finished job shows: the outcome that its own work returned, whatever other
 jobs and panics there were.
 */
module JobResults {
  import opened Common
  import opened JobGoroutines
  import opened JobSafety
  import CreateJobs

  /** What the work of job id returned in the run, if it did; so far gives what it had returned before. */
  function Returned(s: System, run: seq<Event>, id: string, sofar: Option<CreateJobs.WorkResult>): Option<CreateJobs.WorkResult>
    requires Possible(s, run)
    decreases |run|
  {
    if run == [] then sofar
    else
      var e := run[0];
      var ended := e.Go? && e.id == id && NextAct(s.goroutines[id].control) == Do(Work) && !e.panics;
      Returned(Apply(s, e), run[1..], id, if ended then Some(e.result) else sofar)
  }

  /** A finished job carries the outcome r, or the message that a panic leaves. */
  predicate Carries(j: CreateJobs.Job, r: Option<CreateJobs.WorkResult>) {
    match j.state
    case Running => true
    case Done => r.Some? && r.value.Success? && j.message == r.value.message && j.vmId == r.value.vmId && (r.value.name != "" ==> j.name == r.value.name)
    case Error => j.message == "Internal server error." || r == Some(CreateJobs.Failure(j.message))
  }

  predicate CarriesResult(s: System, id: string) {
    id in s.goroutines && id in s.jobs ==> Carries(s.jobs[id], s.goroutines[id].result)
  }

  lemma GoCarries(s: System, id: string, p: Point, c: Control, result: CreateJobs.WorkResult, panics: bool, now: int)
    requires id in s.goroutines && Shared(s, id, p) && p != Over && CarriesResult(s, id)
    ensures CarriesResult(GoneBy(s, id, ActAt(p, s.goroutines[id].vm.Some?), c, result, panics, now), id)
  {
  }

  lemma OwnCarries(s: System, e: Event, p: Point)
    requires Enabled(s, e) && e.Go? && Fits(s, e.id, p) && CarriesResult(s, e.id)
    ensures CarriesResult(Apply(s, e), e.id)
  {
    GoneAt(s, e, p);
    var g := s.goroutines[e.id];
    GoCarries(s, e.id, p, NextControl(g.control, g.vm.Some?, e.panics), e.result, e.panics, e.now);
  }

  lemma OtherGoCarries(s: System, id: string, act: Act, c: Control, result: CreateJobs.WorkResult, panics: bool, now: int, id': string)
    requires id in s.goroutines && id' != id && CarriesResult(s, id')
    ensures CarriesResult(GoneBy(s, id, act, c, result, panics, now), id')
  {
  }

  lemma OtherCarries(s: System, e: Event, id: string)
    requires Enabled(s, e) && CarriesResult(s, id) && (e.Go? ==> e.id != id)
    ensures CarriesResult(Apply(s, e), id)
  {
    if e.Go? {
      var g := s.goroutines[e.id];
      OtherGoCarries(s, e.id, NextAct(g.control), NextControl(g.control, g.vm.Some?, e.panics), e.result, e.panics, e.now, id);
    }
  }

  lemma StepCarries(s: System, e: Event, id: string)
    requires Inv(s) && Enabled(s, e) && CarriesResult(s, id)
    ensures CarriesResult(Apply(s, e), id)
  {
    if e.Go? && e.id == id {
      assert SomePoint(s, id);
      var p :| Fits(s, id, p);
      OwnCarries(s, e, p);
    } else {
      OtherCarries(s, e, id);
    }
  }

  lemma {:induction false} RunCarries(s: System, run: seq<Event>, id: string)
    requires Inv(s) && Possible(s, run) && CarriesResult(s, id)
    ensures CarriesResult(After(s, run), id)
    decreases |run|
  {
    if run != [] {
      StepCarries(s, run[0], id);
      StepKeepsInv(s, run[0]);
      RunCarries(Apply(s, run[0]), run[1..], id);
    }
  }

  function ResultSoFar(s: System, id: string): Option<CreateJobs.WorkResult> {
    if id in s.goroutines then s.goroutines[id].result else None
  }

  lemma StepResult(s: System, e: Event, id: string)
    requires Enabled(s, e)
    ensures ResultSoFar(Apply(s, e), id) ==
            if e.Go? && e.id == id && NextAct(s.goroutines[id].control) == Do(Work) && !e.panics then Some(e.result) else ResultSoFar(s, id)
  {
  }

  lemma {:induction false} ResultIsReturned(s: System, run: seq<Event>, id: string)
    requires Possible(s, run)
    ensures ResultSoFar(After(s, run), id) == Returned(s, run, id, ResultSoFar(s, id))
    decreases |run|
  {
    if run != [] {
      StepResult(s, run[0], id);
      ResultIsReturned(Apply(s, run[0]), run[1..], id);
    }
  }

  /**
   On every run a job seen done shows the message and the VM that its own work
   returned, and one seen failed the error it returned, or the message for a panic.
   */
  lemma SeenResultIsReturned(run: seq<Event>, id: string)
    requires Possible(EMPTY, run) && id in After(EMPTY, run).jobs
    ensures Carries(After(EMPTY, run).jobs[id], Returned(EMPTY, run, id, None))
  {
    RunKeepsInv(EMPTY, run);
    assert TableOk(After(EMPTY, run)) && id in Table(After(EMPTY, run)).used;
    RunCarries(EMPTY, run, id);
    ResultIsReturned(EMPTY, run, id);
  }
}
