/**
 The screen capturer: one loop owns the session and serves frame grabs and input
 calls that any thread hands to it, until it is asked to close. Every send on a
 channel, receive from one and close of one is a step.
 */
module Capturer {
  import opened Common

  /** A call offers itself on a channel without room, so the loop takes it or it waits; the answer's channel holds one value. */
  datatype Phase = NotStarted | Offering | Awaiting | Answered(result: int) | Refused

  datatype Call = Call(phase: Phase, answer: Option<int>)

  /** A Close looks whether the loop has ended, then closes the request channel, then waits for the end. */
  datatype Closing = Outside | Looked | Waiting | Returned | Panicked

  datatype Loop = Idle | Serving(call: nat) | Ended

  /** served lists the answers the loop has sent, in order. */
  datatype State = State(loop: Loop, closeRequested: bool, calls: seq<Call>, closers: seq<Closing>, served: seq<(nat, int)>)

  datatype Action =
    | Offer(call: nat)
    | Accept(call: nat)
    | Answer(result: int)
    | Receive(call: nat)
    | Refuse(call: nat)
    | Redraw
    | EndLoop
    | Look(closer: nat)
    | Request(closer: nat)
    | ReturnFromClose(closer: nat)

  predicate Enabled(s: State, a: Action) {
    match a
    case Offer(i) => i < |s.calls| && s.calls[i].phase.NotStarted?
    case Accept(i) => i < |s.calls| && s.calls[i].phase.Offering? && s.loop.Idle?
    case Answer(_) => s.loop.Serving? && s.loop.call < |s.calls| && s.calls[s.loop.call].answer.None?
    case Receive(i) => i < |s.calls| && s.calls[i].phase.Awaiting? && s.calls[i].answer.Some?
    case Refuse(i) => i < |s.calls| && s.calls[i].phase.Offering? && s.loop.Ended?
    case Redraw => s.loop.Idle?
    case EndLoop => s.loop.Idle? && s.closeRequested
    case Look(j) => j < |s.closers| && s.closers[j].Outside?
    case Request(j) => j < |s.closers| && s.closers[j].Looked?
    case ReturnFromClose(j) => j < |s.closers| && s.closers[j].Waiting? && s.loop.Ended?
  }

  function Apply(s: State, a: Action): (s': State)
    requires Enabled(s, a)
    ensures |s'.calls| == |s.calls| && |s'.closers| == |s.closers|
  {
    match a
    case Offer(i) => s.(calls := s.calls[i := s.calls[i].(phase := Offering)])
    case Accept(i) => s.(calls := s.calls[i := s.calls[i].(phase := Awaiting)], loop := Serving(i))
    case Answer(r) =>
      s.(calls := s.calls[s.loop.call := s.calls[s.loop.call].(answer := Some(r))], served := s.served + [(s.loop.call, r)], loop := Idle)
    case Receive(i) => s.(calls := s.calls[i := Call(Answered(s.calls[i].answer.value), None)])
    case Refuse(i) => s.(calls := s.calls[i := s.calls[i].(phase := Refused)])
    case Redraw => s
    case EndLoop => s.(loop := Ended)
    case Look(j) => s.(closers := s.closers[j := if s.loop.Ended? then Returned else Looked])
    case Request(j) =>
      if s.closeRequested then s.(closers := s.closers[j := Panicked])
      else s.(closers := s.closers[j := Waiting], closeRequested := true)
    case ReturnFromClose(j) => s.(closers := s.closers[j := Returned])
  }

  predicate Possible(s: State, run: seq<Action>)
    decreases |run|
  {
    run != [] ==> Enabled(s, run[0]) && Possible(Apply(s, run[0]), run[1..])
  }

  function After(s: State, run: seq<Action>): State
    requires Possible(s, run)
    decreases |run|
  {
    if run == [] then s else After(Apply(s, run[0]), run[1..])
  }

  ghost predicate Initial(s: State) {
    && s.loop == Idle && !s.closeRequested && s.served == []
    && (forall i :: 0 <= i < |s.calls| ==> s.calls[i] == Call(NotStarted, None))
    && (forall j :: 0 <= j < |s.closers| ==> s.closers[j] == Outside)
  }

  // ---- every accepted call is answered exactly once ----

  /** The answers the loop has sent to call i. */
  function AnswersTo(served: seq<(nat, int)>, i: nat): seq<int>
    decreases |served|
  {
    if served == [] then []
    else
      var last := served[|served| - 1];
      AnswersTo(served[..|served| - 1], i) + if last.0 == i then [last.1] else []
  }

  /** What a call's phase says about the loop and about the answers sent to it. */
  ghost predicate CallInv(s: State, i: nat)
    requires i < |s.calls|
  {
    var c, answers := s.calls[i], AnswersTo(s.served, i);
    match c.phase
    case NotStarted => answers == [] && c.answer.None? && s.loop != Serving(i)
    case Offering => answers == [] && c.answer.None? && s.loop != Serving(i)
    case Awaiting => if c.answer.Some? then answers == [c.answer.value] && s.loop != Serving(i) else answers == [] && s.loop == Serving(i)
    case Answered(r) => answers == [r] && c.answer.None? && s.loop != Serving(i)
    case Refused => answers == [] && c.answer.None? && s.loop.Ended?
  }

  /** What a Close's progress says about the request and the loop. */
  ghost predicate CloserInv(s: State, c: Closing) {
    && (c.Waiting? || c.Panicked? ==> s.closeRequested)
    && (c.Returned? ==> s.loop.Ended?)
  }

  ghost predicate Inv(s: State) {
    && (forall i: nat :: i < |s.calls| ==> CallInv(s, i))
    && (forall j :: 0 <= j < |s.closers| ==> CloserInv(s, s.closers[j]))
    && (s.loop.Serving? ==> s.loop.call < |s.calls|)
    && (s.loop.Ended? ==> s.closeRequested)
  }

  lemma ServedOneMore(served: seq<(nat, int)>, k: nat, r: int, i: nat)
    ensures AnswersTo(served + [(k, r)], i) == AnswersTo(served, i) + if k == i then [r] else []
  {
    assert (served + [(k, r)])[..|served|] == served;
  }

  lemma StepKeepsCall(s: State, a: Action, i: nat)
    requires Inv(s) && Enabled(s, a) && i < |s.calls|
    ensures CallInv(Apply(s, a), i)
  {
    assert CallInv(s, i);
    if a.Answer? {
      assert CallInv(s, s.loop.call);
      ServedOneMore(s.served, s.loop.call, a.result, i);
    }
  }

  lemma StepKeepsInv(s: State, a: Action)
    requires Inv(s) && Enabled(s, a)
    ensures Inv(Apply(s, a))
  {
    var s' := Apply(s, a);
    forall i: nat | i < |s'.calls|
      ensures CallInv(s', i)
    {
      StepKeepsCall(s, a, i);
    }
    forall j | 0 <= j < |s'.closers|
      ensures CloserInv(s', s'.closers[j])
    {
      assert CloserInv(s, s.closers[j]);
    }
  }

  lemma {:induction false} RunKeepsInv(s: State, run: seq<Action>)
    requires Inv(s) && Possible(s, run)
    ensures Inv(After(s, run)) && |After(s, run).calls| == |s.calls| && |After(s, run).closers| == |s.closers|
    decreases |run|
  {
    if run != [] {
      StepKeepsInv(s, run[0]);
      RunKeepsInv(Apply(s, run[0]), run[1..]);
    }
  }

  /**
   Over every run: a call that returned a result got the one answer the loop sent
   it, a refused call was sent none, and once the loop has ended no call is left
   accepted but without its answer.
   */
  lemma AnsweredExactlyOnce(s0: State, run: seq<Action>, i: nat)
    requires Initial(s0) && Possible(s0, run) && i < |s0.calls|
    ensures i < |After(s0, run).calls|
    ensures var s := After(s0, run);
            var c, answers := s.calls[i], AnswersTo(s.served, i);
            && |answers| <= 1
            && (c.phase.Answered? ==> answers == [c.phase.result])
            && (c.phase.Refused? ==> answers == [])
            && (s.loop.Ended? && c.phase.Awaiting? ==> c.answer.Some?)
  {
    RunKeepsInv(s0, run);
    assert CallInv(After(s0, run), i);
  }

  lemma EndedStays(s: State, a: Action)
    requires Enabled(s, a) && s.loop.Ended?
    ensures Apply(s, a).loop.Ended? && Apply(s, a).served == s.served
  {
  }

  /** A call that begins after the loop has ended can only be refused, or still be about to be. */
  lemma {:induction false} RefusedOnceEnded(s: State, run: seq<Action>, i: nat)
    requires Possible(s, run) && s.loop.Ended? && i < |s.calls|
    requires s.calls[i].phase.NotStarted? || s.calls[i].phase.Offering? || s.calls[i].phase.Refused?
    ensures i < |After(s, run).calls|
    ensures var phase := After(s, run).calls[i].phase; phase.NotStarted? || phase.Offering? || phase.Refused?
    decreases |run|
  {
    if run != [] {
      EndedStays(s, run[0]);
      RefusedOnceEnded(Apply(s, run[0]), run[1..], i);
    }
  }

  // ---- nothing blocks for ever ----

  predicate CallOver(c: Call) {
    c.phase.Answered? || c.phase.Refused?
  }

  predicate CloserOver(c: Closing) {
    c.Returned? || c.Panicked?
  }

  ghost predicate AllOver(s: State) {
    && (forall i :: 0 <= i < |s.calls| ==> CallOver(s.calls[i]))
    && (forall j :: 0 <= j < |s.closers| ==> CloserOver(s.closers[j]))
  }

  /** Some step other than a redraw is possible. */
  ghost predicate CanProceed(s: State) {
    exists a: Action :: !a.Redraw? && Enabled(s, a)
  }

  lemma LoopProceeds(s: State)
    requires Inv(s) && s.loop.Serving?
    ensures CanProceed(s)
  {
    assert CallInv(s, s.loop.call);
    assert Enabled(s, Answer(0));
  }

  /** No call and no Close is ever stuck: while one is unfinished something can move. */
  lemma NoDeadlock(s: State)
    requires Inv(s)
    requires !AllOver(s)
    ensures CanProceed(s)
  {
    if s.loop.Serving? {
      LoopProceeds(s);
    } else if i :| 0 <= i < |s.calls| && !CallOver(s.calls[i]) {
      assert CallInv(s, i);
      match s.calls[i].phase
      case NotStarted => assert Enabled(s, Offer(i));
      case Offering => assert if s.loop.Idle? then Enabled(s, Accept(i)) else Enabled(s, Refuse(i));
      case Awaiting => assert Enabled(s, Receive(i));
    } else {
      var j :| 0 <= j < |s.closers| && !CloserOver(s.closers[j]);
      assert CloserInv(s, s.closers[j]);
      match s.closers[j]
      case Outside => assert Enabled(s, Look(j));
      case Looked => assert Enabled(s, Request(j));
      case Waiting => assert if s.loop.Idle? then Enabled(s, EndLoop) else Enabled(s, ReturnFromClose(j));
    }
  }

  function CallRank(c: Call): nat {
    match c.phase
    case NotStarted => 4
    case Offering => 3
    case Awaiting => 1
    case _ => 0
  }

  function CloserRank(c: Closing): nat {
    match c
    case Outside => 3
    case Looked => 2
    case Waiting => 1
    case _ => 0
  }

  function LoopRank(l: Loop): nat {
    match l
    case Idle => 1
    case Serving(_) => 2
    case Ended => 0
  }

  function CallWork(cs: seq<Call>): nat {
    if cs == [] then 0 else CallRank(cs[0]) + CallWork(cs[1..])
  }

  function CloserWork(cs: seq<Closing>): nat {
    if cs == [] then 0 else CloserRank(cs[0]) + CloserWork(cs[1..])
  }

  function Work(s: State): nat {
    LoopRank(s.loop) + CallWork(s.calls) + CloserWork(s.closers)
  }

  lemma {:induction false} CallWorkUpdate(cs: seq<Call>, i: nat, c: Call)
    requires i < |cs|
    ensures CallWork(cs[i := c]) == CallWork(cs) - CallRank(cs[i]) + CallRank(c)
    decreases |cs|
  {
    if i > 0 {
      assert cs[i := c][1..] == cs[1..][i - 1 := c];
      CallWorkUpdate(cs[1..], i - 1, c);
    } else {
      assert cs[i := c][1..] == cs[1..];
    }
  }

  lemma {:induction false} CloserWorkUpdate(cs: seq<Closing>, i: nat, c: Closing)
    requires i < |cs|
    ensures CloserWork(cs[i := c]) == CloserWork(cs) - CloserRank(cs[i]) + CloserRank(c)
    decreases |cs|
  {
    if i > 0 {
      assert cs[i := c][1..] == cs[1..][i - 1 := c];
      CloserWorkUpdate(cs[1..], i - 1, c);
    } else {
      assert cs[i := c][1..] == cs[1..];
    }
  }

  lemma CallMove(s: State, s': State, i: nat)
    requires i < |s.calls| && |s'.calls| == |s.calls| && s'.calls == s.calls[i := s'.calls[i]] && s'.closers == s.closers
    ensures Work(s') == Work(s) - CallRank(s.calls[i]) + CallRank(s'.calls[i]) - LoopRank(s.loop) + LoopRank(s'.loop)
  {
    CallWorkUpdate(s.calls, i, s'.calls[i]);
  }

  lemma CloserMove(s: State, s': State, j: nat)
    requires j < |s.closers| && |s'.closers| == |s.closers| && s'.closers == s.closers[j := s'.closers[j]]
    requires s'.calls == s.calls && s'.loop == s.loop
    ensures Work(s') == Work(s) - CloserRank(s.closers[j]) + CloserRank(s'.closers[j])
  {
    CloserWorkUpdate(s.closers, j, s'.closers[j]);
  }

  lemma StepDoesWork(s: State, a: Action)
    requires Enabled(s, a) && !a.Redraw?
    ensures Work(Apply(s, a)) < Work(s)
  {
    var s' := Apply(s, a);
    match a
    case Offer(i) => CallMove(s, s', i);
    case Accept(i) => CallMove(s, s', i);
    case Answer(_) => CallMove(s, s', s.loop.call);
    case Receive(i) => CallMove(s, s', i);
    case Refuse(i) => CallMove(s, s', i);
    case EndLoop =>
    case Look(j) => CloserMove(s, s', j);
    case Request(j) => CloserMove(s, s', j);
    case ReturnFromClose(j) => CloserMove(s, s', j);
  }

  function Moves(run: seq<Action>): nat {
    if run == [] then 0 else (if run[0].Redraw? then 0 else 1) + Moves(run[1..])
  }

  lemma {:induction false} WorkBoundsRun(s: State, run: seq<Action>)
    requires Possible(s, run)
    ensures Moves(run) + Work(After(s, run)) <= Work(s)
    decreases |run|
  {
    if run != [] {
      if !run[0].Redraw? {
        StepDoesWork(s, run[0]);
      }
      WorkBoundsRun(Apply(s, run[0]), run[1..]);
    }
  }

  lemma {:induction false} FreshCallWork(cs: seq<Call>)
    requires forall i :: 0 <= i < |cs| ==> cs[i] == Call(NotStarted, None)
    ensures CallWork(cs) == 4 * |cs|
    decreases |cs|
  {
    if cs != [] {
      FreshCallWork(cs[1..]);
    }
  }

  lemma {:induction false} FreshCloserWork(cs: seq<Closing>)
    requires forall i :: 0 <= i < |cs| ==> cs[i] == Outside
    ensures CloserWork(cs) == 3 * |cs|
    decreases |cs|
  {
    if cs != [] {
      FreshCloserWork(cs[1..]);
    }
  }

  /**
   Redraws aside, n calls and m closes take at most 4n + 3m + 1 steps between them,
   and when none of those is possible every call and every close has finished.
   */
  lemma EverythingFinishes(s0: State, run: seq<Action>)
    requires Initial(s0) && Possible(s0, run)
    ensures Moves(run) <= 4 * |s0.calls| + 3 * |s0.closers| + 1
    ensures !CanProceed(After(s0, run)) ==>
              AllOver(After(s0, run)) && |After(s0, run).calls| == |s0.calls| && |After(s0, run).closers| == |s0.closers|
  {
    FreshCallWork(s0.calls);
    FreshCloserWork(s0.closers);
    WorkBoundsRun(s0, run);
    RunKeepsInv(s0, run);
    var s := After(s0, run);
    if !CanProceed(s) && !AllOver(s) {
      NoDeadlock(s);
    }
  }

  // ---- when closing panics ----

  predicate UnderWay(c: Closing) {
    c.Looked? || c.Waiting?
  }

  /** Close j looks while the loop has not ended and another Close has looked and not returned. */
  ghost predicate OverlapsAt(s: State, a: Action) {
    a.Look? && !s.loop.Ended? && exists k :: 0 <= k < |s.closers| && k != a.closer && UnderWay(s.closers[k])
  }

  ghost predicate Overlaps(s: State, run: seq<Action>)
    requires Possible(s, run)
    decreases |run|
  {
    run != [] && (OverlapsAt(s, run[0]) || Overlaps(Apply(s, run[0]), run[1..]))
  }

  ghost predicate SomePanicked(s: State) {
    exists j :: 0 <= j < |s.closers| && s.closers[j].Panicked?
  }

  /** Without overlaps: whoever has looked can still ask, and whoever asked is still waiting. */
  ghost predicate Orderly(s: State) {
    && (forall j :: 0 <= j < |s.closers| ==> !s.closers[j].Panicked?)
    && (forall j :: 0 <= j < |s.closers| && s.closers[j].Looked? ==> !s.closeRequested)
    && (forall j, k :: 0 <= j < k < |s.closers| ==> !(UnderWay(s.closers[j]) && UnderWay(s.closers[k])) || s.loop.Ended?)
    && (s.closeRequested && !s.loop.Ended? ==> exists j :: 0 <= j < |s.closers| && s.closers[j].Waiting?)
  }

  lemma StepKeepsOrderly(s: State, a: Action)
    requires Inv(s) && Orderly(s) && Enabled(s, a) && !OverlapsAt(s, a)
    ensures Orderly(Apply(s, a))
  {
    var s' := Apply(s, a);
    if s'.closeRequested && !s'.loop.Ended? && !a.Request? {
      var j :| 0 <= j < |s.closers| && s.closers[j].Waiting?;
      assert s'.closers[j].Waiting?;
    }
    if a.Request? {
      assert s'.closers[a.closer].Waiting?;
    }
  }

  lemma {:induction false} RunKeepsOrderly(s: State, run: seq<Action>)
    requires Inv(s) && Orderly(s) && Possible(s, run) && !Overlaps(s, run)
    ensures Orderly(After(s, run))
    decreases |run|
  {
    if run != [] {
      StepKeepsOrderly(s, run[0]);
      StepKeepsInv(s, run[0]);
      RunKeepsOrderly(Apply(s, run[0]), run[1..]);
    }
  }

  /** A panic has happened or can no longer be avoided. */
  ghost predicate Doomed(s: State) {
    || SomePanicked(s)
    || (exists j :: 0 <= j < |s.closers| && s.closers[j].Looked? && s.closeRequested)
    || (exists j, k :: 0 <= j < k < |s.closers| && s.closers[j].Looked? && s.closers[k].Looked?)
  }

  lemma OverlapDooms(s: State, a: Action)
    requires Inv(s) && Enabled(s, a) && OverlapsAt(s, a)
    ensures Doomed(Apply(s, a))
  {
    var s' := Apply(s, a);
    var k :| 0 <= k < |s.closers| && k != a.closer && UnderWay(s.closers[k]);
    assert CloserInv(s, s.closers[k]);
    assert s'.closers[a.closer].Looked? && s'.closers[k] == s.closers[k];
  }

  lemma StepKeepsDoomed(s: State, a: Action)
    requires Doomed(s) && Enabled(s, a)
    ensures Doomed(Apply(s, a))
  {
    var s' := Apply(s, a);
    if j :| 0 <= j < |s.closers| && s.closers[j].Panicked? {
      assert s'.closers[j].Panicked?;
    } else if j :| 0 <= j < |s.closers| && s.closers[j].Looked? && s.closeRequested {
      assert s'.closers[j].Looked? || s'.closers[j].Panicked?;
    } else {
      var j, k :| 0 <= j < k < |s.closers| && s.closers[j].Looked? && s.closers[k].Looked?;
      if a == Request(j) {
        assert s'.closers[k].Looked? && s'.closeRequested;
      } else if a == Request(k) {
        assert s'.closers[j].Looked? && s'.closeRequested;
      } else {
        assert s'.closers[j].Looked? && s'.closers[k].Looked?;
      }
    }
  }

  lemma {:induction false} RunKeepsDoomed(s: State, run: seq<Action>)
    requires Doomed(s) && Possible(s, run)
    ensures Doomed(After(s, run))
    decreases |run|
  {
    if run != [] {
      StepKeepsDoomed(s, run[0]);
      RunKeepsDoomed(Apply(s, run[0]), run[1..]);
    }
  }

  lemma {:induction false} OverlappingRunDooms(s: State, run: seq<Action>)
    requires Inv(s) && Possible(s, run) && Overlaps(s, run)
    ensures Doomed(After(s, run))
    decreases |run|
  {
    if OverlapsAt(s, run[0]) {
      OverlapDooms(s, run[0]);
      RunKeepsDoomed(Apply(s, run[0]), run[1..]);
    } else {
      StepKeepsInv(s, run[0]);
      OverlappingRunDooms(Apply(s, run[0]), run[1..]);
    }
  }

  /**
   On every run at whose end all closes are over, a Close has panicked if and only
   if at some point a Close looked while the loop had not ended and another Close
   had looked and not returned.
   */
  lemma PanicIffOverlap(s0: State, run: seq<Action>)
    requires Initial(s0) && Possible(s0, run)
    requires forall j :: 0 <= j < |After(s0, run).closers| ==> CloserOver(After(s0, run).closers[j])
    ensures SomePanicked(After(s0, run)) <==> Overlaps(s0, run)
  {
    if Overlaps(s0, run) {
      OverlappingRunDooms(s0, run);
    } else {
      RunKeepsOrderly(s0, run);
    }
  }

  /** Where no Close overlaps another, none has panicked at any point, and one that has returned has seen the loop end. */
  lemma SequentialClosesNeverPanic(s0: State, run: seq<Action>, j: nat)
    requires Initial(s0) && Possible(s0, run) && !Overlaps(s0, run) && j < |s0.closers|
    ensures j < |After(s0, run).closers|
    ensures !After(s0, run).closers[j].Panicked? && (After(s0, run).closers[j].Returned? ==> After(s0, run).loop.Ended?)
  {
    RunKeepsInv(s0, run);
    RunKeepsOrderly(s0, run);
    assert CloserInv(After(s0, run), After(s0, run).closers[j]);
  }

  /** A witness: two closes look before either asks. */
  lemma OverlappingClosesPanic()
    ensures var s0 := State(Idle, false, [], [Outside, Outside], []);
            var run := [Look(0), Look(1), Request(0), Request(1)];
            Initial(s0) && Possible(s0, run) && After(s0, run).closers[1].Panicked?
  {
    var s0 := State(Idle, false, [], [Outside, Outside], []);
    var s1 := Apply(s0, Look(0));
    var s2 := Apply(s1, Look(1));
    var s3 := Apply(s2, Request(0));
    var s4 := Apply(s3, Request(1));
    assert Possible(s4, []);
    assert [Request(1)][1..] == [] && Possible(s3, [Request(1)]);
    assert [Request(0), Request(1)][1..] == [Request(1)] && Possible(s2, [Request(0), Request(1)]);
    assert [Look(1), Request(0), Request(1)][1..] == [Request(0), Request(1)] && Possible(s1, [Look(1), Request(0), Request(1)]);
    assert [Look(0), Look(1), Request(0), Request(1)][1..] == [Look(1), Request(0), Request(1)];
  }

  // ---- the capturer's operations ----

  ghost predicate Leads(s: State, run: seq<Action>, s': State) {
    Possible(s, run) && After(s, run) == s'
  }

  lemma {:induction false} LeadsOne(s: State, run: seq<Action>, s1: State, a: Action)
    requires Leads(s, run, s1) && Enabled(s1, a)
    ensures Leads(s, run + [a], Apply(s1, a))
    decreases |run|
  {
    if run == [] {
      assert run + [a] == [a] && [a][1..] == [];
    } else {
      assert (run + [a])[1..] == run[1..] + [a];
      LeadsOne(Apply(s, run[0]), run[1..], s1, a);
    }
  }

  /** A pointer coordinate as the guest gets it: 1-based, within the capture resolution. */
  function Clamped(v: int, size: nat): (c: int)
    ensures size >= 1 ==> c == if v < 1 then 1 else if v <= size then v else size
  {
    if v < 1 then (if 1 > size then size else 1) else if v > size then size else v
  }

  /** The calls once the one being served, if any, has been answered. */
  function Settled(loop: Loop, calls: seq<Call>, answer: int): seq<Call> {
    if loop.Serving? && loop.call < |calls| then calls[loop.call := calls[loop.call].(answer := Some(answer))] else calls
  }

  /** Each method is one operation, with the loop's part in it, when nobody else comes in between. */
  class ScreenCapturer {
    const width: nat
    const height: nat
    var loop: Loop
    var closeRequested: bool
    var calls: seq<Call>
    var closers: seq<Closing>
    ghost var served: seq<(nat, int)>

    ghost function View(): State
      reads this
    {
      State(loop, closeRequested, calls, closers, served)
    }

    constructor (width: nat, height: nat, n: nat, m: nat)
      ensures Initial(View()) && |calls| == n && |closers| == m && this.width == width && this.height == height
    {
      this.width, this.height := width, height;
      loop, closeRequested, served := Idle, false, [];
      calls := seq(n, _ => Call(NotStarted, None));
      closers := seq(m, _ => Outside);
    }

    /** The loop finishes the call it is serving, if any. */
    method Settle(answer: int) returns (ghost run: seq<Action>)
      requires Inv(View())
      modifies `loop, `calls, `served
      ensures Leads(old(View()), run, View())
      ensures loop == (if old(loop).Serving? then Idle else old(loop)) && calls == Settled(old(loop), old(calls), answer)
    {
      run := [];
      if loop.Serving? {
        var k := loop.call;
        assert CallInv(View(), k);
        LeadsOne(View(), run, View(), Answer(answer));
        run := run + [Answer(answer)];
        calls := calls[k := calls[k].(answer := Some(answer))];
        served := served + [(k, answer)];
        loop := Idle;
      }
    }

    /**
     One grab or input call. The loop first answers whatever it is serving; then, if
     a close is pending, it may end (endsFirst), and otherwise takes the call. The
     caller gets exactly the loop's answer, or an error once the loop has ended.
     */
    method HandOver(i: nat, answer: int, earlier: int, endsFirst: bool) returns (result: Option<int>, ghost run: seq<Action>)
      requires Inv(View()) && i < |calls| && calls[i].phase.NotStarted?
      modifies `loop, `calls, `served
      ensures Leads(old(View()), run, View())
      ensures result == if old(loop).Ended? || (closeRequested && endsFirst) then None else Some(answer)
      ensures loop == if result.None? then Ended else Idle
      ensures calls == Settled(old(loop), old(calls), earlier)[i := if result.None? then Call(Refused, None) else Call(Answered(answer), None)]
    {
      ghost var s0 := View();
      assert CallInv(View(), i);
      run := Settle(earlier);
      if loop.Idle? && closeRequested && endsFirst {
        LeadsOne(s0, run, View(), EndLoop);
        run := run + [EndLoop];
        loop := Ended;
      }
      LeadsOne(s0, run, View(), Offer(i));
      run := run + [Offer(i)];
      calls := calls[i := calls[i].(phase := Offering)];
      if loop.Ended? {
        LeadsOne(s0, run, View(), Refuse(i));
        run := run + [Refuse(i)];
        calls := calls[i := calls[i].(phase := Refused)];
        return None, run;
      }
      ghost var s1 := View();
      ghost var more := TakeAndAnswer(i, answer);
      JoinRuns(s0, run, s1, more, View());
      run := run + more;
      result := Some(answer);
    }

    /** The idle loop takes a call on offer and answers it, and the caller receives the answer. */
    method TakeAndAnswer(i: nat, answer: int) returns (ghost run: seq<Action>)
      requires i < |calls| && calls[i] == Call(Offering, None) && loop.Idle?
      modifies `loop, `calls, `served
      ensures Leads(old(View()), run, View())
      ensures loop == Idle && calls == old(calls)[i := Call(Answered(answer), None)]
    {
      ghost var s0 := View();
      LeadsOne(s0, [], s0, Accept(i));
      run := [] + [Accept(i)];
      calls := calls[i := calls[i].(phase := Awaiting)];
      loop := Serving(i);
      LeadsOne(s0, run, View(), Answer(answer));
      run := run + [Answer(answer)];
      calls := calls[i := calls[i].(answer := Some(answer))];
      served := served + [(i, answer)];
      loop := Idle;
      LeadsOne(s0, run, View(), Receive(i));
      run := run + [Receive(i)];
      calls := calls[i := Call(Answered(answer), None)];
    }

    /** frame is what grabbing the display gives at that moment. */
    method Grab(i: nat, frame: int, earlier: int, endsFirst: bool) returns (result: Option<int>, ghost run: seq<Action>)
      requires Inv(View()) && i < |calls| && calls[i].phase.NotStarted?
      modifies `loop, `calls, `served
      ensures Leads(old(View()), run, View()) && Inv(View())
      ensures result == if old(loop).Ended? || (closeRequested && endsFirst) then None else Some(frame)
      ensures |calls| == |old(calls)|
      ensures forall k :: 0 <= k < |calls| && k != i && old(loop) != Serving(k) ==> calls[k] == old(calls)[k]
    {
      result, run := HandOver(i, frame, earlier, endsFirst);
      RunKeepsInv(old(View()), run);
    }

    /** applied is what injecting the event at a point gives: the guest only ever sees points of its screen. */
    method SendMouseAbsolute(i: nat, x: int, y: int, applied: (int, int) -> int, earlier: int, endsFirst: bool)
      returns (result: Option<int>, ghost run: seq<Action>)
      requires Inv(View()) && i < |calls| && calls[i].phase.NotStarted?
      modifies `loop, `calls, `served
      ensures Leads(old(View()), run, View()) && Inv(View())
      ensures result == if old(loop).Ended? || (closeRequested && endsFirst) then None else Some(applied(Clamped(x, width), Clamped(y, height)))
      ensures |calls| == |old(calls)|
      ensures forall k :: 0 <= k < |calls| && k != i && old(loop) != Serving(k) ==> calls[k] == old(calls)[k]
    {
      var px, py := x, y;
      if px < 1 {
        px := 1;
      }
      if py < 1 {
        py := 1;
      }
      if px > width {
        px := width;
      }
      if py > height {
        py := height;
      }
      result, run := HandOver(i, applied(px, py), earlier, endsFirst);
      RunKeepsInv(old(View()), run);
    }

    /**
     Close returns once the loop has ended, so every later call is refused; it panics
     exactly when the loop is still going although another Close has asked it to end.
     */
    method Close(j: nat, earlier: int) returns (panicked: bool, ghost run: seq<Action>)
      requires Inv(View()) && j < |closers| && closers[j].Outside?
      modifies this
      ensures Leads(old(View()), run, View()) && Inv(View())
      ensures panicked <==> !old(loop).Ended? && old(closeRequested)
      ensures closers == old(closers)[j := if panicked then Panicked else Returned]
      ensures closeRequested && (!panicked ==> loop.Ended?)
      ensures calls == if panicked then old(calls) else Settled(old(loop), old(calls), earlier)
    {
      ghost var s0 := View();
      LeadsOne(s0, [], s0, Look(j));
      run := [] + [Look(j)];
      if loop.Ended? {
        closers := closers[j := Returned];
        RunKeepsInv(s0, run);
        return false, run;
      }
      closers := closers[j := Looked];
      LeadsOne(s0, run, View(), Request(j));
      run := run + [Request(j)];
      if closeRequested {
        closers := closers[j := Panicked];
        RunKeepsInv(s0, run);
        return true, run;
      }
      closeRequested := true;
      closers := closers[j := Waiting];
      RunKeepsInv(s0, run);
      ghost var s1 := View();
      ghost var more := Settle(earlier);
      JoinRuns(s0, run, s1, more, View());
      run := run + more;
      LeadsOne(s0, run, View(), EndLoop);
      run := run + [EndLoop];
      loop := Ended;
      LeadsOne(s0, run, View(), ReturnFromClose(j));
      run := run + [ReturnFromClose(j)];
      closers := closers[j := Returned];
      RunKeepsInv(s0, run);
      panicked := false;
    }
  }

  lemma {:induction false} JoinRuns(s: State, run: seq<Action>, s1: State, more: seq<Action>, s2: State)
    requires Leads(s, run, s1) && Leads(s1, more, s2)
    ensures Leads(s, run + more, s2)
    decreases |more|
  {
    if more == [] {
      assert run + more == run;
    } else {
      LeadsOne(s, run, s1, more[0]);
      JoinRuns(s, run + [more[0]], Apply(s1, more[0]), more[1..], s2);
      assert run + [more[0]] + more[1..] == run + more;
    }
  }
}
