/** Where the code of runtime/lightproc as written does not keep what its comments promise:
    concrete runs, and the exact conditions under which it does. */
module ProcDefects {
  import opened StateWord
  import opened Transitions
  import opened ProcProtocol
  import opened ProcInvariant
  import opened ProcTheorems
  import opened PackedRun
  import opened Wrappers

  /** With the arms as written, a handle cancel keeps the count right exactly when it has no
      effect because the proc has completed or closed already. */
  lemma CancelAsWrittenExact(s: State)
    requires Inv(s) && Enabled(s, HandleCancel(AsWritten))
    ensures Counted(Next(s, HandleCancel(AsWritten))) <==> Ended(s.word)
  {
    hide Awaited;
  }

  /** The count is the number of references all through the run. */
  predicate CountedAlong(s: State, steps: seq<Step>)
    requires Legal(s, steps)
    decreases |steps|
  {
    Counted(s) && (steps != [] ==> CountedAlong(Next(s, steps[0]), steps[1..]))
  }

  lemma {:induction false} CountedAlongExactly(s: State, steps: seq<Step>)
    requires Inv(s) && Legal(s, steps)
    ensures CountedAlong(s, steps) <==> AllHarmless(s, steps)
    decreases |steps|
  {
    InvCounts(s);
    hide Inv, Next, Enabled, Counted;
    if steps != [] {
      var t := steps[0];
      if t == HandleCancel(AsWritten) {
        CancelAsWrittenExact(s);
      }
      if Harmless(s, t) {
        StepKeepsInv(s, t);
        CountedAlongExactly(Next(s, t), steps[1..]);
      } else {
        CountedFirst(Next(s, t), steps[1..]);
      }
    }
  }

  lemma InvCounts(s: State)
    requires Inv(s)
    ensures Counted(s)
  {
  }

  lemma CountedFirst(s: State, steps: seq<Step>)
    requires Legal(s, steps)
    ensures CountedAlong(s, steps) ==> Counted(s)
  {
  }

  /** Over all runs of the code, with the arms as written at every cancel or at some: the count is
      right all through if and only if every such cancel met a proc that had ended. These are the
      runs of `IsRun`, to which every theorem about reached states applies. */
  lemma CodeCountsExactly(steps: seq<Step>)
    requires Legal(Init(), steps)
    ensures CountedAlong(Init(), steps) <==> IsRun(steps)
    ensures CountedAlong(Init(), steps) ==> Inv(After(Init(), steps))
  {
    InitInv();
    CountedAlongExactly(Init(), steps);
    if IsRun(steps) {
      RunKeepsInv(Init(), steps);
    }
  }

  // An idle proc with one waker: run once, waker cloned, poll Pending, reference released.
  const ENTERED: Word := Word(false, true, false, false, true, false, false, 1)

  const IDLE: Word := Word(false, false, false, false, true, false, false, 1)

  function IdleState(): State { Init().(word := IDLE, procs := [], wakers := 1) }

  lemma EmptyRun()
    ensures IsRun([]) && Reached([]) == Init()
  {
  }

  /** One more step of a run whose last state is known. */
  lemma Take(steps: seq<Step>, s: State, t: Step, s': State) returns (more: seq<Step>)
    requires Legal(Init(), steps) && After(Init(), steps) == s
    requires Enabled(s, t) && Next(s, t) == s'
    ensures more == steps + [t] && Legal(Init(), more) && After(Init(), more) == s'
  {
    hide Next, Enabled;
    Extend(Init(), steps, t);
    more := steps + [t];
  }

  lemma {:induction false} HarmlessMore(s: State, steps: seq<Step>, t: Step)
    requires Legal(s, steps) && AllHarmless(s, steps) && Enabled(After(s, steps), t) && Harmless(After(s, steps), t)
    ensures Legal(s, steps + [t]) && AllHarmless(s, steps + [t])
    decreases |steps|
  {
    hide Next, Enabled, Harmless;
    Extend(s, steps, t);
    if steps == [] {
      assert steps + [t] == [t];
    } else {
      assert (steps + [t])[1..] == steps[1..] + [t];
      HarmlessMore(Next(s, steps[0]), steps[1..], t);
    }
  }

  lemma TakeHarmless(steps: seq<Step>, s: State, t: Step, s': State) returns (more: seq<Step>)
    requires IsRun(steps) && Reached(steps) == s
    requires Enabled(s, t) && Next(s, t) == s' && t != HandleCancel(AsWritten)
    ensures more == steps + [t] && IsRun(more) && Reached(more) == s'
  {
    hide Next, Enabled;
    HarmlessMore(Init(), steps, t);
    more := Take(steps, s, t, s');
  }

  // What single steps do, so that the runs below need not unfold the transition function.

  lemma TickEquations(s: State, p: Phase)
    requires !s.aborted && s.procs == [p]
    ensures p == Queued ==> Enabled(s, Run(0)) && Next(s, Run(0)) == s.(procs := [Entering])
    ensures p == Entering && !s.word.closed ==>
              && Enabled(s, Advance(0, Pending))
              && Next(s, Advance(0, Pending)) == s.(procs := [Polling], word := Entered(s.word), wakePending := false)
    ensures p == Entering && s.word.closed && !s.word.awaiter ==>
              Enabled(s, Advance(0, Pending)) && Next(s, Advance(0, Pending)) == s.(procs := [DropFuture])
    ensures p == Polling ==>
              Enabled(s, Advance(0, Pending)) && Next(s, Advance(0, Pending)) == s.(procs := [Parking])
  {
    hide EnterStep, ParkStep, CompletedStep, NotifyStep, DropCancelStep;
    Only(s.procs);
    TickEntry(s, p);
  }

  lemma TickEntry(s: State, p: Phase)
    requires s.procs == [p]
    ensures !s.word.closed ==> EnterStep(s, 0) == s.(procs := [Polling], word := Entered(s.word), wakePending := false)
    ensures s.word.closed && !s.word.awaiter ==> EnterStep(s, 0) == s.(procs := [DropFuture])
    ensures !s.word.closed && !s.word.scheduled ==>
              ParkStep(s, 0) == s.(procs := [], releasing := s.releasing + 1, word := s.word.(running := false))
  {
    Only(s.procs);
  }

  lemma FinishEquations(s: State, p: Phase)
    requires !s.aborted && s.procs == [p]
    ensures p == Parking && !s.word.closed && !s.word.scheduled ==>
              && Enabled(s, Advance(0, Pending))
              && Next(s, Advance(0, Pending))
                 == s.(procs := [], releasing := s.releasing + 1, word := s.word.(running := false))
    ensures p == DropFuture ==>
              && Enabled(s, Advance(0, Pending))
              && Next(s, Advance(0, Pending))
                 == s.(procs := [], releasing := s.releasing + 1, slot := Empty, futureDrops := s.futureDrops + 1)
  {
    hide EnterStep, ParkStep, CompletedStep, NotifyStep, DropCancelStep;
    Only(s.procs);
    TickEntry(s, p);
  }

  lemma ReferenceEquations(s: State)
    requires !s.aborted && s.word.refs > 0
    ensures s.releasing > 0 && s.word.refs > 1 ==>
              && Enabled(s, Release)
              && Next(s, Release) == s.(releasing := s.releasing - 1, word := s.word.(refs := s.word.refs - 1))
    ensures s.wakers > 0 && s.word.refs == 1 ==>
              && Enabled(s, DropWaker)
              && Next(s, DropWaker) == s.(wakers := s.wakers - 1, word := s.word.(refs := 0),
                                          destroying := s.destroying + (if s.word.handle then 0 else 1))
    ensures s.procs == [Polling] && s.word.refs <= I32_MAX ==>
              && Enabled(s, CloneWaker)
              && Next(s, CloneWaker) == s.(wakers := s.wakers + 1, word := s.word.(refs := s.word.refs + 1))
  {
    hide AdvanceStep, AdvanceHandleStep, HandleCancelStep;
    assert s.procs == [Polling] ==> s.procs[0].Polling?;
  }

  lemma HandleEquations(s: State)
    requires !s.aborted
    ensures s.handle == Present && s.cancels == [] ==>
              && Enabled(s, DropHandle)
              && Next(s, DropHandle) == s.(waiting := None, handle := HandleDropping)
    ensures s.handle == HandleDropping ==> Enabled(s, AdvanceHandle) && Next(s, AdvanceHandle) == HandleDropStep(s)
    ensures s.destroying > 0 ==>
              && Enabled(s, Destroy)
              && Next(s, Destroy) == s.(destroying := s.destroying - 1, frees := s.frees + 1)
    ensures s.handle == Present ==>
              && Enabled(s, HandleCancel(AsWritten))
              && Next(s, HandleCancel(AsWritten)) == HandleCancelStep(s, AsWritten)
  {
    hide AdvanceStep, HandleCancelStep, HandleDropStep;
  }

  lemma RunOnce() returns (steps: seq<Step>)
    ensures IsRun(steps)
    ensures Reached(steps) == Init().(procs := [Parking], wakers := 1, word := ENTERED.(refs := 2))
  {
    hide IsRun, Reached, Next, Enabled;
    EmptyRun();
    var a := Advance(0, Pending);
    var i := Init();
    var s1 := i.(procs := [Entering]);
    var s2 := s1.(procs := [Polling], word := ENTERED);
    var s3 := s2.(wakers := 1, word := ENTERED.(refs := 2));
    TickEquations(i, Queued);
    steps := TakeHarmless([], i, Run(0), s1);
    TickEquations(s1, Entering);
    steps := TakeHarmless(steps, s1, a, s2);
    ReferenceEquations(s2);
    steps := TakeHarmless(steps, s2, CloneWaker, s3);
    TickEquations(s3, Polling);
    steps := TakeHarmless(steps, s3, a, s3.(procs := [Parking]));
  }

  lemma ReachIdle() returns (steps: seq<Step>)
    ensures IsRun(steps) && Reached(steps) == IdleState()
  {
    hide IsRun, Reached, Next, Enabled;
    steps := RunOnce();
    var s4 := Init().(procs := [Parking], wakers := 1, word := ENTERED.(refs := 2));
    var s5 := s4.(procs := [], releasing := 1, word := ENTERED.(running := false, refs := 2));
    FinishEquations(s4, Parking);
    steps := TakeHarmless(steps, s4, Advance(0, Pending), s5);
    ReferenceEquations(s5);
    steps := TakeHarmless(steps, s5, Release, IdleState());
  }

  /** A handle cancel as written on an idle proc leads to the proc being freed while a
      `LightProc` for it is still queued. */
  lemma CancelAsWrittenFreesQueued() returns (steps: seq<Step>)
    ensures Legal(Init(), steps)
    ensures var s := After(Init(), steps); s.frees == 1 && s.procs == [Queued] && Enabled(s, Run(0))
  {
    hide Legal, After, AllHarmless, Next, Enabled;
    steps := ReachIdle();
    var s0 := Init().(word := IDLE, procs := [], wakers := 1);
    var s1 := s0.(word := s0.word.(closed := true), procs := [Queued]);
    var s2 := s1.(wakers := 0, word := s1.word.(refs := 0));
    var s3 := s2.(handle := HandleDropping);
    var s4 := s3.(handle := Gone, word := s3.word.(handle := false), destroying := 1);
    var s5 := s4.(destroying := 0, frees := 1);
    HandleEquations(s0);
    steps := Take(steps, s0, HandleCancel(AsWritten), s1);
    ReferenceEquations(s1);
    steps := Take(steps, s1, DropWaker, s2);
    HandleEquations(s2);
    steps := Take(steps, s2, DropHandle, s3);
    HandleEquations(s3);
    steps := Take(steps, s3, AdvanceHandle, s4);
    HandleEquations(s4);
    steps := Take(steps, s4, Destroy, s5);
    TickEquations(s5, Queued);
  }

  lemma CancelQueued() returns (steps: seq<Step>)
    ensures Legal(Init(), steps)
    ensures After(Init(), steps) == Init().(
      word := Word(true, false, false, true, true, false, false, 2),
      procs := [], releasing := 1, slot := Empty, futureDrops := 1)
  {
    hide Legal, After, AllHarmless, Next, Enabled;
    EmptyRun();
    var a := Advance(0, Pending);
    var i := Init();
    var s1 := i.(word := i.word.(closed := true, refs := 2));
    var s2 := s1.(procs := [Entering]);
    var s3 := s2.(procs := [DropFuture]);
    var s4 := s3.(procs := [], releasing := 1, slot := Empty, futureDrops := 1);
    HandleEquations(i);
    steps := Take([], i, HandleCancel(AsWritten), s1);
    TickEquations(s1, Queued);
    steps := Take(steps, s1, Run(0), s2);
    TickEquations(s2, Entering);
    steps := Take(steps, s2, a, s3);
    FinishEquations(s3, DropFuture);
    steps := Take(steps, s3, a, s4);
  }

  /** A handle cancel as written on a queued proc adds a reference nobody owns: the proc outlives
      its last reference and its handle. */
  lemma CancelAsWrittenLeaksProc() returns (steps: seq<Step>)
    ensures Legal(Init(), steps)
    ensures var s := After(Init(), steps);
            && s.procs == [] && s.wakers == 0 && s.releasing == 0 && s.handle == Gone
            && s.destroying + s.frees == 0 && s.word.refs == 1
  {
    hide Legal, After, AllHarmless, Next, Enabled;
    steps := CancelQueued();
    var s4 := Init().(word := Word(true, false, false, true, true, false, false, 2),
                      procs := [], releasing := 1, slot := Empty, futureDrops := 1);
    var s5 := s4.(releasing := 0, word := s4.word.(refs := 1));
    var s6 := s5.(handle := HandleDropping);
    var s7 := s6.(handle := Gone, word := s6.word.(handle := false));
    ReferenceEquations(s4);
    steps := Take(steps, s4, Release, s5);
    HandleEquations(s5);
    steps := Take(steps, s5, DropHandle, s6);
    HandleEquations(s6);
    steps := Take(steps, s6, AdvanceHandle, s7);
  }

  /** Dropping the handle and then the last waker of an idle proc frees it without ever
      dropping its future. */
  lemma IdleProcLeaksFuture() returns (steps: seq<Step>)
    ensures IsRun(steps)
    ensures var s := Reached(steps); s.frees == 1 && s.slot == Future && s.futureDrops == 0
  {
    hide IsRun, Reached, Next, Enabled;
    steps := ReachIdle();
    var s0 := Init().(word := IDLE, procs := [], wakers := 1);
    var s1 := s0.(handle := HandleDropping);
    var s2 := s0.(handle := Gone, word := IDLE.(handle := false));
    var s3 := s2.(wakers := 0, word := s2.word.(refs := 0), destroying := 1);
    var s4 := s3.(destroying := 0, frees := 1);
    HandleEquations(s0);
    steps := TakeHarmless(steps, s0, DropHandle, s1);
    HandleEquations(s1);
    steps := TakeHarmless(steps, s1, AdvanceHandle, s2);
    ReferenceEquations(s2);
    steps := TakeHarmless(steps, s2, DropWaker, s3);
    HandleEquations(s3);
    steps := TakeHarmless(steps, s3, Destroy, s4);
  }

  // ----- completed and still scheduled

  /** From a poll to the completed proc. */
  lemma CompleteRun(steps: seq<Step>, s: State) returns (more: seq<Step>)
    requires IsRun(steps) && Reached(steps) == s && !s.aborted && s.procs == [Polling]
    ensures IsRun(more)
    ensures Reached(more) == s.(procs := [Completed(!s.word.handle || s.word.closed, s.word.awaiter, Trying)],
                                word := CompletedWord(s.word), slot := Output,
                                futureDrops := s.futureDrops + 1, outputWrites := s.outputWrites + 1)
  {
    hide IsRun, Reached, Next, Enabled, CompletedWord;
    var a := Advance(0, Ready);
    var s1 := s.(procs := [ReadyDrop]);
    var s2 := s.(procs := [ReadyWrite], slot := Empty, futureDrops := s.futureDrops + 1);
    var s3 := s2.(procs := [Completing], slot := Output, outputWrites := s.outputWrites + 1);
    var s4 := s3.(procs := [Completed(!s.word.handle || s.word.closed, s.word.awaiter, Trying)], word := CompletedWord(s.word));
    ReadyEquations(s, Polling);
    more := TakeHarmless(steps, s, a, s1);
    ReadyEquations(s1, ReadyDrop);
    more := TakeHarmless(more, s1, a, s2);
    ReadyEquations(s2, ReadyWrite);
    more := TakeHarmless(more, s2, a, s3);
    ReadyEquations(s3, Completing);
    more := TakeHarmless(more, s3, a, s4);
  }

  lemma ReadyEquations(s: State, p: Phase)
    requires !s.aborted && s.procs == [p] && (p == Polling || p == ReadyDrop || p == ReadyWrite || p == Completing)
    ensures Enabled(s, Advance(0, Ready))
    ensures Next(s, Advance(0, Ready)) ==
            match p
            case Polling => s.(procs := [ReadyDrop])
            case ReadyDrop => s.(procs := [ReadyWrite], slot := Empty, futureDrops := s.futureDrops + 1)
            case ReadyWrite => s.(procs := [Completing], slot := Output, outputWrites := s.outputWrites + 1)
            case _ => s.(procs := [Completed(!s.word.handle || s.word.closed, s.word.awaiter, Trying)], word := CompletedWord(s.word))
  {
    hide EnterStep, ParkStep, CompletedStep, NotifyStep, DropCancelStep, CompletedWord;
    Only(s.procs);
  }

  lemma WakeByRefEquation(s: State)
    requires !s.aborted && !Ended(s.word) && !s.word.scheduled && (s.wakers > 0 || s.procs == [Polling])
    ensures Enabled(s, WakeByRef)
    ensures Next(s, WakeByRef) ==
            if s.word.running then s.(word := s.word.(scheduled := true), wakePending := true)
            else s.(word := s.word.(scheduled := true, refs := s.word.refs + 1), wakePending := true,
                    procs := s.procs + [Queued])
  {
    hide AdvanceStep, AdvanceHandleStep, HandleCancelStep;
    assert s.procs == [Polling] ==> s.procs[0].Polling?;
  }

  /** To the first poll. */
  lemma ReachPolling() returns (steps: seq<Step>)
    ensures IsRun(steps) && Reached(steps) == Init().(procs := [Polling], word := ENTERED)
  {
    hide IsRun, Reached, Next, Enabled;
    EmptyRun();
    var i := Init();
    var s1 := i.(procs := [Entering]);
    TickEquations(i, Queued);
    steps := TakeHarmless([], i, Run(0), s1);
    TickEquations(s1, Entering);
    steps := TakeHarmless(steps, s1, Advance(0, Pending), i.(procs := [Polling], word := ENTERED));
  }

  /** A proc woken during the poll that completes it ends up COMPLETED, RUNNING and SCHEDULED. */
  lemma CompletedAndScheduled() returns (steps: seq<Step>)
    ensures IsRun(steps)
    ensures var w := Reached(steps).word; w.completed && w.running && w.scheduled && !w.closed
  {
    hide IsRun, Reached, Next, Enabled;
    steps := ReachPolling();
    var s := Init().(procs := [Polling], word := ENTERED);
    var s1 := s.(word := ENTERED.(scheduled := true), wakePending := true);
    WakeByRefEquation(s);
    steps := TakeHarmless(steps, s, WakeByRef, s1);
    steps := CompleteRun(steps, s1);
  }

  // ----- two swaps of the awaiter at once

  lemma PollEquations(s: State, x: Waker)
    requires !s.aborted
    ensures s.handle == Present && s.cancels == [] && !s.word.closed ==>
              && Enabled(s, PollHandle(x))
              && Next(s, PollHandle(x))
                 == s.(waiting := None, handle := if s.word.completed then PollTake(x) else PollRegister(x, Trying))
    ensures s.handle == PollReload(x) && !Ended(s.word) ==>
              && Enabled(s, AdvanceHandle)
              && Next(s, AdvanceHandle) == s.(handle := Present, waiting := Some(x), woken := false)
    ensures s.handle == PollTake(x) && !s.word.closed && s.word.awaiter ==>
              && Enabled(s, AdvanceHandle)
              && Next(s, AdvanceHandle) == s.(word := Closed(s.word), handle := TakenNotify(x, Trying))
  {
    hide AdvanceStep, HandleCancelStep, HandleDropStep, RegisterStep, NotifyUnlessStep;
  }

  lemma RegisterEquations(s: State, x: Waker, at: Swap)
    requires !s.aborted && s.handle == PollRegister(x, at)
    ensures Enabled(s, AdvanceHandle)
    ensures Next(s, AdvanceHandle) ==
            match at
            case Trying => s.(word := s.word.(locked := true, awaiter := true),
                              handle := PollRegister(x, if s.word.locked then Inside else Trying))
            case Inside => s.(awaiter := Some(x), handle := PollRegister(x, Swapped(s.awaiter)))
            case Swapped(_) => s.(word := s.word.(locked := false), handle := PollReload(x))
  {
    hide AdvanceStep, HandleCancelStep, HandleDropStep, NotifyUnlessStep;
  }

  /** A registration that nobody disturbs takes four actions. */
  lemma RegisterRun(steps: seq<Step>, s: State, x: Waker) returns (more: seq<Step>)
    requires IsRun(steps) && Reached(steps) == s && !s.aborted && !s.word.locked && s.handle == PollRegister(x, Trying)
    ensures IsRun(more)
    ensures Reached(more) == s.(word := s.word.(awaiter := true), awaiter := Some(x), handle := PollReload(x))
  {
    hide IsRun, Reached, Next, Enabled;
    var w := s.word.(locked := true, awaiter := true);
    var s1 := s.(word := w);
    var s2 := s1.(handle := PollRegister(x, Inside));
    var s3 := s2.(awaiter := Some(x), handle := PollRegister(x, Swapped(s.awaiter)));
    var s4 := s3.(word := w.(locked := false), handle := PollReload(x));
    RegisterEquations(s, x, Trying);
    more := TakeHarmless(steps, s, AdvanceHandle, s1);
    RegisterEquations(s1, x, Trying);
    more := TakeHarmless(more, s1, AdvanceHandle, s2);
    RegisterEquations(s2, x, Inside);
    more := TakeHarmless(more, s2, AdvanceHandle, s3);
    RegisterEquations(s3, x, Swapped(s.awaiter));
    more := TakeHarmless(more, s3, AdvanceHandle, s4);
  }

  /** The tick that completed the proc and the handle poll that took its output, both on their way
      into `swap_awaiter`. */
  lemma BothNotify(x: Waker) returns (steps: seq<Step>, s: State)
    ensures IsRun(steps) && Reached(steps) == s && !s.aborted && !s.word.locked
    ensures s.procs == [Completed(false, true, Trying)] && s.handle == TakenNotify(x, Trying) && s.cancels == []
  {
    hide IsRun, Reached, Next, Enabled, CompletedWord;
    steps := ReachPolling();
    var s0 := Init().(procs := [Polling], word := ENTERED);
    var s1 := s0.(handle := PollRegister(x, Trying));
    var s2 := s1.(word := ENTERED.(awaiter := true), awaiter := Some(x), handle := PollReload(x));
    var s3 := s2.(handle := Present, waiting := Some(x));
    PollEquations(s0, x);
    steps := TakeHarmless(steps, s0, PollHandle(x), s1);
    steps := RegisterRun(steps, s1, x);
    PollEquations(s2, x);
    steps := TakeHarmless(steps, s2, AdvanceHandle, s3);
    steps := CompleteRun(steps, s3);
    var s4 := s3.(procs := [Completed(false, true, Trying)], word := CompletedWord(s3.word), slot := Output,
                  futureDrops := 1, outputWrites := 1);
    CompletedKeepsHandle(s3.word);
    var s5 := s4.(waiting := None, handle := PollTake(x));
    PollEquations(s4, x);
    steps := TakeHarmless(steps, s4, PollHandle(x), s5);
    PollEquations(s5, x);
    s := s5.(word := Closed(s5.word), handle := TakenNotify(x, Trying));
    steps := TakeHarmless(steps, s5, AdvanceHandle, s);
  }

  lemma CompletedKeepsHandle(w: Word)
    requires w.handle && !w.closed && w.awaiter
    ensures var w' := CompletedWord(w); w'.completed && !w'.closed && w'.awaiter && w'.locked == w.locked
  {
  }

  /** The lock as written lets two calls in at once: the tick that completed the proc and the handle
      poll that took its output both replace the awaiter cell next. */
  lemma TwoInside(x: Waker) returns (steps: seq<Step>)
    ensures IsRun(steps)
    ensures var s := Reached(steps);
            && s.procs == [Completed(false, true, Inside)] && s.handle == TakenNotify(x, Inside) && InsideSwap(s) == 2
  {
    hide IsRun, Reached, Next, Enabled;
    var s;
    steps, s := BothNotify(x);
    var s1 := s.(word := s.word.(locked := true));
    var s2 := s1.(handle := TakenNotify(x, Inside));
    TakenEquations(s, x);
    steps := TakeHarmless(steps, s, AdvanceHandle, s1);
    TakenEquations(s1, x);
    steps := TakeHarmless(steps, s1, AdvanceHandle, s2);
    TakenEquations(s2, x);
    steps := TakeHarmless(steps, s2, Advance(0, Pending), s2.(procs := [Completed(false, true, Inside)]));
  }

  lemma TakenEquations(s: State, x: Waker)
    requires !s.aborted && s.procs == [Completed(false, true, Trying)] && s.handle.TakenNotify? && s.handle.x == x
    ensures s.handle.at.Trying? ==>
              && Enabled(s, AdvanceHandle)
              && Next(s, AdvanceHandle) == s.(word := s.word.(locked := true),
                                              handle := TakenNotify(x, if s.word.locked then Inside else Trying))
    ensures s.word.locked ==>
              && Enabled(s, Advance(0, Pending))
              && Next(s, Advance(0, Pending)) == s.(procs := [Completed(false, true, Inside)])
  {
    hide HandleCancelStep, HandleDropStep, EnterStep, ParkStep, DropCancelStep, TakeStep, ReloadStep;
    Only(s.procs);
  }

  // ----- the count without a bound

  /** A running poll with `k` wakers. */
  function Cloned(k: nat): State { Init().(procs := [Polling], wakers := k, word := ENTERED.(refs := k + 1)) }

  /** An idle proc with the most wakers a poll can make, and `m` finished ticks that have not yet
      given up their reference. */
  function Unreleased(m: nat): State {
    Init().(procs := [], wakers := I32_MAX, releasing := m, word := IDLE.(refs := I32_MAX + m))
  }

  lemma {:induction false} CloneUpTo(k: nat) returns (steps: seq<Step>)
    requires k <= I32_MAX
    ensures IsRun(steps) && Reached(steps) == Cloned(k)
  {
    hide IsRun, Reached, Next, Enabled;
    if k == 0 {
      steps := ReachPolling();
    } else {
      steps := CloneUpTo(k - 1);
      ReferenceEquations(Cloned(k - 1));
      steps := TakeHarmless(steps, Cloned(k - 1), CloneWaker, Cloned(k));
    }
  }

  /** A poll that ends Pending, up to the point where its tick still holds its reference. */
  lemma ParkRun(steps: seq<Step>, s: State) returns (more: seq<Step>)
    requires IsRun(steps) && Reached(steps) == s && !s.aborted && s.procs == [Polling]
    requires !s.word.closed && !s.word.scheduled
    ensures IsRun(more)
    ensures Reached(more) == s.(procs := [], releasing := s.releasing + 1, word := s.word.(running := false))
  {
    hide IsRun, Reached, Next, Enabled;
    var s1 := s.(procs := [Parking]);
    TickEquations(s, Polling);
    more := TakeHarmless(steps, s, Advance(0, Pending), s1);
    FinishEquations(s1, Parking);
    more := TakeHarmless(more, s1, Advance(0, Pending),
                         s.(procs := [], releasing := s.releasing + 1, word := s.word.(running := false)));
  }

  /** Waking the idle proc once more, and another tick that ends Pending. */
  lemma WakeAndPark(steps: seq<Step>, m: nat) returns (more: seq<Step>)
    requires IsRun(steps) && Reached(steps) == Unreleased(m)
    ensures IsRun(more) && Reached(more) == Unreleased(m + 1)
  {
    hide IsRun, Reached, Next, Enabled;
    var s := Unreleased(m);
    var w := IDLE.(refs := I32_MAX + m + 1);
    var s1 := s.(procs := [Queued], word := w.(scheduled := true), wakePending := true);
    var s2 := s1.(procs := [Entering]);
    var s3 := s2.(procs := [Polling], word := Entered(w.(scheduled := true)), wakePending := false);
    WakeByRefEquation(s);
    more := TakeHarmless(steps, s, WakeByRef, s1);
    TickEquations(s1, Queued);
    more := TakeHarmless(more, s1, Run(0), s2);
    TickEquations(s2, Entering);
    more := TakeHarmless(more, s2, Advance(0, Pending), s3);
    more := ParkRun(more, s3);
  }

  /** For every `m` there is a run whose count is 2^31 - 1 + m: no bound holds without the releases
      under way. */
  lemma {:induction false} CountHasNoBound(m: nat) returns (steps: seq<Step>)
    requires m > 0
    ensures IsRun(steps) && Reached(steps) == Unreleased(m)
    ensures Reached(steps).word.refs == 0x7fff_ffff + m && Reached(steps).releasing == m
  {
    hide IsRun, Reached;
    if m == 1 {
      steps := CloneUpTo(I32_MAX);
      steps := ParkRun(steps, Cloned(I32_MAX));
    } else {
      steps := CountHasNoBound(m - 1);
      steps := WakeAndPark(steps, m - 1);
    }
  }

  lemma {:induction false} FitsAtEnd(s: State, steps: seq<Step>)
    requires Legal(s, steps) && FitsAlong(s, steps)
    ensures |After(s, steps).procs| + After(s, steps).wakers + After(s, steps).releasing < TWO32
    decreases |steps|
  {
    hide Next, Enabled;
    if steps != [] {
      FitsAtEnd(Next(s, steps[0]), steps[1..]);
    }
  }

  /** With 2^31 + 1 releases under way the packed word no longer unpacks to the record, on either
      byte order. */
  lemma PackedWordOverflows(order: ByteOrder) returns (steps: seq<Step>)
    ensures IsRun(steps) && !UnpacksAlong(order, Init(), steps, Encode(order, Init().word))
  {
    hide Encode, Next, Enabled, Legal, After, FitsAlong, UnpacksAlong;
    steps := CountHasNoBound(0x8000_0001);
    PackedRefines(order, steps);
    if FitsAlong(Init(), steps) {
      FitsAtEnd(Init(), steps);
    }
  }
}
