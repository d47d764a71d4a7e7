/** What the proc protocol promises over every run. */
module ProcTheorems {
  import opened Transitions
  import opened ProcProtocol
  import opened ProcInvariant
  import opened Wrappers

  /** `steps` is a run from a fresh proc in which a handle cancel with the arms as written meets only
      procs that have ended. */
  predicate IsRun(steps: seq<Step>) { Legal(Init(), steps) && AllHarmless(Init(), steps) }

  function Reached(steps: seq<Step>): State
    requires IsRun(steps)
  {
    After(Init(), steps)
  }

  lemma ReachedInv(steps: seq<Step>)
    requires IsRun(steps)
    ensures Inv(Reached(steps))
  {
    InitInv();
    RunKeepsInv(Init(), steps);
  }

  // ----- runs

  lemma {:induction false} Concat(s: State, a: seq<Step>, b: seq<Step>)
    requires Legal(s, a)
    ensures Legal(s, a + b) <==> Legal(After(s, a), b)
    ensures Legal(s, a + b) ==> After(s, a + b) == After(After(s, a), b)
    decreases |a|
  {
    hide Next, Enabled;
    if a == [] {
      assert a + b == b;
    } else {
      assert (a + b)[1..] == a[1..] + b;
      Concat(Next(s, a[0]), a[1..], b);
    }
  }

  lemma Extend(s: State, steps: seq<Step>, t: Step)
    requires Legal(s, steps) && Enabled(After(s, steps), t)
    ensures Legal(s, steps + [t]) && After(s, steps + [t]) == Next(After(s, steps), t)
  {
    hide Next, Enabled;
    var m := After(s, steps);
    assert Legal(Next(m, t), [][..0]);
    assert Legal(m, [t]) && After(m, [t]) == Next(m, t);
    Concat(s, steps, [t]);
  }

  // ----- reference count and destruction

  /** The stored count is the number of live references in every reachable state, and the
      proc is destroyed at most once, and only and always when no reference and no handle is left. */
  lemma ReferenceCount(steps: seq<Step>)
    requires IsRun(steps)
    ensures var s := Reached(steps);
            && s.word.refs == |s.procs| + s.wakers + s.releasing
            && s.destroying + s.frees <= 1
            && (s.destroying + s.frees == 1 <==>
                s.procs == [] && s.wakers == 0 && s.releasing == 0 && s.handle == Gone)
  {
    ReachedInv(steps);
  }

  /** No step of a run touches a freed proc: once the last reference decided to destroy it,
      the only step left is that destruction, and after it there is none. */
  lemma NoUseAfterFree(steps: seq<Step>, step: Step)
    requires IsRun(steps) && Enabled(Reached(steps), step)
    ensures var s := Reached(steps);
            s.frees == 0 && (s.destroying > 0 ==> step == Destroy)
  {
    ReachedInv(steps);
    var s := Reached(steps);
    DestroyedIsQuiet(s, step);
  }

  lemma DestroyedIsQuiet(s: State, step: Step)
    requires Inv(s) && Enabled(s, step)
    ensures s.frees == 0 && (s.destroying > 0 ==> step == Destroy)
  {
  }

  /** A decrement never starts at zero, and the count exceeds 2^31 + 1 only by references
      that are already on their way to a decrement. */
  lemma CountBound(steps: seq<Step>, step: Step)
    requires IsRun(steps)
    ensures var s := Reached(steps);
            && s.word.refs <= I32_MAX + 2 + s.releasing
            && (Enabled(s, step) && (step == DropWaker || step == Release) ==> s.word.refs > 0)
  {
    ReachedInv(steps);
  }

  // ----- scheduling

  /** While a proc has not ended: exactly one reference waits to be run if it is scheduled and
      not running, none exists if it is idle, exactly one tick is past its entry if it is running. */
  lemma ScheduledExactly(steps: seq<Step>)
    requires IsRun(steps)
    ensures var s := Reached(steps);
            && |s.procs| <= 1
            && (!Ended(s.word) ==>
                && (s.word.scheduled && !s.word.running <==> |s.procs| == 1 && Waiting(s.procs[0]))
                && (s.word.running <==> |s.procs| == 1 && PastEntry(s.procs[0]))
                && (Idle(s.word) <==> s.procs == []))
  {
    ReachedInv(steps);
  }

  /** This step makes a tick pass its entry and poll the future. */
  predicate EntersTick(s: State, step: Step) {
    step.Advance? && step.i < |s.procs| && s.procs[step.i] == Entering && !s.word.closed
  }

  predicate NoTickEntry(s: State, steps: seq<Step>)
    requires Legal(s, steps)
    decreases |steps|
  {
    steps == [] || (!EntersTick(s, steps[0]) && NoTickEntry(Next(s, steps[0]), steps[1..]))
  }

  lemma WakeStaysPending(s: State, step: Step)
    requires Enabled(s, step) && !EntersTick(s, step) && s.wakePending
    ensures Next(s, step).wakePending
  {
    match step
    case Advance(_, _) => hide AdvanceHandleStep;
    case AdvanceHandle => hide AdvanceStep;
    case _ => hide AdvanceStep, AdvanceHandleStep;
  }

  lemma {:induction false} WakeStaysPendingRun(s: State, steps: seq<Step>)
    requires Legal(s, steps) && NoTickEntry(s, steps) && s.wakePending
    ensures After(s, steps).wakePending
    decreases |steps|
  {
    hide Next, Enabled, EntersTick;
    if steps == [] {
    } else {
      WakeStaysPending(s, steps[0]);
      WakeStaysPendingRun(Next(s, steps[0]), steps[1..]);
    }
  }

  lemma WakeMarks(s: State, wake: Step)
    requires Enabled(s, wake) && (wake == Wake || wake == WakeByRef) && !Ended(s.word)
    ensures Next(s, wake).wakePending
  {
  }

  /** No wake is lost: after a wake of a proc that has not ended, and until the next tick entry,
      the proc is marked scheduled and its reference exists, waiting to be run or in a running
      tick that will put it back in the queue. */
  lemma NoLostWake(before: seq<Step>, wake: Step, rest: seq<Step>)
    requires IsRun(before) && Enabled(Reached(before), wake)
    requires (wake == Wake || wake == WakeByRef) && !Ended(Reached(before).word)
    requires Legal(Next(Reached(before), wake), rest) && AllHarmless(Next(Reached(before), wake), rest)
    requires NoTickEntry(Next(Reached(before), wake), rest)
    ensures var s := After(Next(Reached(before), wake), rest);
            Ended(s.word) ||
            (s.word.scheduled && |s.procs| == 1 && (Waiting(s.procs[0]) || PastEntry(s.procs[0])))
  {
    hide Inv, Next, Enabled, Waiting, PastEntry;
    var m := Reached(before);
    ReachedInv(before);
    WakeMarks(m, wake);
    StepKeepsInv(m, wake);
    var n := Next(m, wake);
    WakeStaysPendingRun(n, rest);
    RunKeepsInv(n, rest);
    var s := After(n, rest);
    if !Ended(s.word) {
      PendingIsScheduled(s);
    }
  }

  lemma PendingIsScheduled(s: State)
    requires Inv(s) && s.wakePending && !Ended(s.word)
    ensures s.word.scheduled && |s.procs| == 1 && (Waiting(s.procs[0]) || PastEntry(s.procs[0]))
  {
  }

  /** A poll that ends Pending after a wake puts the reference back in the queue. */
  lemma PendingPollRequeues(steps: seq<Step>, i: nat, result: PollResult)
    requires IsRun(steps)
    requires var s := Reached(steps);
             i < |s.procs| && s.procs[i] == Parking && s.wakePending && !s.word.closed
    requires Enabled(Reached(steps), Advance(i, result))
    ensures Next(Reached(steps), Advance(i, result)).procs == [Queued]
  {
    ReachedInv(steps);
    Only(Reached(steps).procs);
  }

  // ----- flags of a completed proc

  /** In every run a completed proc still carries RUNNING, and carries SCHEDULED exactly when it was
      woken after the entry of its last tick: the mask at completion clears nothing. */
  lemma CompletedFlags(steps: seq<Step>)
    requires IsRun(steps) && Reached(steps).word.completed
    ensures Reached(steps).word.running
    ensures Reached(steps).word.scheduled <==> Reached(steps).wakePending
  {
    ReachedInv(steps);
  }

  /** The same of a proc that a panic closed, while its future is being dropped and its awaiter notified. */
  lemma UnwoundFlags(steps: seq<Step>)
    requires IsRun(steps) && |Reached(steps).procs| == 1 && Unwound(Reached(steps).procs[0])
    ensures var s := Reached(steps); s.word.closed && s.word.running && (s.word.scheduled <==> s.wakePending)
  {
    ReachedInv(steps);
  }

  // ----- the slot

  predicate InPhase(s: State, step: Step, p: Phase) {
    step.Advance? && step.i < |s.procs| && s.procs[step.i] == p
  }

  predicate DropsFuture(s: State, step: Step) {
    || InPhase(s, step, ReadyDrop) || InPhase(s, step, DropFuture)
    || InPhase(s, step, PanicDrop(true)) || InPhase(s, step, PanicDrop(false))
  }

  predicate ReadsOutput(s: State, step: Step) {
    || (step.Advance? && step.i < |s.procs| && s.procs[step.i].Completed? && s.procs[step.i].read)
    || (step == AdvanceHandle && (s.handle == TakenRead || s.handle == DropRead))
  }

  /** Every access to the slot finds what it needs: the future is polled and dropped only while it
      is there, the output is written into the emptied slot and read only after that; each of
      drop, write and read happens at most once over the whole run, panics included. */
  lemma SlotDiscipline(steps: seq<Step>, step: Step)
    requires IsRun(steps) && Enabled(Reached(steps), step)
    ensures var s := Reached(steps);
            && s.futureDrops <= 1 && s.outputWrites <= 1 && s.outputReads <= 1
            && (InPhase(s, step, Polling) ==> s.slot == Future && s.futureDrops == 0)
            && (DropsFuture(s, step) ==> s.slot == Future && s.futureDrops == 0)
            && (InPhase(s, step, ReadyWrite) ==> s.slot == Empty && s.futureDrops == 1 && s.outputWrites == 0)
            && (ReadsOutput(s, step) ==> s.slot == Output && s.outputWrites == 1 && s.outputReads == 0)
  {
    ReachedInv(steps);
    SlotAccess(Reached(steps), step);
  }

  lemma SlotAccess(s: State, step: Step)
    requires Inv(s) && Enabled(s, step)
    ensures InPhase(s, step, Polling) || DropsFuture(s, step) ==> s.slot == Future
    ensures InPhase(s, step, ReadyWrite) ==> s.slot == Empty && s.outputWrites == 0
    ensures ReadsOutput(s, step) ==> s.slot == Output
  {
    hide Enabled;
    assert step.Advance? ==> step.i < |s.procs| ==> step.i == 0;
  }

  /** Nobody else is committed to read when a step commits to it, and that step either sets
      CLOSED itself or completes a proc that was closed while running. */
  lemma ReaderWonClosed(steps: seq<Step>, step: Step)
    requires IsRun(steps) && Enabled(Reached(steps), step)
    requires var s, s' := Reached(steps), Next(Reached(steps), step);
             (HandleReads(s'.handle) && !HandleReads(s.handle)) || (TickReads(s'.procs) && !TickReads(s.procs))
    ensures var s, s' := Reached(steps), Next(Reached(steps), step);
            && !HandleReads(s.handle) && !TickReads(s.procs)
            && s'.word.completed && s'.word.closed
            && (!s.word.closed || (InPhase(s, step, Completing) && !s.word.completed))
  {
    ReachedInv(steps);
    NewReader(Reached(steps), step);
  }

  lemma NewReader(s: State, step: Step)
    requires Inv(s) && Enabled(s, step)
    requires var s' := Next(s, step);
             (HandleReads(s'.handle) && !HandleReads(s.handle)) || (TickReads(s'.procs) && !TickReads(s.procs))
    ensures var s' := Next(s, step);
            && !HandleReads(s.handle) && !TickReads(s.procs)
            && s'.word.completed && s'.word.closed
            && (!s.word.closed || (InPhase(s, step, Completing) && !s.word.completed))
  {
    match step
    case Advance(i, result) => NewTickReader(s, i, result);
    case AdvanceHandle => NewHandleReader(s);
    case _ => OthersDoNotRead(s, step);
  }

  lemma NewTickReader(s: State, i: nat, result: PollResult)
    requires Inv(s) && i < |s.procs|
    ensures var s' := AdvanceStep(s, i, result);
            && s'.handle == s.handle
            && (TickReads(s'.procs) && !TickReads(s.procs) ==>
                && s.procs[i] == Completing && !HandleReads(s.handle)
                && s'.word.completed && s'.word.closed && !s.word.completed)
  {
    TickReaderOrigin(s, i, result);
    hide AdvanceStep;
  }

  lemma TickReaderOrigin(s: State, i: nat, result: PollResult)
    requires |s.procs| == 1 && i == 0
    ensures var s' := AdvanceStep(s, i, result);
            && s'.handle == s.handle
            && (TickReads(s'.procs) && !TickReads(s.procs) ==>
                s.procs[i] == Completing && s'.word == CompletedWord(s.word) && (!s.word.handle || s.word.closed))
  {
    hide EnterStep, ParkStep, CompletedStep, PollStep, PanicStep, DropCancelStep, NotifyStep, UnscheduleStep,
      PanicDropStep, PanicNotifyStep, Finish, NotifyAt, CompletedWord, DropFutureOf, WriteOutput, SwapNext;
    match s.procs[0]
    case Queued =>
    case Completing => Only(s.procs);
    case Completed(_, _, _) => TickReaderDone(s);
    case ReadyDrop => ReadyDoesNotRead(s);
    case ReadyWrite => ReadyDoesNotRead(s);
    case CancelNotify(at) => NotifyStepDoesNotRead(s, at, CancelNotify(SwapNext(s.word, s.awaiter, at)), Queued);
    case DropNotify(at) => NotifyStepDoesNotRead(s, at, DropNotify(SwapNext(s.word, s.awaiter, at)), DropFuture);
    case EnterNotify(at) => NotifyStepDoesNotRead(s, at, EnterNotify(SwapNext(s.word, s.awaiter, at)), DropFuture);
    case PanicDrop(notify) => LeavingDoesNotRead(s, notify, Trying);
    case PanicNotify(at) => LeavingDoesNotRead(s, true, at);
    case DropFuture => LeavingDoesNotRead(s, true, Trying);
    case _ => TickStepsDoNotRead(s, result);
  }

  /** The step leaves the handle alone and commits no tick to read. */
  predicate ReadsNothing(s: State, s': State) { s'.handle == s.handle && !TickReads(s'.procs) }

  lemma TickStepsDoNotRead(s: State, result: PollResult)
    requires |s.procs| == 1
    ensures ReadsNothing(s, EnterStep(s, 0)) && ReadsNothing(s, ParkStep(s, 0)) && ReadsNothing(s, PollStep(s, 0, result))
    ensures ReadsNothing(s, PanicStep(s, 0)) && ReadsNothing(s, DropCancelStep(s, 0))
    ensures ReadsNothing(s, UnscheduleStep(s, 0))
  {
    hide Parked, Closed, Entered;
    Only(s.procs);
  }

  lemma ReadyDoesNotRead(s: State)
    requires |s.procs| == 1
    ensures ReadsNothing(s, Goto(DropFutureOf(s), 0, ReadyWrite)) && ReadsNothing(s, Goto(WriteOutput(s), 0, Completing))
  {
    Only(s.procs);
  }

  lemma NotifyStepDoesNotRead(s: State, at: Swap, again: Phase, after: Phase)
    requires |s.procs| == 1 && !again.Completed? && !after.Completed?
    ensures ReadsNothing(s, NotifyStep(s, 0, at, again, after))
  {
    Only(s.procs);
  }

  lemma LeavingDoesNotRead(s: State, notify: bool, at: Swap)
    requires |s.procs| == 1
    ensures ReadsNothing(s, PanicDropStep(s, 0, notify))
    ensures ReadsNothing(s, PanicNotifyStep(s, 0, at)) && ReadsNothing(s, Finish(DropFutureOf(s), 0))
  {
    Only(s.procs);
  }

  lemma TickReaderDone(s: State)
    requires |s.procs| == 1
    ensures s.procs[0].Completed? ==>
              var s' := CompletedStep(s, 0);
              s'.handle == s.handle && (TickReads(s'.procs) ==> TickReads(s.procs))
  {
    Only(s.procs);
  }

  lemma NewHandleReader(s: State)
    requires Inv(s)
    ensures var s' := AdvanceHandleStep(s);
            && (TickReads(s'.procs) ==> TickReads(s.procs))
            && (HandleReads(s'.handle) && !HandleReads(s.handle) ==>
                !TickReads(s.procs) && s'.word.completed && s'.word.closed && !s.word.closed)
  {
    HandleReaderOrigin(s);
    hide AdvanceHandleStep;
  }

  lemma HandleReaderOrigin(s: State)
    ensures var s' := AdvanceHandleStep(s);
            && (TickReads(s'.procs) ==> TickReads(s.procs))
            && (HandleReads(s'.handle) && !HandleReads(s.handle) ==>
                && (s.handle.PollTake? || s.word.completed)
                && !s.word.closed && s'.word == Closed(s.word))
  {
    match s.handle
    case HandleDropping => hide NotifyUnlessStep, RegisterStep;
    case PollTake(x) => hide NotifyUnlessStep, RegisterStep;
    case _ => hide HandleDropStep, TakeStep;
  }

  lemma OthersDoNotRead(s: State, step: Step)
    requires Inv(s) && Enabled(s, step) && !step.Advance? && !step.AdvanceHandle?
    ensures TickReads(Next(s, step).procs) ==> TickReads(s.procs)
    ensures HandleReads(Next(s, step).handle) ==> HandleReads(s.handle)
  {
    hide AdvanceStep, AdvanceHandleStep, Inv, Decrement, NotifyAt, Woken, WokenByRef, HandleCancelled, Closed;
    match step
    case Wake => AppendedDoesNotRead(s.procs);
    case WakeByRef => AppendedDoesNotRead(s.procs);
    case HandleCancel(_) => AppendedDoesNotRead(s.procs);
    case DropWaker => DecrementDoesNotRead(s.(wakers := s.wakers - 1));
    case Release => DecrementDoesNotRead(s.(releasing := s.releasing - 1));
    case AdvanceCancel(k) => NotifyDoesNotRead(s, s.cancels[k]);
    case _ =>
  }

  lemma AppendedDoesNotRead(procs: seq<Phase>)
    ensures !TickReads(procs + [Queued])
  {
  }

  lemma DecrementDoesNotRead(s: State)
    ensures Decrement(s).procs == s.procs && Decrement(s).handle == s.handle
  {
  }

  lemma NotifyDoesNotRead(s: State, at: Swap)
    ensures NotifyAt(s, at).procs == s.procs && NotifyAt(s, at).handle == s.handle
  {
  }

  /** An output is never lost with the memory, and a future only when the last reference of an
      idle proc goes without a handle. */
  lemma WhatDestroyLeaks(steps: seq<Step>)
    requires IsRun(steps)
    ensures var s := Reached(steps);
            s.destroying + s.frees == 1 ==>
            s.slot != Output && (s.slot == Future <==> !s.word.completed && !s.word.closed)
  {
    ReachedInv(steps);
  }

  // ----- the awaiter

  /** After a handle poll returned Pending, its waker stays registered while the proc runs; once
      the proc has completed or closed and no call is left that is committed to notify, that
      waker has been woken. This holds with the lock of `swap_awaiter` as written, although calls
      may overlap in it. */
  lemma AwaiterIsWoken(steps: seq<Step>)
    requires IsRun(steps) && Reached(steps).waiting.Some?
    ensures var s := Reached(steps);
            && s.handle == Present
            && (!Ended(s.word) && !s.woken ==> s.awaiter == s.waiting && s.word.awaiter)
            && (Ended(s.word) && s.cancels == [] && !TickNotifies(s.procs) ==> s.woken)
  {
    ReachedInv(steps);
  }

  /** How many actions a `notify` still needs, if nobody else takes the lock in between. */
  function Remaining(at: Swap, locked: bool): nat {
    match at
    case Trying => if locked then 3 else 4
    case Inside => 2
    case Swapped(_) => 1
  }

  /** A committed notifier needs at most five steps of its own to wake the waiting waker: steps of a
      handle cancel, or of the owner of the one reference. */
  lemma NotifierWakes(steps: seq<Step>) returns (own: seq<Step>)
    requires IsRun(steps)
    requires var s := Reached(steps); s.waiting.Some? && !s.woken && Ended(s.word) && !s.aborted
    ensures |own| <= 5 && Legal(Reached(steps), own) && After(Reached(steps), own).woken
    ensures (forall k :: 0 <= k < |own| ==> own[k] == AdvanceCancel(0))
            || (forall k :: 0 <= k < |own| ==> own[k] == Advance(0, Pending))
  {
    ReachedInv(steps);
    var s := Reached(steps);
    hide Legal, After;
    if CancelTakes(s) {
      own := CancelWakes(s);
    } else {
      own := TickWakes(s);
    }
  }

  /** The handle cancel will take the waiting waker, or has it. */
  predicate CancelTakes(s: State) {
    s.waiting.Some? && |s.cancels| == 1
    && if s.cancels[0].Swapped? then s.cancels[0] == Swapped(s.waiting) else s.awaiter == s.waiting
  }

  predicate TickTakes(s: State) {
    s.waiting.Some? && TickNotifies(s.procs)
    && if SwapOf(s.procs[0]).Swapped? then SwapOf(s.procs[0]) == Swapped(s.waiting) else s.awaiter == s.waiting
  }

  lemma {:induction false} CancelWakes(s: State) returns (own: seq<Step>)
    requires CancelTakes(s) && !s.aborted
    ensures |own| == Remaining(s.cancels[0], s.word.locked) && Legal(s, own) && After(s, own).woken
    ensures forall k :: 0 <= k < |own| ==> own[k] == AdvanceCancel(0)
    decreases Remaining(s.cancels[0], s.word.locked)
  {
    var t := AdvanceCancel(0);
    CancelMoves(s);
    var s' := AdvanceCancelStep(s, 0);
    hide AdvanceCancelStep, CancelTakes;
    assert Enabled(s, t) && Next(s, t) == s';
    if s.cancels[0].Swapped? {
      own := Prepend(s, t, s', []);
    } else {
      var rest := CancelWakes(s');
      own := Prepend(s, t, s', rest);
    }
  }

  lemma CancelMoves(s: State)
    requires CancelTakes(s) && !s.aborted
    ensures var s' := AdvanceCancelStep(s, 0);
            && !s'.aborted
            && (s.cancels[0].Swapped? ==> s'.woken)
            && (!s.cancels[0].Swapped? ==>
                CancelTakes(s') && Remaining(s'.cancels[0], s'.word.locked) == Remaining(s.cancels[0], s.word.locked) - 1)
  {
  }

  lemma Prepend(s: State, t: Step, s': State, rest: seq<Step>) returns (own: seq<Step>)
    requires Enabled(s, t) && Next(s, t) == s' && Legal(s', rest)
    ensures own == [t] + rest && Legal(s, own) && After(s, own) == After(s', rest)
  {
    hide Enabled, Next;
    own := [t] + rest;
    assert own[1..] == rest;
  }

  /** Before its swap the tick may still have to take the output or drop the future. */
  function TickRemaining(p: Phase, locked: bool): nat {
    Remaining(SwapOf(p), locked) + (if p.PanicDrop? || (p.Completed? && p.read) then 1 else 0)
  }

  lemma {:induction false} TickWakesFrom(s: State) returns (own: seq<Step>)
    requires MayMove(s)
    ensures |own| == TickRemaining(s.procs[0], s.word.locked) && Legal(s, own) && After(s, own).woken
    ensures forall k :: 0 <= k < |own| ==> own[k] == Advance(0, Pending)
    decreases TickRemaining(s.procs[0], s.word.locked)
  {
    var t := Advance(0, Pending);
    TickMoves(s);
    var s' := AdvanceStep(s, 0, Pending);
    assert s.procs[0] != Queued;
    hide AdvanceStep, TickTakes;
    assert Enabled(s, t) && Next(s, t) == s';
    if SwapOf(s.procs[0]).Swapped? {
      own := Prepend(s, t, s', []);
    } else {
      var rest := TickWakesFrom(s');
      own := Prepend(s, t, s', rest);
    }
  }

  /** The owner of the reference came one action closer to waking the waiting waker, or woke it. */
  predicate CameCloser(s: State, s': State) {
    && |s.procs| == 1 && !s'.aborted
    && if SwapOf(s.procs[0]).Swapped? then s'.woken
       else
         && TickTakes(s') && (s'.procs[0].Completed? && s'.procs[0].read ==> s'.procs[0].at.Trying?)
         && TickRemaining(s'.procs[0], s'.word.locked) == TickRemaining(s.procs[0], s.word.locked) - 1
  }

  predicate MayMove(s: State) {
    TickTakes(s) && !s.aborted && (s.procs[0].Completed? && s.procs[0].read ==> s.procs[0].at.Trying?)
  }

  lemma NotifyMoves(s: State, at: Swap, again: Phase, after: Phase)
    requires MayMove(s) && at == SwapOf(s.procs[0]) && !s.procs[0].PanicDrop?
    requires !(s.procs[0].Completed? && s.procs[0].read)
    requires WillNotify(again) && SwapOf(again) == SwapNext(s.word, s.awaiter, at)
    requires !again.PanicDrop? && !(again.Completed? && again.read)
    ensures CameCloser(s, NotifyStep(s, 0, at, again, after))
  {
    Only(s.procs);
  }

  lemma PanicNotifyMoves(s: State, at: Swap)
    requires MayMove(s) && s.procs[0] == PanicNotify(at)
    ensures CameCloser(s, PanicNotifyStep(s, 0, at))
  {
    Only(s.procs);
  }

  lemma PanicDropMoves(s: State)
    requires MayMove(s) && s.procs[0] == PanicDrop(true)
    ensures CameCloser(s, PanicDropStep(s, 0, true))
  {
    Only(s.procs);
  }

  lemma CompletedMoves(s: State)
    requires MayMove(s) && s.procs[0].Completed?
    ensures CameCloser(s, CompletedStep(s, 0))
  {
    var p := s.procs[0];
    if p.read {
      Only(s.procs);
      hide NotifyStep;
    } else {
      hide NotifyStep, CameCloser;
      NotifyMoves(s, p.at, Completed(false, true, SwapNext(s.word, s.awaiter, p.at)), Completed(false, false, Trying));
    }
  }

  lemma TickMoves(s: State)
    requires MayMove(s)
    ensures CameCloser(s, AdvanceStep(s, 0, Pending))
  {
    hide EnterStep, ParkStep, CompletedStep, PollStep, PanicStep, DropCancelStep, NotifyStep, UnscheduleStep,
      PanicDropStep, PanicNotifyStep, CameCloser, SwapNext, Finish, Goto, DropFutureOf, WriteOutput, CompleteStep;
    match s.procs[0]
    case CancelNotify(at) => NotifyMoves(s, at, CancelNotify(SwapNext(s.word, s.awaiter, at)), Queued);
    case DropNotify(at) => NotifyMoves(s, at, DropNotify(SwapNext(s.word, s.awaiter, at)), DropFuture);
    case EnterNotify(at) => NotifyMoves(s, at, EnterNotify(SwapNext(s.word, s.awaiter, at)), DropFuture);
    case PanicNotify(at) => PanicNotifyMoves(s, at);
    case PanicDrop(notify) => PanicDropMoves(s);
    case Completed(_, _, _) => CompletedMoves(s);
    case _ => assert false;
  }

  lemma TickWakes(s: State) returns (own: seq<Step>)
    requires Inv(s) && s.waiting.Some? && !s.woken && Ended(s.word) && !s.aborted && !CancelTakes(s)
    ensures |own| <= 5 && Legal(s, own) && After(s, own).woken
    ensures forall k :: 0 <= k < |own| ==> own[k] == Advance(0, Pending)
  {
    assert MayMove(s);
    hide Inv, Legal, After, MayMove;
    own := TickWakesFrom(s);
  }

  // ----- the lock of the awaiter cell

  /** Calls that are past the loop of `swap_awaiter` and have not yet released it. */
  function InsideHandle(h: HandlePhase): nat {
    match h
    case PollRegister(_, at) => if at.Trying? then 0 else 1
    case PollClosed(_, at) => if at.Trying? then 0 else 1
    case TakenNotify(_, at) => if at.Trying? then 0 else 1
    case _ => 0
  }

  function InsideCancel(cancels: seq<Swap>): nat { if |cancels| == 1 && !cancels[0].Trying? then 1 else 0 }

  function InsideTick(procs: seq<Phase>): nat { if |procs| == 1 && !SwapOf(procs[0]).Trying? then 1 else 0 }

  function InsideSwap(s: State): nat { InsideHandle(s.handle) + InsideCancel(s.cancels) + InsideTick(s.procs) }

  /** Although its test is reversed, the lock is never shared while the proc runs: two calls can be
      inside at once only once it has completed or closed. */
  lemma SharedOnlyAfterEnd(steps: seq<Step>)
    requires IsRun(steps) && InsideSwap(Reached(steps)) > 1
    ensures Ended(Reached(steps).word)
  {
    ReachedInv(steps);
    SharedHasEnded(Reached(steps));
  }

  lemma SharedHasEnded(s: State)
    requires Inv(s) && InsideSwap(s) > 1
    ensures Ended(s.word)
  {
    assert InsideCancel(s.cancels) == 1 || InsideTick(s.procs) == 1;
  }
}
