/** How a proc comes to its end: what each kind of poll result, cancel and drop leads to in every
    continuation, and which steps change which flag. */
module ProcEnding {
  import opened StateWord
  import opened Transitions
  import opened ProcProtocol
  import opened ProcInvariant
  import opened ProcTheorems
  import opened Wrappers

  // ----- which steps change which flag

  /** The phase of the reference whose owner takes the step. */
  function PhaseOf(s: State, step: Step): Option<Phase> {
    if step.Advance? && step.i < |s.procs| then Some(s.procs[step.i]) else None
  }

  /** The phase of the handle, if it takes the step. */
  function HandleOf(s: State, step: Step): Option<HandlePhase> {
    if step == AdvanceHandle then Some(s.handle) else None
  }

  /** The steps that set CLOSED: a cancel or drop that finds the proc not ended, a panic, completion
      without a handle, and the handle taking the output or leaving an unreferenced proc. */
  predicate Closes(w: Word, step: Step, p: Option<Phase>, h: Option<HandlePhase>) {
    || ((step.CancelProc? || step.HandleCancel? || p == Some(Dropping)) && !Ended(w))
    || p == Some(Panicking)
    || (p == Some(Completing) && !w.handle)
    || (h.Some? && h.value.PollTake?)
    || (h == Some(HandleDropping) && !w.closed && (w.completed || w.refs == 0))
  }

  /** SCHEDULED after a step: set by a wake, the cancel of an idle proc and the handle leaving an
      unreferenced one; cleared by a tick entry, and on a closed proc by the end of its tick. */
  predicate ScheduledAfter(w: Word, step: Step, p: Option<Phase>, h: Option<HandlePhase>) {
    if step == Wake || step == WakeByRef then w.scheduled || !Ended(w)
    else if step.HandleCancel? then w.scheduled || (!Ended(w) && Idle(w))
    else if h == Some(HandleDropping) && !Ended(w) && w.refs == 0 then true
    else
      && w.scheduled && !(p == Some(Entering) && !w.closed) && !(p == Some(Parking) && w.closed)
      && p != Some(PanicUnschedule)
  }

  /** The word `w'` after a step has exactly the flags the step is due to leave. */
  predicate FlagChange(w: Word, step: Step, p: Option<Phase>, h: Option<HandlePhase>, w': Word) {
    && (w'.closed <==> w.closed || Closes(w, step, p, h))
    && (w'.completed <==> w.completed || p == Some(Completing))
    && (w'.running <==> (w.running || (p == Some(Entering) && !w.closed)) && p != Some(Parking))
    && (w'.scheduled <==> ScheduledAfter(w, step, p, h))
    && (w'.handle <==> w.handle && !(h == Some(HandleDropping) && (!w.completed || w.closed)))
  }

  predicate FlagsAfter(s: State, step: Step, w: Word) { FlagChange(s.word, step, PhaseOf(s, step), HandleOf(s, step), w) }

  // The word after each kind of step.

  function TickWord(p: Phase, w: Word): Word {
    match p
    case CancelNotify(at) => SwapWord(w, at, false)
    case DropNotify(at) => SwapWord(w, at, false)
    case EnterNotify(at) => SwapWord(w, at, false)
    case PanicNotify(at) => SwapWord(w, at, false)
    case Completed(read, notify, at) => if !read && notify then SwapWord(w, at, false) else w
    case Dropping => if Ended(w) then w else Closed(w)
    case Entering => if w.closed then w else Entered(w)
    case Completing => CompletedWord(w)
    case Parking => Parked(w)
    case Panicking => Closed(w)
    case PanicUnschedule => w.(scheduled := false)
    case _ => w
  }

  function HandleWord(h: HandlePhase, w: Word): Word {
    match h
    case PollRegister(_, at) => SwapWord(w, at, true)
    case PollClosed(_, at) => SwapWord(w, at, false)
    case TakenNotify(_, at) => SwapWord(w, at, false)
    case PollTake(_) => Closed(w)
    case HandleDropping => if w.completed && !w.closed then Closed(w) else HandleDropped(w)
    case _ => w
  }

  function CallWord(step: Step, w: Word): Word {
    match step
    case Wake => Woken(w)
    case WakeByRef => WokenByRef(w)
    case CloneWaker => if w.refs > I32_MAX then w else w.(refs := w.refs + 1)
    case DropWaker => Decremented(w)
    case Release => Decremented(w)
    case CancelProc(_) => if Ended(w) then w else Closed(w)
    case HandleCancel(arms) => HandleCancelled(w, arms)
    case _ => w
  }

  lemma NotifyWord(s: State, at: Swap)
    ensures NotifyAt(s, at).word == SwapWord(s.word, at, false)
  {
    hide SwapWord;
  }

  lemma NotifyWordIs(s: State, i: nat, result: PollResult)
    requires i < |s.procs| && Notifies(s.procs[i])
    ensures AdvanceStep(s, i, result).word == TickWord(s.procs[i], s.word)
  {
    hide NotifyAt, SwapNext, SwapWord, EnterStep, ParkStep, CompletedStep, PollStep, PanicStep, DropCancelStep,
      UnscheduleStep, PanicDropStep, CompleteStep, DropFutureOf, WriteOutput;
    match s.procs[i]
    case CancelNotify(at) => NotifyWord(s, at); hide PanicNotifyStep;
    case DropNotify(at) => NotifyWord(s, at); hide PanicNotifyStep;
    case EnterNotify(at) => NotifyWord(s, at); hide PanicNotifyStep;
    case PanicNotify(at) => NotifyWord(s, at); hide NotifyStep;
  }

  lemma CompletedWordIs(s: State, i: nat)
    requires i < |s.procs| && s.procs[i].Completed?
    ensures CompletedStep(s, i).word == TickWord(s.procs[i], s.word)
  {
    NotifyWord(s, s.procs[i].at);
    hide NotifyAt, SwapNext, SwapWord;
  }

  lemma MoveWordIs(s: State, i: nat, result: PollResult)
    requires i < |s.procs| && Moves(s.procs[i])
    ensures AdvanceStep(s, i, result).word == TickWord(s.procs[i], s.word)
  {
    hide NotifyStep, CompletedStep, PanicDropStep, PanicNotifyStep, SwapNext, DropFutureOf, WriteOutput, Entered,
      CompletedWord, Parked, SwapWord;
    match s.procs[i]
    case Dropping => hide EnterStep, ParkStep, PanicStep, PollStep;
    case Entering => hide DropCancelStep, ParkStep, PanicStep, PollStep;
    case Parking => hide DropCancelStep, EnterStep, PanicStep, PollStep;
    case Panicking => hide DropCancelStep, EnterStep, ParkStep, PollStep;
    case _ => hide DropCancelStep, EnterStep, ParkStep, PanicStep;
  }

  lemma SlotWordIs(s: State, i: nat, result: PollResult)
    requires i < |s.procs| && !Notifies(s.procs[i]) && !Moves(s.procs[i]) && !s.procs[i].Completed?
    ensures AdvanceStep(s, i, result).word == TickWord(s.procs[i], s.word)
  {
    hide EnterStep, ParkStep, CompletedStep, PollStep, PanicStep, DropCancelStep, NotifyStep, UnscheduleStep,
      PanicNotifyStep, CompleteStep, SwapNext, SwapWord;
  }

  lemma TickWordIs(s: State, i: nat, result: PollResult)
    requires i < |s.procs|
    ensures AdvanceStep(s, i, result).word == TickWord(s.procs[i], s.word)
  {
    if s.procs[i].Completed? {
      CompletedWordIs(s, i);
      hide CompletedStep, TickWord;
    } else {
      hide AdvanceStep, TickWord;
      if Notifies(s.procs[i]) {
        NotifyWordIs(s, i, result);
      } else if Moves(s.procs[i]) {
        MoveWordIs(s, i, result);
      } else {
        SlotWordIs(s, i, result);
      }
    }
  }

  lemma HandleWordIs(s: State)
    ensures AdvanceHandleStep(s).word == HandleWord(s.handle, s.word)
  {
    hide SwapWord, SwapNext, HandleDropped;
    match s.handle
    case HandleDropping => hide TakeStep, ReloadStep, RegisterStep, NotifyUnlessStep;
    case PollRegister(x, at) => hide TakeStep, ReloadStep, HandleDropStep, NotifyUnlessStep;
    case PollClosed(x, at) => hide TakeStep, ReloadStep, HandleDropStep, RegisterStep;
    case TakenNotify(x, at) => hide TakeStep, ReloadStep, HandleDropStep, RegisterStep;
    case PollTake(x) => hide ReloadStep, HandleDropStep, RegisterStep, NotifyUnlessStep;
    case _ => hide TakeStep, HandleDropStep, RegisterStep, NotifyUnlessStep;
  }

  lemma CallWordIs(s: State, step: Step)
    requires Enabled(s, step) && !step.Advance? && !step.AdvanceHandle? && !step.AdvanceCancel?
    ensures Next(s, step).word == CallWord(step, s.word)
  {
    hide AdvanceStep, AdvanceHandleStep, AdvanceCancelStep, Woken, WokenByRef, Decremented, HandleCancelled;
    match step
    case Wake => hide WakeByRefStep, HandleCancelStep, CancelProcStep;
    case WakeByRef => hide WakeStep, HandleCancelStep, CancelProcStep;
    case HandleCancel(arms) => HandleCancelWord(s, arms); hide HandleCancelStep, WakeStep, WakeByRefStep, CancelProcStep;
    case CancelProc(i) => hide WakeStep, WakeByRefStep, HandleCancelStep;
    case _ => hide WakeStep, WakeByRefStep, HandleCancelStep, CancelProcStep;
  }

  lemma HandleCancelWord(s: State, arms: CancelArms)
    ensures HandleCancelStep(s, arms).word == HandleCancelled(s.word, arms)
  {
  }

  lemma SwapKeepsFlags(w: Word, at: Swap, stores: bool)
    ensures var w' := SwapWord(w, at, stores);
            w' == w.(locked := w'.locked, awaiter := w'.awaiter)
  {
  }

  // The flags of these words.

  lemma TickFlags(p: Phase, w: Word, step: Step)
    requires step.Advance?
    ensures FlagChange(w, step, Some(p), None, TickWord(p, w))
  {
    hide SwapWord;
    match p
    case CancelNotify(at) => SwapFlags(w, at, p, step);
    case DropNotify(at) => SwapFlags(w, at, p, step);
    case EnterNotify(at) => SwapFlags(w, at, p, step);
    case PanicNotify(at) => SwapFlags(w, at, p, step);
    case Completed(_, _, at) => SwapFlags(w, at, p, step);
    case Dropping => hide Parked, Entered, CompletedWord;
    case Entering => hide Parked, CompletedWord;
    case Completing => hide Parked, Entered;
    case Parking => hide Entered, CompletedWord;
    case _ => hide Parked, Entered, CompletedWord;
  }

  lemma SwapFlags(w: Word, at: Swap, p: Phase, step: Step)
    requires step.Advance? && (Notifies(p) || p.Completed?)
    ensures FlagChange(w, step, Some(p), None, SwapWord(w, at, false)) && FlagChange(w, step, Some(p), None, w)
  {
    SwapKeepsFlags(w, at, false);
    hide SwapWord;
  }

  lemma HandleFlags(h: HandlePhase, w: Word)
    requires h == HandleDropping && w.refs == 0 && !Ended(w) ==> w.handle && Idle(w)
    ensures FlagChange(w, AdvanceHandle, None, Some(h), HandleWord(h, w))
  {
    match h
    case PollRegister(_, at) => SwapKeepsFlags(w, at, true); hide SwapWord;
    case PollClosed(_, at) => SwapKeepsFlags(w, at, false); hide SwapWord;
    case TakenNotify(_, at) => SwapKeepsFlags(w, at, false); hide SwapWord;
    case _ =>
  }

  lemma WakeFlags(w: Word)
    ensures FlagChange(w, Wake, None, None, Woken(w))
    ensures FlagChange(w, WakeByRef, None, None, WokenByRef(w))
  {
  }

  lemma HandleCancelFlags(w: Word, arms: CancelArms)
    requires arms == AsCommented || Ended(w)
    ensures FlagChange(w, HandleCancel(arms), None, None, HandleCancelled(w, arms))
  {
  }

  /** The other calls change no flag, but for a cancel that closes. */
  lemma QuietFlags(step: Step, w: Word, w': Word)
    requires !step.Advance? && !step.AdvanceHandle? && !step.HandleCancel? && step != Wake && step != WakeByRef
    requires w' == w.(refs := w'.refs, closed := w.closed || (step.CancelProc? && !Ended(w)))
    ensures FlagChange(w, step, None, None, w')
  {
  }

  lemma CallFlags(step: Step, w: Word)
    requires !step.Advance? && !step.AdvanceHandle? && !step.AdvanceCancel? && (step == HandleCancel(AsWritten) ==> Ended(w))
    ensures FlagChange(w, step, None, None, CallWord(step, w))
  {
    hide FlagChange, Woken, WokenByRef, HandleCancelled, Decremented;
    match step
    case Wake => WakeFlags(w);
    case WakeByRef => WakeFlags(w);
    case HandleCancel(arms) => HandleCancelFlags(w, arms);
    case CloneWaker => QuietFlags(step, w, CallWord(step, w));
    case DropWaker => DecrementedWord(w); QuietFlags(step, w, Decremented(w));
    case Release => DecrementedWord(w); QuietFlags(step, w, Decremented(w));
    case CancelProc(_) => QuietFlags(step, w, CallWord(step, w));
    case Run(_) => QuietFlags(step, w, w);
    case DropProc(_) => QuietFlags(step, w, w);
    case PollHandle(_) => QuietFlags(step, w, w);
    case DropHandle => QuietFlags(step, w, w);
    case Destroy => QuietFlags(step, w, w);
  }

  lemma DecrementedWord(w: Word)
    ensures Decremented(w) == w.(refs := Decremented(w).refs)
  {
  }

  lemma LeavingIsIdle(s: State)
    requires Inv(s) && s.handle == HandleDropping && s.word.refs == 0 && !Ended(s.word)
    ensures s.word.handle && Idle(s.word)
  {
  }

  lemma StepFlags(s: State, step: Step)
    requires Inv(s) && Enabled(s, step) && Harmless(s, step)
    ensures FlagsAfter(s, step, Next(s, step).word)
  {
    hide FlagChange, AdvanceStep, AdvanceHandleStep, NotifyAt, TickWord, HandleWord, CallWord, Inv;
    match step
    case Advance(i, result) =>
      TickWordIs(s, i, result);
      TickFlags(s.procs[i], s.word, step);
    case AdvanceHandle =>
      HandleWordIs(s);
      if s.handle == HandleDropping && s.word.refs == 0 && !Ended(s.word) {
        LeavingIsIdle(s);
      }
      HandleFlags(s.handle, s.word);
    case AdvanceCancel(k) =>
      NotifyWord(s, s.cancels[k]);
      CancelFlags(s.word, k, s.cancels[k]);
    case _ =>
      CallWordIs(s, step);
      CallFlags(step, s.word);
      hide Next;
  }

  lemma CancelFlags(w: Word, k: nat, at: Swap)
    ensures FlagChange(w, AdvanceCancel(k), None, None, SwapWord(w, at, false))
  {
    SwapKeepsFlags(w, at, false);
    hide SwapWord;
  }

  /** Over every run, each step leaves exactly the flags it is due to leave: CLOSED and COMPLETED are
      never cleared, and every other change of a flag has the one cause named. */
  lemma FlagsChangeExactly(steps: seq<Step>, step: Step)
    requires IsRun(steps) && Enabled(Reached(steps), step) && Harmless(Reached(steps), step)
    ensures FlagsAfter(Reached(steps), step, Next(Reached(steps), step).word)
  {
    ReachedInv(steps);
    hide Inv, FlagsAfter;
    StepFlags(Reached(steps), step);
  }

  // ----- which phases follow each other

  function PhaseIn(procs: seq<Phase>): Option<Phase> { if |procs| == 1 then Some(procs[0]) else None }

  /** What a reference may be doing after a step of its owner, given whether the proc was closed and
      what the poll returned; None when the reference was given up. */
  predicate Follows(p: Phase, closed: bool, result: PollResult, q: Option<Phase>) {
    match p
    case Queued => q == Some(Queued)
    case CancelNotify(_) => q.Some? && (q.value.CancelNotify? || q.value.Queued?)
    case Dropping => q.Some? && (q.value.DropNotify? || q.value.DropFuture?)
    case DropNotify(_) => q.Some? && (q.value.DropNotify? || q.value.DropFuture?)
    case Entering => q.Some? && if closed then q.value.EnterNotify? || q.value.DropFuture? else q.value.Polling?
    case EnterNotify(_) => q.Some? && (q.value.EnterNotify? || q.value.DropFuture?)
    case Polling => q == Some(match result case Ready => ReadyDrop case Pending => Parking case Panic => Panicking)
    case ReadyDrop => q == Some(ReadyWrite)
    case ReadyWrite => q == Some(Completing)
    case Completing => q.Some? && q.value.Completed?
    case Completed(_, _, _) => q.None? || q.value.Completed?
    case Parking => if closed then q == Some(DropFuture) else q.None? || q == Some(Queued)
    case Panicking => q.Some? && (q.value.PanicUnschedule? || q.value.PanicDrop?)
    case PanicUnschedule => q == Some(DropFuture)
    case PanicDrop(_) => q.None? || q.value.PanicNotify?
    case PanicNotify(_) => q.None? || q.value.PanicNotify?
    case DropFuture => q.None?
  }

  predicate Notifies(p: Phase) { p.CancelNotify? || p.DropNotify? || p.EnterNotify? || p.PanicNotify? }

  predicate Moves(p: Phase) {
    p.Dropping? || p.Entering? || p.Polling? || p.Completing? || p.Parking? || p.Panicking? || p.PanicUnschedule?
  }

  lemma NotifyFollows(s: State, result: PollResult)
    requires |s.procs| == 1 && Notifies(s.procs[0])
    ensures var procs := AdvanceStep(s, 0, result).procs;
            |procs| <= 1 && Follows(s.procs[0], s.word.closed, result, PhaseIn(procs))
  {
    hide EnterStep, ParkStep, CompletedStep, PollStep, PanicStep, DropCancelStep, NotifyStep, UnscheduleStep,
      PanicDropStep, PanicNotifyStep, CompleteStep, SwapNext, DropFutureOf, WriteOutput, Goto, Finish;
    match s.procs[0]
    case CancelNotify(at) => NotifyPhase(s, at, CancelNotify(SwapNext(s.word, s.awaiter, at)), Queued);
    case DropNotify(at) => NotifyPhase(s, at, DropNotify(SwapNext(s.word, s.awaiter, at)), DropFuture);
    case EnterNotify(at) => NotifyPhase(s, at, EnterNotify(SwapNext(s.word, s.awaiter, at)), DropFuture);
    case PanicNotify(at) => PanicNotifyPhase(s, at);
  }

  lemma MoveFollows(s: State, result: PollResult)
    requires |s.procs| == 1 && Moves(s.procs[0])
    ensures var procs := AdvanceStep(s, 0, result).procs;
            |procs| <= 1 && Follows(s.procs[0], s.word.closed, result, PhaseIn(procs))
  {
    TickPhases(s, result);
    OtherPhases(s);
    hide EnterStep, ParkStep, CompletedStep, PollStep, PanicStep, DropCancelStep, NotifyStep, UnscheduleStep,
      PanicDropStep, PanicNotifyStep, CompleteStep, SwapNext, DropFutureOf, WriteOutput, Goto, Finish;
  }

  lemma SlotFollows(s: State, result: PollResult)
    requires |s.procs| == 1 && !Notifies(s.procs[0]) && !Moves(s.procs[0])
    ensures var procs := AdvanceStep(s, 0, result).procs;
            |procs| <= 1 && Follows(s.procs[0], s.word.closed, result, PhaseIn(procs))
  {
    hide EnterStep, ParkStep, CompletedStep, PollStep, PanicStep, DropCancelStep, NotifyStep, UnscheduleStep,
      PanicDropStep, PanicNotifyStep, CompleteStep, SwapNext, DropFutureOf, WriteOutput, Goto, Finish;
    match s.procs[0]
    case Completed(_, _, _) => CompletedPhase(s);
    case PanicDrop(notify) => PanicDropPhase(s, notify);
    case _ => SlotPhases(s);
  }

  lemma TickFollows(s: State, result: PollResult)
    requires |s.procs| == 1
    ensures var procs := AdvanceStep(s, 0, result).procs;
            |procs| <= 1 && Follows(s.procs[0], s.word.closed, result, PhaseIn(procs))
  {
    hide AdvanceStep, Follows, PhaseIn;
    if Notifies(s.procs[0]) {
      NotifyFollows(s, result);
    } else if Moves(s.procs[0]) {
      MoveFollows(s, result);
    } else {
      SlotFollows(s, result);
    }
  }

  lemma NotifyPhase(s: State, at: Swap, again: Phase, after: Phase)
    requires |s.procs| == 1
    ensures NotifyStep(s, 0, at, again, after).procs == [if at.Swapped? then after else again]
  {
    NotifyLeavesProcs(s, at);
    hide NotifyAt;
    Only(s.procs);
  }

  lemma PanicNotifyPhase(s: State, at: Swap)
    requires |s.procs| == 1
    ensures PanicNotifyStep(s, 0, at).procs == if at.Swapped? then [] else [PanicNotify(SwapNext(s.word, s.awaiter, at))]
  {
    NotifyLeavesProcs(s, at);
    hide NotifyAt, SwapNext;
    Only(s.procs);
  }

  lemma CompletedPhase(s: State)
    requires |s.procs| == 1 && s.procs[0].Completed?
    ensures var procs := CompletedStep(s, 0).procs; |procs| <= 1 && (|procs| == 1 ==> procs[0].Completed?)
  {
    var p := s.procs[0];
    NotifyPhase(s, p.at, Completed(false, true, SwapNext(s.word, s.awaiter, p.at)), Completed(false, false, Trying));
    hide NotifyStep, SwapNext;
    Only(s.procs);
  }

  lemma SlotPhases(s: State)
    requires |s.procs| == 1
    ensures Goto(DropFutureOf(s), 0, ReadyWrite).procs == [ReadyWrite]
    ensures Goto(WriteOutput(s), 0, Completing).procs == [Completing]
    ensures Finish(DropFutureOf(s), 0).procs == []
  {
    Only(s.procs);
  }

  lemma PanicDropPhase(s: State, notify: bool)
    requires |s.procs| == 1
    ensures PanicDropStep(s, 0, notify).procs == if notify then [PanicNotify(Trying)] else []
  {
    Only(s.procs);
  }

  lemma TickPhases(s: State, result: PollResult)
    requires |s.procs| == 1
    ensures EnterStep(s, 0).procs
         == [if !s.word.closed then Polling else if s.word.awaiter then EnterNotify(Trying) else DropFuture]
    ensures ParkStep(s, 0).procs
         == if s.word.closed then [DropFuture] else if s.word.scheduled then [Queued] else []
    ensures PollStep(s, 0, result).procs
         == [match result case Ready => ReadyDrop case Pending => Parking case Panic => Panicking]
  {
    Only(s.procs);
    hide Entered, Parked;
  }

  lemma OtherPhases(s: State)
    requires |s.procs| == 1
    ensures PanicStep(s, 0).procs == [if s.word.closed then PanicUnschedule else PanicDrop(s.word.awaiter)]
    ensures UnscheduleStep(s, 0).procs == [DropFuture]
    ensures CompleteStep(s, 0).procs == [Completed(!s.word.handle || s.word.closed, s.word.awaiter, Trying)]
    ensures DropCancelStep(s, 0).procs
         == [if !Ended(s.word) && s.word.awaiter then DropNotify(Trying) else DropFuture]
  {
    Only(s.procs);
    hide CompletedWord;
  }

  lemma NotifyLeavesProcs(s: State, at: Swap)
    ensures NotifyAt(s, at).procs == s.procs
  {
  }

  /** In every run a reference goes through its phases in this order: in particular a tick polls
      exactly when it met a proc that is not closed, and each result of the poll has its own way on. */
  lemma PhasesFollow(steps: seq<Step>, i: nat, result: PollResult)
    requires IsRun(steps) && Enabled(Reached(steps), Advance(i, result))
    ensures var s := Reached(steps);
            Follows(s.procs[i], s.word.closed, result, PhaseIn(Next(s, Advance(i, result)).procs))
  {
    ReachedInv(steps);
    assert |Reached(steps).procs| == 1 && i == 0;
    hide Inv, AdvanceStep, Follows;
    TickFollows(Reached(steps), result);
  }

  // ----- a proc that will not be polled again

  lemma TickNext(s: State, step: Step)
    requires Enabled(s, step) && step.Advance? && |s.procs| <= 1
    ensures |s.procs| == 1 && step.i == 0 && Next(s, step) == AdvanceStep(s, 0, step.result)
    ensures PhaseOf(s, step) == Some(s.procs[0]) && HandleOf(s, step) == None
  {
    hide AdvanceStep;
  }

  predicate DoomedAt(w: Word, p: Option<Phase>) {
    !w.completed && (p == Some(Panicking) || p == Some(Dropping) || (w.closed && (p.Some? ==> !PastEntry(p.value))))
  }

  /** The proc has not completed and never will: a panic is unwinding, its reference is being dropped,
      or it is closed and no tick is past its entry. */
  predicate Doomed(s: State) { DoomedAt(s.word, PhaseIn(s.procs)) }

  lemma DoomedTick(p: Phase, w: Word, step: Step, q: Option<Phase>, w': Word)
    requires step.Advance? && DoomedAt(w, Some(p)) && !p.Completed? && !p.Completing?
    requires Follows(p, w.closed, step.result, q) && FlagChange(w, step, Some(p), None, w')
    ensures DoomedAt(w', q)
  {
    hide ScheduledAfter;
  }

  /** A step of anyone but the owner of the reference. */
  lemma OthersLeaveProcs(s: State, step: Step)
    requires Inv(s) && Enabled(s, step) && Harmless(s, step)
    requires !step.Advance? && !step.Run? && !step.DropProc? && !step.CancelProc?
    requires Ended(s.word) || |s.procs| == 1
    ensures Next(s, step).procs == s.procs
  {
    assert |s.procs| == 1 && !Ended(s.word) ==> !Idle(s.word);
    match step
    case AdvanceHandle => HandleLeavesProcs(s); hide Inv, AdvanceHandleStep;
    case AdvanceCancel(k) => NotifyLeavesProcs(s, s.cancels[k]); hide Inv, NotifyAt;
    case _ => hide Inv, AdvanceStep, AdvanceHandleStep;
  }

  lemma HandleLeavesProcs(s: State)
    requires Inv(s) && (Ended(s.word) || |s.procs| == 1)
    ensures AdvanceHandleStep(s).procs == s.procs
  {
    assert |s.procs| == 1 ==> s.word.refs > 0;
    hide SwapNext, SwapWord, Inv;
    match s.handle
    case HandleDropping => hide TakeStep, ReloadStep, RegisterStep, NotifyUnlessStep;
    case _ => hide HandleDropStep;
  }

  lemma DoomedStays(s: State, step: Step)
    requires Inv(s) && Enabled(s, step) && Harmless(s, step) && Doomed(s)
    ensures Doomed(Next(s, step))
  {
    StepFlags(s, step);
    DoomedShape(s);
    hide Inv, AdvanceStep, ScheduledAfter, FlagChange, Next, Enabled, Harmless, Follows, DoomedAt;
    if step.Advance? {
      TickNext(s, step);
      TickFollows(s, step.result);
      DoomedTick(s.procs[0], s.word, step, PhaseIn(AdvanceStep(s, 0, step.result).procs), AdvanceStep(s, 0, step.result).word);
    } else {
      CallsKeepPhase(s, step);
      DoomedCall(s.word, step, HandleOf(s, step), Next(s, step).word);
    }
  }

  /** Calls other than the owner's leave its phase, or move it between phases before the tick. */
  lemma CallsKeepPhase(s: State, step: Step)
    requires Inv(s) && Enabled(s, step) && Harmless(s, step) && !step.Advance? && |s.procs| <= 1
    requires Ended(s.word) || |s.procs| == 1
    ensures var p, q := PhaseIn(s.procs), PhaseIn(Next(s, step).procs);
            |Next(s, step).procs| <= 1 && (q == p || (p == Some(Queued) && q.Some? && BeforeTick(q.value)))
  {
    match step
    case Run(i) => Only(s.procs); hide Inv, AdvanceStep, AdvanceHandleStep;
    case DropProc(i) => Only(s.procs); hide Inv, AdvanceStep, AdvanceHandleStep;
    case CancelProc(i) => Only(s.procs); hide Inv, AdvanceStep, AdvanceHandleStep;
    case _ => OthersLeaveProcs(s, step); hide Inv, Next, Enabled;
  }

  predicate BeforeTick(p: Phase) { p.Entering? || p.Dropping? || p.CancelNotify? }

  lemma DoomedCall(w: Word, step: Step, h: Option<HandlePhase>, w': Word)
    requires FlagChange(w, step, None, h, w')
    ensures forall p, q :: DoomedAt(w, p) && (q == p || (p == Some(Queued) && q.Some? && BeforeTick(q.value))) ==> DoomedAt(w', q)
    ensures forall p, q :: OverAt(w, p) && (q == p || (p == Some(Queued) && q.Some? && BeforeTick(q.value))) ==> OverAt(w', q)
    ensures forall p, q :: CompletesAt(w, p) && (q == p || (p == Some(Queued) && q.Some? && BeforeTick(q.value))) ==> CompletesAt(w', q)
  {
    hide ScheduledAfter, Closes;
  }

  lemma DoomedShape(s: State)
    requires Inv(s) && Doomed(s)
    ensures |s.procs| <= 1 && (Ended(s.word) || |s.procs| == 1)
    ensures |s.procs| == 1 ==> !s.procs[0].Completed? && !s.procs[0].Completing?
  {
  }

  lemma DoomedMeans(s: State)
    requires Inv(s) && Doomed(s)
    ensures !SomePolling(s.procs) && s.outputWrites == 0
    ensures s.procs == [] ==> s.word.closed && s.slot == Empty && s.futureDrops == 1
  {
    hide Awaited;
  }

  lemma {:induction false} DoomedForever(s: State, rest: seq<Step>)
    requires Inv(s) && Doomed(s) && Legal(s, rest) && AllHarmless(s, rest)
    ensures Inv(After(s, rest)) && Doomed(After(s, rest))
    decreases |rest|
  {
    hide Inv, Next, Enabled, Harmless, Doomed;
    if rest != [] {
      StepKeepsInv(s, rest[0]);
      DoomedStays(s, rest[0]);
      DoomedForever(Next(s, rest[0]), rest[1..]);
    }
  }

  /** What all ends without completion come to: no poll is under way or begins, there never is an
      output, and once no reference is left the proc is closed and its future was dropped, once. */
  predicate EndsUnpolled(s: State) {
    && !SomePolling(s.procs) && s.outputWrites == 0 && !s.word.completed
    && (s.procs == [] ==> s.word.closed && s.slot == Empty && s.futureDrops == 1)
  }

  lemma EndsFrom(s: State, rest: seq<Step>)
    requires Inv(s) && Doomed(s) && Legal(s, rest) && AllHarmless(s, rest)
    ensures EndsUnpolled(After(s, rest))
  {
    DoomedForever(s, rest);
    DoomedMeans(After(s, rest));
  }

  /** A panic of the poll ends the proc, in every continuation. */
  lemma PanicIsFinal(steps: seq<Step>, i: nat, rest: seq<Step>)
    requires IsRun(steps) && Enabled(Reached(steps), Advance(i, Panic)) && Reached(steps).procs[i] == Polling
    requires var s := Next(Reached(steps), Advance(i, Panic)); Legal(s, rest) && AllHarmless(s, rest)
    ensures EndsUnpolled(After(Next(Reached(steps), Advance(i, Panic)), rest))
  {
    ReachedInv(steps);
    var s := Reached(steps);
    StepKeepsInv(s, Advance(i, Panic));
    Only(s.procs);
    assert Doomed(PollStep(s, i, Panic));
    hide Inv, AdvanceStep, EndsUnpolled, Legal, After;
    EndsFrom(Next(s, Advance(i, Panic)), rest);
  }

  /** So does the cancel of a reference, on a proc that has not ended; CLOSED is set at once and for good. */
  lemma CancelIsFinal(steps: seq<Step>, i: nat, rest: seq<Step>)
    requires IsRun(steps) && Enabled(Reached(steps), CancelProc(i)) && !Ended(Reached(steps).word)
    requires var s := Next(Reached(steps), CancelProc(i)); Legal(s, rest) && AllHarmless(s, rest)
    ensures var s := After(Next(Reached(steps), CancelProc(i)), rest); EndsUnpolled(s) && s.word.closed
  {
    ReachedInv(steps);
    var s := Reached(steps);
    StepKeepsInv(s, CancelProc(i));
    StepFlags(s, CancelProc(i));
    Only(s.procs);
    ClosedFrom(Next(s, CancelProc(i)), rest);
  }

  lemma ClosedFrom(s: State, rest: seq<Step>)
    requires Inv(s) && Doomed(s) && s.word.closed && Legal(s, rest) && AllHarmless(s, rest)
    ensures EndsUnpolled(After(s, rest)) && After(s, rest).word.closed
  {
    hide Inv, Doomed, EndsUnpolled;
    EndsFrom(s, rest);
    ClosedForever(s, rest);
  }

  /** Once set, CLOSED stays set. */
  lemma {:induction false} ClosedForever(s: State, rest: seq<Step>)
    requires Inv(s) && s.word.closed && Legal(s, rest) && AllHarmless(s, rest)
    ensures After(s, rest).word.closed
    decreases |rest|
  {
    hide Inv, Next, Enabled, Harmless, Closes, ScheduledAfter;
    if rest != [] {
      StepKeepsInv(s, rest[0]);
      StepFlags(s, rest[0]);
      ClosedForever(Next(s, rest[0]), rest[1..]);
    }
  }

  /** Dropping a reference without running it ends the proc as well. */
  lemma DropIsFinal(steps: seq<Step>, i: nat, rest: seq<Step>)
    requires IsRun(steps) && Enabled(Reached(steps), DropProc(i))
    requires var s := Next(Reached(steps), DropProc(i)); Legal(s, rest) && AllHarmless(s, rest)
    ensures EndsUnpolled(After(Next(Reached(steps), DropProc(i)), rest))
  {
    ReachedInv(steps);
    var s := Reached(steps);
    StepKeepsInv(s, DropProc(i));
    Only(s.procs);
    assert Doomed(Next(s, DropProc(i)));
    hide Inv, Doomed, EndsUnpolled, Legal, After;
    EndsFrom(Next(s, DropProc(i)), rest);
  }

  /** Dropping the handle of a proc that has not ended and has no reference ends it as well: it is
      queued once more, not to be polled but to have its future dropped. */
  lemma AbandonIsFinal(steps: seq<Step>, rest: seq<Step>)
    requires IsRun(steps) && Enabled(Reached(steps), AdvanceHandle) && Reached(steps).handle == HandleDropping
    requires !Ended(Reached(steps).word) && Reached(steps).word.refs == 0
    requires var s := Next(Reached(steps), AdvanceHandle); Legal(s, rest) && AllHarmless(s, rest)
    ensures Next(Reached(steps), AdvanceHandle).procs == [Queued]
    ensures var s := After(Next(Reached(steps), AdvanceHandle), rest); EndsUnpolled(s) && s.word.closed
  {
    ReachedInv(steps);
    var s := Reached(steps);
    StepKeepsInv(s, AdvanceHandle);
    StepFlags(s, AdvanceHandle);
    assert s.procs == [] && HandleDropStep(s).procs == [Queued];
    assert Doomed(Next(s, AdvanceHandle));
    hide Inv, AdvanceHandleStep, EndsUnpolled, Legal, After, Doomed;
    ClosedFrom(Next(s, AdvanceHandle), rest);
  }

  /** The cancel through the handle, with the commented arms, of a proc that is not running. */
  lemma HandleCancelIsFinal(steps: seq<Step>, rest: seq<Step>)
    requires IsRun(steps) && Enabled(Reached(steps), HandleCancel(AsCommented))
    requires !Ended(Reached(steps).word) && !Reached(steps).word.running
    requires var s := Next(Reached(steps), HandleCancel(AsCommented)); Legal(s, rest) && AllHarmless(s, rest)
    ensures Next(Reached(steps), HandleCancel(AsCommented)).procs != []
    ensures var s := After(Next(Reached(steps), HandleCancel(AsCommented)), rest); EndsUnpolled(s) && s.word.closed
  {
    ReachedInv(steps);
    var s := Reached(steps);
    var t := HandleCancel(AsCommented);
    StepKeepsInv(s, t);
    StepFlags(s, t);
    assert s.procs == [] ==> HandleCancelStep(s, AsCommented).procs == [Queued];
    assert Doomed(Next(s, t));
    hide Inv, HandleCancelStep, EndsUnpolled, Legal, After, Doomed;
    ClosedFrom(Next(s, t), rest);
  }

  // ----- a cancel while the proc runs

  predicate OverAt(w: Word, p: Option<Phase>) { w.closed && p != Some(Polling) }

  /** Closed, and no poll is under way. */
  predicate Over(s: State) { OverAt(s.word, PhaseIn(s.procs)) }

  lemma OverTick(p: Phase, w: Word, step: Step, q: Option<Phase>, w': Word)
    requires step.Advance? && OverAt(w, Some(p))
    requires Follows(p, w.closed, step.result, q) && FlagChange(w, step, Some(p), None, w')
    ensures OverAt(w', q)
  {
    hide ScheduledAfter, Closes;
  }

  lemma OverStays(s: State, step: Step)
    requires Inv(s) && Enabled(s, step) && Harmless(s, step) && Over(s)
    ensures Over(Next(s, step))
  {
    StepFlags(s, step);
    assert |s.procs| <= 1;
    hide Inv, AdvanceStep, ScheduledAfter, FlagChange, Next, Enabled, Harmless, Follows, OverAt;
    if step.Advance? {
      TickNext(s, step);
      TickFollows(s, step.result);
      OverTick(s.procs[0], s.word, step, PhaseIn(AdvanceStep(s, 0, step.result).procs), AdvanceStep(s, 0, step.result).word);
    } else {
      CallsKeepPhase(s, step);
      DoomedCall(s.word, step, HandleOf(s, step), Next(s, step).word);
    }
  }

  /** A proc that is closed is not polled again once the poll under way, if any, has returned; and once
      no reference is left its future was dropped. */
  lemma {:induction false} ClosedIsNotPolledAgain(s: State, rest: seq<Step>)
    requires Inv(s) && Over(s) && Legal(s, rest) && AllHarmless(s, rest)
    ensures var s' := After(s, rest);
            s'.word.closed && !SomePolling(s'.procs) && (s'.procs == [] ==> s'.futureDrops == 1)
    decreases |rest|
  {
    if rest == [] {
      hide Awaited;
    } else {
      hide Inv, Next, Enabled, Harmless, Over, SomePolling;
      StepKeepsInv(s, rest[0]);
      OverStays(s, rest[0]);
      ClosedIsNotPolledAgain(Next(s, rest[0]), rest[1..]);
    }
  }

  // ----- a poll that returns

  predicate CompletesAt(w: Word, p: Option<Phase>) {
    w.completed || (p.Some? && (p.value.ReadyDrop? || p.value.ReadyWrite? || p.value.Completing?))
  }

  /** On its way to completion, or there. */
  predicate Completes(s: State) { CompletesAt(s.word, PhaseIn(s.procs)) }

  lemma CompletesTick(p: Phase, w: Word, step: Step, q: Option<Phase>, w': Word)
    requires step.Advance? && CompletesAt(w, Some(p))
    requires Follows(p, w.closed, step.result, q) && FlagChange(w, step, Some(p), None, w')
    ensures CompletesAt(w', q)
  {
    hide ScheduledAfter, Closes;
  }

  lemma CompletesStays(s: State, step: Step)
    requires Inv(s) && Enabled(s, step) && Harmless(s, step) && Completes(s)
    ensures Completes(Next(s, step))
  {
    StepFlags(s, step);
    assert |s.procs| <= 1;
    assert Ended(s.word) || |s.procs| == 1;
    hide Inv, AdvanceStep, ScheduledAfter, FlagChange, Next, Enabled, Harmless, Follows, CompletesAt;
    if step.Advance? {
      TickNext(s, step);
      TickFollows(s, step.result);
      CompletesTick(s.procs[0], s.word, step, PhaseIn(AdvanceStep(s, 0, step.result).procs), AdvanceStep(s, 0, step.result).word);
    } else {
      CallsKeepPhase(s, step);
      DoomedCall(s.word, step, HandleOf(s, step), Next(s, step).word);
    }
  }

  lemma {:induction false} CompletesForever(s: State, rest: seq<Step>)
    requires Inv(s) && Completes(s) && Legal(s, rest) && AllHarmless(s, rest)
    ensures Inv(After(s, rest)) && Completes(After(s, rest))
    decreases |rest|
  {
    hide Inv, Next, Enabled, Harmless, Completes;
    if rest != [] {
      StepKeepsInv(s, rest[0]);
      CompletesStays(s, rest[0]);
      CompletesForever(Next(s, rest[0]), rest[1..]);
    }
  }

  /** A poll that returns Ready completes the proc: in every continuation it is on its way there, by
      the tick that polled it, or has completed with its future dropped and its output written. */
  lemma ReadyCompletes(steps: seq<Step>, i: nat, rest: seq<Step>)
    requires IsRun(steps) && Enabled(Reached(steps), Advance(i, Ready)) && Reached(steps).procs[i] == Polling
    requires var s := Next(Reached(steps), Advance(i, Ready)); Legal(s, rest) && AllHarmless(s, rest)
    ensures var s := After(Next(Reached(steps), Advance(i, Ready)), rest);
            && !SomePolling(s.procs)
            && (s.procs == [] ==> s.word.completed)
            && (s.word.completed ==> s.futureDrops == 1 && s.outputWrites == 1)
  {
    ReachedInv(steps);
    var s := Reached(steps);
    var t := Advance(i, Ready);
    StepKeepsInv(s, t);
    Only(s.procs);
    assert Completes(PollStep(s, i, Ready));
    CompletesEnd(Next(s, t), rest);
  }

  lemma CompletesEnd(s: State, rest: seq<Step>)
    requires Inv(s) && Completes(s) && Legal(s, rest) && AllHarmless(s, rest)
    ensures var s' := After(s, rest);
            && !SomePolling(s'.procs)
            && (s'.procs == [] ==> s'.word.completed)
            && (s'.word.completed ==> s'.futureDrops == 1 && s'.outputWrites == 1)
  {
    CompletesForever(s, rest);
    CompletesMeans(After(s, rest));
  }

  lemma CompletesMeans(s: State)
    requires Inv(s) && Completes(s)
    ensures !SomePolling(s.procs) && (s.procs == [] ==> s.word.completed)
    ensures s.word.completed ==> s.futureDrops == 1 && s.outputWrites == 1
  {
    hide Awaited;
  }

  predicate NoOwnStep(rest: seq<Step>) { forall k :: 0 <= k < |rest| ==> !rest[k].Advance? }

  /** Until the owner of the reference acts, its phase stays what it is. */
  lemma {:induction false} PhaseWaits(s: State, p: Phase, rest: seq<Step>)
    requires Inv(s) && s.procs == [p] && p != Queued && Legal(s, rest) && AllHarmless(s, rest) && NoOwnStep(rest)
    ensures Inv(After(s, rest)) && After(s, rest).procs == [p]
    decreases |rest|
  {
    hide Inv, Next, Harmless;
    if rest != [] {
      assert !rest[0].Advance?;
      StepKeepsInv(s, rest[0]);
      OthersLeaveProcs(s, rest[0]);
      hide Enabled;
      PhaseWaits(Next(s, rest[0]), p, rest[1..]);
    }
  }

  /** Running a queued reference polls the future, unless the proc is closed by the time the tick enters;
      then the tick goes on to drop it. */
  lemma RunPolls(steps: seq<Step>, i: nat, rest: seq<Step>, result: PollResult)
    requires IsRun(steps) && Enabled(Reached(steps), Run(i))
    requires var s := Next(Reached(steps), Run(i));
             Legal(s, rest) && AllHarmless(s, rest) && NoOwnStep(rest) && !After(s, rest).aborted
    ensures var s := After(Next(Reached(steps), Run(i)), rest);
            && Enabled(s, Advance(0, result))
            && var s' := Next(s, Advance(0, result));
               if s.word.closed then |s'.procs| == 1 && (s'.procs[0] == DropFuture || s'.procs[0].EnterNotify?)
               else s'.procs == [Polling] && s'.word.running && !s'.word.scheduled
  {
    ReachedInv(steps);
    var s := Reached(steps);
    StepKeepsInv(s, Run(i));
    Only(s.procs);
    assert Next(s, Run(i)).procs == [Entering];
    PhaseWaits(Next(s, Run(i)), Entering, rest);
    EnteringEnds(After(Next(s, Run(i)), rest), result);
  }

  lemma EnteringEnds(s: State, result: PollResult)
    requires s.procs == [Entering] && !s.aborted
    ensures Enabled(s, Advance(0, result))
    ensures var s' := Next(s, Advance(0, result));
            if s.word.closed then |s'.procs| == 1 && (s'.procs[0] == DropFuture || s'.procs[0].EnterNotify?)
            else s'.procs == [Polling] && s'.word.running && !s'.word.scheduled
  {
    Only(s.procs);
    hide ParkStep, DropCancelStep, CompletedStep, PanicStep, NotifyStep;
  }

  /** A poll that returns Pending ends nothing: whatever others do before the tick's next step, that
      step stops the running; unless somebody closed the proc it keeps the future and does not close,
      and the reference is queued again exactly when a wake came since the tick's entry. On a closed
      proc the future is dropped next, and neither flag is left. */
  lemma PendingParks(steps: seq<Step>, i: nat, rest: seq<Step>, result: PollResult)
    requires IsRun(steps) && Enabled(Reached(steps), Advance(i, Pending)) && Reached(steps).procs[i] == Polling
    requires var s := Next(Reached(steps), Advance(i, Pending));
             Legal(s, rest) && AllHarmless(s, rest) && NoOwnStep(rest) && !After(s, rest).aborted
    ensures var s := After(Next(Reached(steps), Advance(i, Pending)), rest);
            && Enabled(s, Advance(0, result))
            && var s' := Next(s, Advance(0, result));
               && !s'.word.running && s'.slot == Future && s'.word.closed == s.word.closed
               && (!s.word.closed ==> s'.procs == if s.wakePending then [Queued] else [])
               && (s.word.closed ==> s'.procs == [DropFuture] && !s'.word.scheduled)
  {
    ReachedInv(steps);
    var s := Reached(steps);
    var t := Advance(i, Pending);
    StepKeepsInv(s, t);
    Only(s.procs);
    assert PollStep(s, i, Pending).procs == [Parking];
    PhaseWaits(Next(s, t), Parking, rest);
    ParkingEnds(After(Next(s, t), rest), result);
  }

  lemma ParkingEnds(s: State, result: PollResult)
    requires Inv(s) && s.procs == [Parking] && !s.aborted
    ensures Enabled(s, Advance(0, result))
    ensures var s' := Next(s, Advance(0, result));
            && !s'.word.running && s'.slot == Future && s'.word.closed == s.word.closed
            && (!s.word.closed ==> s'.procs == if s.wakePending then [Queued] else [])
            && (s.word.closed ==> s'.procs == [DropFuture] && !s'.word.scheduled)
  {
    Only(s.procs);
    hide Awaited, SlotForward, OneReader, EnterStep, DropCancelStep, CompletedStep, PanicStep, NotifyStep;
  }

  // ----- a handle poll on a completed proc

  lemma {:induction false} TakenReads(s: State) returns (own: seq<Step>)
    requires !s.aborted && (s.handle.TakenNotify? || s.handle.TakenRead?)
    ensures |own| == if s.handle.TakenRead? then 1 else Remaining(s.handle.at, s.word.locked) + 1
    ensures Legal(s, own) && (forall k :: 0 <= k < |own| ==> own[k] == AdvanceHandle)
    ensures After(s, own).handle == Present && After(s, own).outputReads == s.outputReads + 1
    decreases if s.handle.TakenRead? then 0 else Remaining(s.handle.at, s.word.locked)
  {
    TakenMoves(s);
    var s' := AdvanceHandleStep(s);
    hide AdvanceHandleStep;
    assert Enabled(s, AdvanceHandle) && Next(s, AdvanceHandle) == s';
    if s.handle.TakenRead? {
      own := Prepend(s, AdvanceHandle, s', []);
    } else {
      var rest := TakenReads(s');
      own := Prepend(s, AdvanceHandle, s', rest);
    }
  }

  lemma TakenMoves(s: State)
    requires !s.aborted && (s.handle.TakenNotify? || s.handle.TakenRead?)
    ensures var s' := AdvanceHandleStep(s);
            && !s'.aborted
            && (s.handle.TakenRead? ==> s'.handle == Present && s'.outputReads == s.outputReads + 1)
            && (s.handle.TakenNotify? ==>
                && s'.outputReads == s.outputReads
                && if s.handle.at.Swapped? then s'.handle == TakenRead
                   else s'.handle.TakenNotify?
                        && Remaining(s'.handle.at, s'.word.locked) == Remaining(s.handle.at, s.word.locked) - 1)
  {
    hide HandleDropStep, TakeStep, ReloadStep, RegisterStep;
  }

  /** A handle poll of a completed proc whose output is still there takes it, within seven steps of its own. */
  lemma PollTakesOutput(steps: seq<Step>, x: Waker) returns (own: seq<Step>)
    requires IsRun(steps)
    requires var s := Reached(steps);
             !s.aborted && s.handle == Present && s.cancels == [] && s.word.completed && !s.word.closed
    ensures 0 < |own| <= 7 && own[0] == PollHandle(x) && forall k :: 0 < k < |own| ==> own[k] == AdvanceHandle
    ensures Legal(Reached(steps), own)
    ensures var s := After(Reached(steps), own); s.handle == Present && s.outputReads == 1 && s.slot == Empty
  {
    ReachedInv(steps);
    var s := Reached(steps);
    own := PollReads(s, x);
    AtMostOnce(s, own);
  }

  lemma PollReads(s: State, x: Waker) returns (own: seq<Step>)
    requires !s.aborted && s.handle == Present && s.cancels == [] && s.word.completed && !s.word.closed
    ensures 0 < |own| <= 7 && own[0] == PollHandle(x) && forall k :: 0 < k < |own| ==> own[k] == AdvanceHandle
    ensures Legal(s, own) && After(s, own).handle == Present && After(s, own).outputReads == s.outputReads + 1
  {
    var s1 := s.(waiting := None, handle := PollTake(x));
    var s2 := s1.(word := Closed(s.word), handle := if s.word.awaiter then TakenNotify(x, Trying) else TakenRead);
    assert Enabled(s, PollHandle(x)) && Next(s, PollHandle(x)) == s1;
    assert Enabled(s1, AdvanceHandle) && Next(s1, AdvanceHandle) == s2;
    hide Enabled, Next;
    own := TakenReads(s2);
    own := Prepend(s1, AdvanceHandle, s2, own);
    own := Prepend(s, PollHandle(x), s1, own);
  }

  lemma AtMostOnce(s: State, own: seq<Step>)
    requires Inv(s) && s.word.completed && !s.word.closed && Legal(s, own)
    requires forall k :: 0 <= k < |own| ==> !own[k].HandleCancel?
    requires After(s, own).outputReads == s.outputReads + 1
    ensures After(s, own).outputReads == 1 && After(s, own).slot == Empty
  {
    hide Awaited;
    assert s.outputReads == 0;
    NoCancelIsHarmless(s, own);
    RunKeepsInv(s, own);
  }

  lemma {:induction false} NoCancelIsHarmless(s: State, own: seq<Step>)
    requires Legal(s, own) && forall k :: 0 <= k < |own| ==> !own[k].HandleCancel?
    ensures AllHarmless(s, own)
    decreases |own|
  {
    hide Next, Enabled;
    if own != [] {
      NoCancelIsHarmless(Next(s, own[0]), own[1..]);
    }
  }

  // ----- a handle poll on a proc that has not ended

  lemma {:induction false} Registers(s: State, x: Waker) returns (own: seq<Step>)
    requires !s.aborted && !Ended(s.word) && s.handle.PollRegister? && s.handle.x == x
    requires s.handle.at.Swapped? ==> s.awaiter == Some(x)
    ensures |own| == Remaining(s.handle.at, s.word.locked) + 1 && Legal(s, own)
    ensures forall k :: 0 <= k < |own| ==> own[k] == AdvanceHandle
    ensures var s' := After(s, own); s'.handle == Present && s'.waiting == Some(x) && s'.awaiter == Some(x) && !s'.woken
    decreases Remaining(s.handle.at, s.word.locked)
  {
    RegisterMoves(s, x);
    var s' := AdvanceHandleStep(s);
    assert Enabled(s, AdvanceHandle) && Next(s, AdvanceHandle) == s';
    if s.handle.at.Swapped? {
      var s2 := AdvanceHandleStep(s');
      assert s2 == s'.(handle := Present, waiting := Some(x), woken := false);
      assert Enabled(s', AdvanceHandle) && Next(s', AdvanceHandle) == s2;
      hide AdvanceHandleStep, Next, Enabled;
      var rest := Prepend(s', AdvanceHandle, s2, []);
      own := Prepend(s, AdvanceHandle, s', rest);
    } else {
      hide AdvanceHandleStep, Next, Enabled;
      var rest := Registers(s', x);
      own := Prepend(s, AdvanceHandle, s', rest);
    }
  }

  lemma RegisterMoves(s: State, x: Waker)
    requires !s.aborted && !Ended(s.word) && s.handle.PollRegister? && s.handle.x == x
    requires s.handle.at.Swapped? ==> s.awaiter == Some(x)
    ensures var s' := AdvanceHandleStep(s);
            && !s'.aborted && !Ended(s'.word)
            && if s.handle.at.Swapped? then s'.handle == PollReload(x) && s'.awaiter == Some(x)
               else
                 && s'.handle.PollRegister? && s'.handle.x == x && (s'.handle.at.Swapped? ==> s'.awaiter == Some(x))
                 && Remaining(s'.handle.at, s'.word.locked) == Remaining(s.handle.at, s.word.locked) - 1
  {
    hide HandleDropStep, TakeStep, ReloadStep, NotifyUnlessStep;
  }

  /** A handle poll of a proc that has not ended, if nobody disturbs it, returns Pending within six steps
      of its own, with its waker registered. */
  lemma PollPends(steps: seq<Step>, x: Waker) returns (own: seq<Step>)
    requires IsRun(steps)
    requires var s := Reached(steps); !s.aborted && s.handle == Present && s.cancels == [] && !Ended(s.word)
    ensures 0 < |own| <= 6 && own[0] == PollHandle(x) && forall k :: 0 < k < |own| ==> own[k] == AdvanceHandle
    ensures Legal(Reached(steps), own)
    ensures var s := After(Reached(steps), own);
            s.handle == Present && s.waiting == Some(x) && s.awaiter == Some(x) && !s.woken
  {
    var s := Reached(steps);
    var s1 := s.(waiting := None, handle := PollRegister(x, Trying));
    assert Enabled(s, PollHandle(x)) && Next(s, PollHandle(x)) == s1;
    hide Enabled, Next, Reached, IsRun;
    own := Registers(s1, x);
    own := Prepend(s, PollHandle(x), s1, own);
  }

  // ----- who is woken

  /** The waker that a step wakes: what a `notify` has in hand when it ends, and what a `notify_unless`
      has, unless it is the polling one itself. */
  function Wakes(s: State, step: Step): seq<Waker> {
    var p, h := PhaseOf(s, step), HandleOf(s, step);
    if step.AdvanceCancel? && step.k < |s.cancels| then InHandOf(s.cancels[step.k], None)
    else if p.Some? && (Notifies(p.value) || (p.value.Completed? && !p.value.read && p.value.notify)) then
      InHandOf(SwapOf(p.value), None)
    else if h.Some? && (h.value.PollClosed? || h.value.TakenNotify?) then InHandOf(h.value.at, Some(h.value.x))
    else []
  }

  function InHandOf(at: Swap, except: Option<Waker>): seq<Waker> {
    match at
    case Swapped(Some(y)) => if except == Some(y) then [] else [y]
    case _ => []
  }

  lemma NotifyWoke(s: State, at: Swap)
    ensures NotifyAt(s, at).woke == s.woke + InHandOf(at, None)
  {
    hide SwapWord;
  }

  lemma UnlessWoke(s: State, x: Waker, at: Swap, again: HandlePhase, after: HandlePhase)
    ensures NotifyUnlessStep(s, x, at, again, after).woke == s.woke + InHandOf(at, Some(x))
  {
    hide SwapWord;
  }

  lemma NotifyTickWoke(s: State, i: nat, result: PollResult)
    requires i < |s.procs| && Notifies(s.procs[i])
    ensures AdvanceStep(s, i, result).woke == s.woke + InHandOf(SwapOf(s.procs[i]), None)
  {
    NotifyWoke(s, SwapOf(s.procs[i]));
    hide NotifyAt, SwapNext, InHandOf, EnterStep, ParkStep, PollStep, PanicStep, DropCancelStep, PanicDropStep,
      CompletedStep, CompleteStep, UnscheduleStep, DropFutureOf, WriteOutput;
  }

  lemma CompletedWoke(s: State, i: nat)
    requires i < |s.procs| && s.procs[i].Completed?
    ensures CompletedStep(s, i).woke
         == s.woke + (if !s.procs[i].read && s.procs[i].notify then InHandOf(s.procs[i].at, None) else [])
  {
    NotifyWoke(s, s.procs[i].at);
    hide NotifyAt, SwapNext, InHandOf;
  }

  lemma MoveWoke(s: State, i: nat, result: PollResult)
    requires i < |s.procs|
    ensures DropCancelStep(s, i).woke == s.woke && EnterStep(s, i).woke == s.woke && ParkStep(s, i).woke == s.woke
    ensures PanicStep(s, i).woke == s.woke && PollStep(s, i, result).woke == s.woke && CompleteStep(s, i).woke == s.woke
    ensures UnscheduleStep(s, i).woke == s.woke
  {
    hide Entered, Parked, CompletedWord, Closed;
  }

  lemma SlotWoke(s: State, i: nat, notify: bool)
    requires i < |s.procs|
    ensures Goto(DropFutureOf(s), i, ReadyWrite).woke == s.woke && Goto(WriteOutput(s), i, Completing).woke == s.woke
    ensures Finish(DropFutureOf(s), i).woke == s.woke && PanicDropStep(s, i, notify).woke == s.woke
  {
  }

  lemma QuietTickWoke(s: State, i: nat, result: PollResult)
    requires i < |s.procs| && !Notifies(s.procs[i]) && !s.procs[i].Completed?
    ensures AdvanceStep(s, i, result).woke == s.woke
  {
    MoveWoke(s, i, result);
    SlotWoke(s, i, s.procs[i].PanicDrop? && s.procs[i].notify);
    hide EnterStep, ParkStep, CompletedStep, PollStep, PanicStep, DropCancelStep, NotifyStep, UnscheduleStep,
      PanicDropStep, PanicNotifyStep, CompleteStep, SwapNext, DropFutureOf, WriteOutput, Goto, Finish;
  }

  lemma TickWoke(s: State, i: nat, result: PollResult)
    requires i < |s.procs|
    ensures AdvanceStep(s, i, result).woke == s.woke + Wakes(s, Advance(i, result))
  {
    hide InHandOf;
    if s.procs[i].Completed? {
      CompletedWoke(s, i);
      hide CompletedStep;
    } else {
      hide AdvanceStep;
      if Notifies(s.procs[i]) {
        NotifyTickWoke(s, i, result);
      } else {
        QuietTickWoke(s, i, result);
      }
    }
  }

  lemma HandleWoke(s: State)
    ensures AdvanceHandleStep(s).woke == s.woke + Wakes(s, AdvanceHandle)
  {
    hide SwapNext, SwapWord, InHandOf;
    match s.handle
    case PollClosed(x, at) =>
      UnlessWoke(s, x, at, PollClosed(x, SwapNext(s.word, s.awaiter, at)), Present);
      hide NotifyUnlessStep, RegisterStep, HandleDropStep, TakeStep, ReloadStep;
    case TakenNotify(x, at) =>
      UnlessWoke(s, x, at, TakenNotify(x, SwapNext(s.word, s.awaiter, at)), TakenRead);
      hide NotifyUnlessStep, RegisterStep, HandleDropStep, TakeStep, ReloadStep;
    case _ => hide NotifyUnlessStep;
  }

  /** Over every run, each step wakes exactly whom it is due to wake. */
  lemma WakesExactly(steps: seq<Step>, step: Step)
    requires IsRun(steps) && Enabled(Reached(steps), step)
    ensures Next(Reached(steps), step).woke == Reached(steps).woke + Wakes(Reached(steps), step)
  {
    StepWoke(Reached(steps), step);
  }

  lemma StepWoke(s: State, step: Step)
    requires Enabled(s, step)
    ensures Next(s, step).woke == s.woke + Wakes(s, step)
  {
    match step
    case Advance(i, result) => TickWoke(s, i, result); hide AdvanceStep, Wakes;
    case AdvanceHandle => HandleWoke(s); hide AdvanceHandleStep, Wakes;
    case AdvanceCancel(k) => NotifyWoke(s, s.cancels[k]); hide NotifyAt;
    case _ => hide AdvanceStep, AdvanceHandleStep, NotifyAt;
  }
}
