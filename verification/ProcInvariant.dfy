/** The inductive invariant of the proc protocol and its preservation by every step. */
module ProcInvariant {
  import opened StateWord
  import opened Transitions
  import opened ProcProtocol
  import opened Wrappers

  // ----- parts of the invariant, each over just the fields it is about

  /** The stored count is the number of references. */
  predicate Counted(s: State) {
    s.word.refs == |s.procs| + s.wakers + s.releasing
  }

  /** The proc is being destroyed, or is freed, exactly when nothing refers to it. */
  predicate DestroyedOnce(destroying: nat, frees: nat, refs: nat, handle: HandlePhase) {
    && destroying + frees <= 1
    && (destroying + frees == 1 <==> refs == 0 && handle.Gone?)
  }

  /** A tick that is past its entry step and has not yet left the running state. */
  predicate PastEntry(p: Phase) {
    p.Polling? || p.ReadyDrop? || p.ReadyWrite? || p.Completing? || p.Parking? || p.Panicking?
  }

  /** A reference that no tick has entered with and no drop has cancelled. */
  predicate Waiting(p: Phase) { p.Queued? || p.Entering? || p.Dropping? }

  /** A reference whose owner will call `notify`. */
  predicate WillNotify(p: Phase) {
    match p
    case CancelNotify(_) => true
    case DropNotify(_) => true
    case EnterNotify(_) => true
    case PanicNotify(_) => true
    case PanicDrop(notify) => notify
    case Completed(_, notify, _) => notify
    case _ => false
  }

  /** Where that `notify` is in its swap. */
  function SwapOf(p: Phase): Swap {
    match p
    case CancelNotify(at) => at
    case DropNotify(at) => at
    case EnterNotify(at) => at
    case PanicNotify(at) => at
    case Completed(_, _, at) => at
    case _ => Trying
  }

  /** A poll that panicked: its proc is closed, its future about to be dropped or just dropped. */
  predicate Unwound(p: Phase) { p.PanicDrop? || p.PanicNotify? }

  /** What the slot holds while a reference is in phase `p`. */
  predicate SlotFits(slot: Slot, p: Phase) {
    match p
    case ReadyWrite => slot == Empty
    case PanicNotify(_) => slot == Empty
    case Completing => slot == Output
    case Completed(read, _, at) => slot != Future && (read ==> slot == Output && at.Trying?)
    case _ => slot == Future
  }

  /** What the flags are while a reference is in phase `p`. */
  predicate FlagsFit(scheduled: bool, running: bool, completed: bool, closed: bool, p: Phase) {
    if Waiting(p) then !completed && (!closed ==> scheduled && !running)
    else if PastEntry(p) then running && !completed
    else if p.Completed? then completed && (p.read ==> closed)
    else closed && !completed
  }

  /** At most one `LightProc`; while the proc is not ended it exists exactly when the proc is
      scheduled or running, and a wake since the last tick entry shows in the word. */
  predicate Scheduled(scheduled: bool, running: bool, completed: bool, closed: bool,
                      slot: Slot, procs: seq<Phase>, wakePending: bool)
  {
    && |procs| <= 1
    && (|procs| == 1 ==> FlagsFit(scheduled, running, completed, closed, procs[0]) && SlotFits(slot, procs[0]))
    && (!completed && !closed ==> (|procs| == 1 <==> scheduled || running))
    && (!completed && !closed && wakePending ==> scheduled)
  }

  /** From its entry into the tick up to its end, and in a completed proc, SCHEDULED stands for a wake
      since that entry; the masks that should clear it and RUNNING clear nothing. */
  predicate WakeShows(scheduled: bool, running: bool, completed: bool, procs: seq<Phase>, wakePending: bool) {
    && (completed || (|procs| == 1 && (PastEntry(procs[0]) || Unwound(procs[0]))) ==> (scheduled <==> wakePending))
    && (completed || (|procs| == 1 && Unwound(procs[0])) ==> running)
  }

  predicate HandleReads(h: HandlePhase) { h.TakenNotify? || h.TakenRead? || h.DropRead? }

  predicate TickReads(procs: seq<Phase>) { |procs| == 1 && procs[0].Completed? && procs[0].read }

  predicate TickCompletes(procs: seq<Phase>) { |procs| == 1 && procs[0].Completing? }

  predicate TickNotifies(procs: seq<Phase>) { |procs| == 1 && WillNotify(procs[0]) }

  /** The slot and its history: one drop ends the future, one write starts the output, one
      read ends it; an idle proc still has its future unless it was closed. */
  predicate SlotForward(slot: Slot, drops: nat, written: nat, taken: nat,
                        completed: bool, closed: bool, unreferenced: bool, completing: bool)
  {
    && drops == (if slot == Future then 0 else 1)
    && taken <= written <= 1
    && (slot == Output <==> written == 1 && taken == 0)
    && (slot == Future ==> written == 0)
    && (written == 1 <==> completed || completing)
    && (unreferenced && !completed ==> (slot == Future <==> !closed))
  }

  /** A completed proc holds its output until its one reader took it. */
  predicate OneReader(slot: Slot, completed: bool, closed: bool, handle: HandlePhase, tickReads: bool) {
    && !(HandleReads(handle) && tickReads)
    && (HandleReads(handle) ==> completed && closed)
    && (completed ==> (slot == Output <==> !closed || HandleReads(handle) || tickReads))
    && (handle.PollTake? ==> completed)
    && (completed && !closed ==> !handle.Gone?)
  }

  /** Until the proc ends, a registration puts first the flag and then the cell in place, and nobody
      takes them away. */
  predicate Registered(flag: bool, cell: Option<Waker>, handle: HandlePhase, ended: bool) {
    !ended ==>
      && (handle.PollReload? ==> flag && cell == Some(handle.x))
      && (handle.PollRegister? && handle.at.Inside? ==> flag)
      && (handle.PollRegister? && handle.at.Swapped? ==> flag && cell == Some(handle.x))
  }

  /** One handle cancel at most is left to notify, of a proc it closed. */
  predicate OneCancel(cancels: seq<Swap>, handle: HandlePhase, closed: bool) {
    |cancels| <= 1 && (cancels != [] ==> handle.Present? && closed)
  }

  /** Some `notify` has not yet emptied the cell. */
  predicate BeforeSwap(cancels: seq<Swap>, procs: seq<Phase>) {
    || (|cancels| == 1 && !cancels[0].Swapped?)
    || (|procs| == 1 && WillNotify(procs[0]) && !SwapOf(procs[0]).Swapped?)
  }

  /** Some `notify` has taken `x` out of the cell and has yet to wake it. */
  predicate InHand(cancels: seq<Swap>, procs: seq<Phase>, x: Option<Waker>) {
    || (|cancels| == 1 && cancels[0] == Swapped(x))
    || (|procs| == 1 && WillNotify(procs[0]) && SwapOf(procs[0]) == Swapped(x))
  }

  /** A waker whose poll returned Pending stays registered until the proc ends; then somebody is
      committed to take it, or has taken it, and to wake it. */
  predicate AwaiterKept(flag: bool, cell: Option<Waker>, waiting: Option<Waker>, woken: bool,
                        handle: HandlePhase, ended: bool, before: bool, inHand: bool)
  {
    && (waiting.Some? ==> handle.Present?)
    && (waiting.Some? && !woken ==> if ended then (cell == waiting && before) || inHand else cell == waiting && flag)
  }

  /** Count, destruction, scheduling, slot and reader. */
  predicate Shape(s: State) {
    var w := s.word;
    && Counted(s)
    && (w.handle <==> !s.handle.Gone?)
    && s.wakers <= I32_MAX + 1
    && OneCancel(s.cancels, s.handle, w.closed)
    && DestroyedOnce(s.destroying, s.frees, w.refs, s.handle)
    && Scheduled(w.scheduled, w.running, w.completed, w.closed, s.slot, s.procs, s.wakePending)
    && WakeShows(w.scheduled, w.running, w.completed, s.procs, s.wakePending)
    && SlotForward(s.slot, s.futureDrops, s.outputWrites, s.outputReads,
                   w.completed, w.closed, s.procs == [], TickCompletes(s.procs))
    && OneReader(s.slot, w.completed, w.closed, s.handle, TickReads(s.procs))
  }

  /** The awaiter. */
  predicate Awaited(s: State) {
    && Registered(s.word.awaiter, s.awaiter, s.handle, Ended(s.word))
    && AwaiterKept(s.word.awaiter, s.awaiter, s.waiting, s.woken, s.handle, Ended(s.word),
                   BeforeSwap(s.cancels, s.procs), InHand(s.cancels, s.procs, s.waiting))
  }

  predicate Inv(s: State) { Shape(s) && Awaited(s) }

  lemma InitShape()
    ensures Shape(Init())
  {
  }

  lemma InitInv()
    ensures Inv(Init())
  {
    InitShape();
    hide Shape;
  }

  // ----- preservation

  lemma Only(q: seq<Phase>)
    requires |q| == 1
    ensures forall p :: q[0 := p] == [p]
    ensures Without(q, 0) == []
  {
  }

  lemma WakeKeeps(s: State)
    requires Inv(s) && s.wakers > 0
    ensures Inv(WakeStep(s))
  {
    if !Ended(s.word) && Idle(s.word) {
      assert WakeStep(s).procs == [Queued];
    }
  }

  lemma WakeByRefKeeps(s: State)
    requires Inv(s) && s.word.refs > 0
    ensures Inv(WakeByRefStep(s))
  {
    if !Ended(s.word) && Idle(s.word) {
      assert WakeByRefStep(s).procs == [Queued];
    }
  }

  lemma CloneKeeps(s: State)
    requires Inv(s) && s.word.refs > 0
    ensures Inv(CloneStep(s))
  {
    if s.word.refs <= I32_MAX {
      assert CloneStep(s) == s.(word := s.word.(refs := s.word.refs + 1), wakers := s.wakers + 1);
    }
  }

  lemma DropWakerKeeps(s: State)
    requires Inv(s) && s.wakers > 0
    ensures Inv(Decrement(s.(wakers := s.wakers - 1)))
  {
  }

  lemma ReleaseKeeps(s: State)
    requires Inv(s) && s.releasing > 0
    ensures Inv(Decrement(s.(releasing := s.releasing - 1)))
  {
  }

  lemma RunKeeps(s: State, i: nat, p: Phase)
    requires Inv(s) && i < |s.procs| && s.procs[i] == Queued && (p == Entering || p == Dropping)
    ensures Inv(Goto(s, i, p))
  {
    Only(s.procs);
  }

  lemma CancelProcKeeps(s: State, i: nat)
    requires Inv(s) && i < |s.procs| && s.procs[i] == Queued
    ensures Inv(CancelProcStep(s, i))
  {
    Only(s.procs);
  }

  /** What one action of the `notify` of reference 0 does to the awaiter. */
  /** One action of the `notify` of reference 0, which goes from phase `p` to `q`. */
  lemma NotifyAwaiter(s: State, p: Phase, q: Phase)
    requires Inv(s) && s.procs == [p] && WillNotify(p) && Ended(s.word)
    requires SwapOf(p).Swapped? || (WillNotify(q) && SwapOf(q) == SwapNext(s.word, s.awaiter, SwapOf(p)))
    ensures Awaited(NotifyAt(s, SwapOf(p)).(procs := [q]))
  {
    hide Shape;
  }

  /** Phases that ask the same of flags and slot. */
  predicate SameFit(p: Phase, q: Phase) {
    || ((p.CancelNotify? || p.DropNotify? || p.EnterNotify?) && q.DropFuture?)
    || (p.CancelNotify? && (q.CancelNotify? || q.Queued?))
    || (p.DropNotify? && q.DropNotify?)
    || (p.EnterNotify? && q.EnterNotify?)
    || (p.PanicNotify? && q.PanicNotify?)
    || (p.Completed? && q.Completed? && !p.read && !q.read)
  }

  lemma SameFits(w: Word, slot: Slot, p: Phase, q: Phase, wakePending: bool)
    requires SameFit(p, q)
    requires Scheduled(w.scheduled, w.running, w.completed, w.closed, slot, [p], wakePending)
    requires WakeShows(w.scheduled, w.running, w.completed, [p], wakePending)
    ensures Scheduled(w.scheduled, w.running, w.completed, w.closed, slot, [q], wakePending)
    ensures WakeShows(w.scheduled, w.running, w.completed, [q], wakePending)
    ensures TickReads([q]) == TickReads([p]) && TickCompletes([q]) == TickCompletes([p])
  {
  }

  lemma NotifyFrame(s: State, at: Swap)
    ensures var s' := NotifyAt(s, at);
            s' == s.(word := s'.word, awaiter := s'.awaiter, woken := s'.woken, woke := s'.woke)
            && s'.word == s.word.(locked := s'.word.locked, awaiter := s'.word.awaiter)
  {
    SwapFrame(s.word, at, false);
    hide SwapWord;
  }

  lemma SwapFrame(w: Word, at: Swap, stores: bool)
    ensures SwapWord(w, at, stores)
         == w.(locked := SwapWord(w, at, stores).locked, awaiter := SwapWord(w, at, stores).awaiter)
  {
  }

  lemma NotifyShape(s: State, p: Phase, q: Phase)
    requires Shape(s) && s.procs == [p] && SameFit(p, q)
    ensures Shape(NotifyAt(s, SwapOf(p)).(procs := [q]))
  {
    SameFits(s.word, s.slot, p, q, s.wakePending);
    NotifyFrame(s, SwapOf(p));
    hide NotifyAt, Scheduled, WakeShows, SameFit, SwapOf, TickReads, TickCompletes, SlotForward, OneReader, DestroyedOnce,
      OneCancel;
  }

  lemma NotifyKeeps(s: State, i: nat, at: Swap, again: Phase, after: Phase)
    requires Inv(s) && i < |s.procs| && WillNotify(s.procs[i]) && at == SwapOf(s.procs[i]) && Ended(s.word)
    requires SameFit(s.procs[i], again) && SameFit(s.procs[i], after)
    requires WillNotify(again) && SwapOf(again) == SwapNext(s.word, s.awaiter, at)
    ensures Inv(NotifyStep(s, i, at, again, after))
  {
    assert |s.procs| == 1 && s.procs == [s.procs[0]];
    Only(s.procs);
    var q := if at.Swapped? then after else again;
    NotifyAwaiter(s, s.procs[0], q);
    NotifyShape(s, s.procs[0], q);
    hide Shape, Awaited, WillNotify, SwapOf, SameFit;
    assert NotifyStep(s, i, at, again, after) == NotifyAt(s, at).(procs := [q]);
  }

  lemma NotifyingHasEnded(s: State, i: nat)
    requires Inv(s) && i < |s.procs|
    ensures WillNotify(s.procs[i]) ==> Ended(s.word)
  {
  }

  lemma DropCancelAwaited(s: State, i: nat)
    requires Inv(s) && i < |s.procs| && s.procs[i] == Dropping
    ensures Awaited(DropCancelStep(s, i))
  {
    Only(s.procs);
  }

  lemma DropCancelKeeps(s: State, i: nat)
    requires Inv(s) && i < |s.procs| && s.procs[i] == Dropping
    ensures Inv(DropCancelStep(s, i))
  {
    DropCancelAwaited(s, i);
    hide Awaited;
    Only(s.procs);
  }

  lemma EnterAwaited(s: State, i: nat)
    requires Inv(s) && i < |s.procs| && s.procs[i] == Entering
    ensures Awaited(EnterStep(s, i))
  {
    Only(s.procs);
  }

  /** What a step that moves only flags and phase of a tick has to keep. */
  predicate TickFits(s: State) {
    && |s.procs| == 1 && !TickReads(s.procs) && !TickCompletes(s.procs)
    && Scheduled(s.word.scheduled, s.word.running, s.word.completed, s.word.closed, s.slot, s.procs, s.wakePending)
    && WakeShows(s.word.scheduled, s.word.running, s.word.completed, s.procs, s.wakePending)
  }

  lemma TickShape(s: State, s': State)
    requires Shape(s) && TickFits(s) && TickFits(s')
    requires s' == s.(word := s'.word, procs := s'.procs, wakePending := s'.wakePending)
    requires s'.word == s.word.(scheduled := s'.word.scheduled, running := s'.word.running)
    ensures Shape(s')
  {
    hide Scheduled, WakeShows, TickReads, TickCompletes, SlotForward, OneReader, DestroyedOnce, OneCancel;
  }

  lemma EnterKeeps(s: State, i: nat)
    requires Inv(s) && i < |s.procs| && s.procs[i] == Entering
    ensures Inv(EnterStep(s, i))
  {
    EnterAwaited(s, i);
    EnterFits(s, i);
    hide Awaited, Shape, TickFits;
    TickShape(s, EnterStep(s, i));
  }

  lemma EnterFits(s: State, i: nat)
    requires Shape(s) && i < |s.procs| && s.procs[i] == Entering
    ensures TickFits(s) && TickFits(EnterStep(s, i))
  {
    Only(s.procs);
    hide SlotForward, OneReader, DestroyedOnce, OneCancel;
  }

  lemma PollKeeps(s: State, i: nat, result: PollResult)
    requires Inv(s) && i < |s.procs| && s.procs[i] == Polling
    ensures Inv(PollStep(s, i, result))
  {
    PollAwaited(s, i, result);
    PollFits(s, i, result);
    hide Awaited, Shape, TickFits;
    TickShape(s, PollStep(s, i, result));
  }

  lemma PollFits(s: State, i: nat, result: PollResult)
    requires Shape(s) && i < |s.procs| && s.procs[i] == Polling
    ensures TickFits(s) && TickFits(PollStep(s, i, result))
  {
    Only(s.procs);
    hide SlotForward, OneReader, DestroyedOnce, OneCancel;
  }

  lemma PollAwaited(s: State, i: nat, result: PollResult)
    requires Inv(s) && i < |s.procs| && s.procs[i] == Polling
    ensures Awaited(PollStep(s, i, result))
  {
    Only(s.procs);
    hide SlotForward, OneReader, DestroyedOnce, WakeShows;
  }

  lemma ReadyDropKeeps(s: State, i: nat)
    requires Inv(s) && i < |s.procs| && s.procs[i] == ReadyDrop
    ensures Inv(Goto(DropFutureOf(s), i, ReadyWrite))
  {
    Only(s.procs);
  }

  lemma ReadyWriteKeeps(s: State, i: nat)
    requires Inv(s) && i < |s.procs| && s.procs[i] == ReadyWrite
    ensures Inv(Goto(WriteOutput(s), i, Completing))
  {
    Only(s.procs);
  }

  lemma CompleteAwaited(s: State, i: nat)
    requires Inv(s) && i < |s.procs| && s.procs[i] == Completing
    ensures Awaited(CompleteStep(s, i))
  {
    Only(s.procs);
  }

  lemma CompleteKeeps(s: State, i: nat)
    requires Inv(s) && i < |s.procs| && s.procs[i] == Completing
    ensures Inv(CompleteStep(s, i))
  {
    CompleteAwaited(s, i);
    hide Awaited;
    Only(s.procs);
  }

  lemma CompletedReadKeeps(s: State, i: nat, notify: bool, at: Swap)
    requires Inv(s) && i < |s.procs| && s.procs[i] == Completed(true, notify, at)
    ensures Inv(Goto(ReadOutput(s), i, Completed(false, notify, at)))
  {
    Only(s.procs);
  }

  lemma CompletedFinishKeeps(s: State, i: nat)
    requires Inv(s) && i < |s.procs| && s.procs[i].Completed? && !s.procs[i].read && !s.procs[i].notify
    ensures Inv(Finish(s, i))
  {
    Only(s.procs);
  }

  lemma CompletedKeeps(s: State, i: nat)
    requires Inv(s) && i < |s.procs| && s.procs[i].Completed?
    ensures Inv(CompletedStep(s, i))
  {
    hide Inv, Goto, ReadOutput, NotifyStep, Finish;
    var p := s.procs[i];
    if p.read {
      CompletedReadKeeps(s, i, p.notify, p.at);
    } else if p.notify {
      NotifyingHasEnded(s, i);
      NotifyKeeps(s, i, p.at, Completed(false, true, SwapNext(s.word, s.awaiter, p.at)), Completed(false, false, Trying));
    } else {
      CompletedFinishKeeps(s, i);
    }
  }

  lemma ParkAwaited(s: State, i: nat)
    requires Inv(s) && i < |s.procs| && s.procs[i] == Parking
    ensures Awaited(ParkStep(s, i))
  {
    Only(s.procs);
  }

  lemma ParkKeeps(s: State, i: nat)
    requires Inv(s) && i < |s.procs| && s.procs[i] == Parking
    ensures Inv(ParkStep(s, i))
  {
    ParkAwaited(s, i);
    hide Awaited;
    Only(s.procs);
  }

  lemma PanicAwaited(s: State, i: nat)
    requires Inv(s) && i < |s.procs| && s.procs[i] == Panicking
    ensures Awaited(PanicStep(s, i))
  {
    Only(s.procs);
  }

  lemma PanicKeeps(s: State, i: nat)
    requires Inv(s) && i < |s.procs| && s.procs[i] == Panicking
    ensures Inv(PanicStep(s, i))
  {
    PanicAwaited(s, i);
    hide Awaited;
    Only(s.procs);
  }

  lemma UnscheduleKeeps(s: State, i: nat)
    requires Inv(s) && i < |s.procs| && s.procs[i] == PanicUnschedule
    ensures Inv(UnscheduleStep(s, i))
  {
    Only(s.procs);
  }

  lemma PanicDropThenNotifyKeeps(s: State, i: nat)
    requires Inv(s) && i < |s.procs| && s.procs[i] == PanicDrop(true)
    ensures Inv(Goto(DropFutureOf(s), i, PanicNotify(Trying)))
  {
    Only(s.procs);
  }

  lemma PanicNotifyAwaited(s: State, i: nat, at: Swap)
    requires Inv(s) && i < |s.procs| && s.procs[i] == PanicNotify(at) && at.Swapped?
    ensures Awaited(Finish(NotifyAt(s, at), i))
  {
    Only(s.procs);
    assert s.word.closed;
    hide Shape;
  }

  lemma PanicNotifyEnds(s: State, i: nat, at: Swap)
    requires Inv(s) && i < |s.procs| && s.procs[i] == PanicNotify(at) && at.Swapped?
    ensures Inv(Finish(NotifyAt(s, at), i))
  {
    PanicNotifyAwaited(s, i, at);
    NotifyFrame(s, at);
    Only(s.procs);
    hide Awaited, NotifyAt;
  }

  lemma PanicNotifyKeeps(s: State, i: nat, at: Swap)
    requires Inv(s) && i < |s.procs| && s.procs[i] == PanicNotify(at)
    ensures Inv(PanicNotifyStep(s, i, at))
  {
    if at.Swapped? {
      PanicNotifyEnds(s, i, at);
    } else {
      var q := PanicNotify(SwapNext(s.word, s.awaiter, at));
      NotifyingHasEnded(s, i);
      NotifyKeeps(s, i, at, q, PanicNotify(Trying));
      hide Inv;
      assert PanicNotifyStep(s, i, at) == NotifyStep(s, i, at, q, PanicNotify(Trying));
    }
  }

  lemma DropFutureKeeps(s: State, i: nat)
    requires Inv(s) && i < |s.procs| && (s.procs[i] == DropFuture || s.procs[i] == PanicDrop(false))
    ensures Inv(Finish(DropFutureOf(s), i))
  {
    Only(s.procs);
  }

  lemma AdvanceKeeps(s: State, i: nat, result: PollResult)
    requires Inv(s) && i < |s.procs|
    ensures Inv(AdvanceStep(s, i, result))
  {
    hide Inv, Goto, Finish, NotifyStep, DropCancelStep, EnterStep, PollStep, CompleteStep, CompletedStep, ParkStep,
      PanicStep, UnscheduleStep, PanicNotifyStep;
    NotifyingHasEnded(s, i);
    match s.procs[i]
    case Queued =>
    case CancelNotify(at) => NotifyKeeps(s, i, at, CancelNotify(SwapNext(s.word, s.awaiter, at)), Queued);
    case Dropping => DropCancelKeeps(s, i);
    case DropNotify(at) => NotifyKeeps(s, i, at, DropNotify(SwapNext(s.word, s.awaiter, at)), DropFuture);
    case Entering => EnterKeeps(s, i);
    case EnterNotify(at) => NotifyKeeps(s, i, at, EnterNotify(SwapNext(s.word, s.awaiter, at)), DropFuture);
    case Polling => PollKeeps(s, i, result);
    case ReadyDrop => ReadyDropKeeps(s, i);
    case ReadyWrite => ReadyWriteKeeps(s, i);
    case Completing => CompleteKeeps(s, i);
    case Completed(_, _, _) => CompletedKeeps(s, i);
    case Parking => ParkKeeps(s, i);
    case Panicking => PanicKeeps(s, i);
    case PanicUnschedule => UnscheduleKeeps(s, i);
    case PanicDrop(notify) => if notify { PanicDropThenNotifyKeeps(s, i); } else { DropFutureKeeps(s, i); }
    case PanicNotify(at) => PanicNotifyKeeps(s, i, at);
    case DropFuture => DropFutureKeeps(s, i);
  }

  lemma HandleCancelKeeps(s: State)
    requires Inv(s) && s.handle == Present
    ensures Inv(HandleCancelStep(s, AsCommented))
  {
    if !Ended(s.word) && Idle(s.word) {
      assert HandleCancelStep(s, AsCommented).procs == [Queued];
    }
  }

  lemma CancelAwaiter(s: State, at: Swap, rest: seq<Swap>)
    requires Inv(s) && s.cancels == [at]
    requires rest == if at.Swapped? then [] else [SwapNext(s.word, s.awaiter, at)]
    ensures Awaited(NotifyAt(s, at).(cancels := rest))
  {
    assert s.word.closed;
    hide Shape;
  }

  lemma CancelShape(s: State, at: Swap, rest: seq<Swap>)
    requires Shape(s) && s.cancels == [at] && |rest| <= 1
    ensures Shape(NotifyAt(s, at).(cancels := rest))
  {
    NotifyFrame(s, at);
    hide NotifyAt, Scheduled, WakeShows, TickReads, TickCompletes, SlotForward, OneReader, DestroyedOnce;
  }

  lemma AdvanceCancelKeeps(s: State, k: nat)
    requires Inv(s) && k < |s.cancels|
    ensures Inv(AdvanceCancelStep(s, k))
  {
    var at := s.cancels[0];
    assert s.cancels == [at] && k == 0;
    hide Shape, Awaited;
    var rest := if at.Swapped? then [] else [SwapNext(s.word, s.awaiter, at)];
    CancelAwaiter(s, at, rest);
    CancelShape(s, at, rest);
    assert AdvanceCancelStep(s, k).cancels == rest;
    assert AdvanceCancelStep(s, k) == NotifyAt(s, at).(cancels := rest);
  }

  lemma PollHandleKeeps(s: State, x: Waker)
    requires Inv(s) && s.handle == Present && s.cancels == []
    ensures Inv(PollHandleStep(s, x))
  {
  }

  lemma RegisterKeeps(s: State, x: Waker, at: Swap)
    requires Inv(s) && s.handle == PollRegister(x, at)
    ensures Inv(RegisterStep(s, x, at))
  {
  }

  lemma ReloadAwaited(s: State, x: Waker)
    requires Inv(s) && s.handle == PollReload(x)
    ensures Awaited(ReloadStep(s, x))
  {
  }

  lemma ReloadKeeps(s: State, x: Waker)
    requires Inv(s) && s.handle == PollReload(x)
    ensures Inv(ReloadStep(s, x))
  {
    ReloadAwaited(s, x);
    hide Awaited, Scheduled, WakeShows, TickReads, TickCompletes;
  }

  lemma TakeAwaited(s: State, x: Waker)
    requires Inv(s) && s.handle == PollTake(x)
    ensures Awaited(TakeStep(s, x))
  {
  }

  lemma TakeKeeps(s: State, x: Waker)
    requires Inv(s) && s.handle == PollTake(x)
    ensures Inv(TakeStep(s, x))
  {
    TakeAwaited(s, x);
    hide Awaited, Scheduled, WakeShows, TickReads, TickCompletes;
  }

  lemma UnlessFrame(s: State, x: Waker, at: Swap, again: HandlePhase, after: HandlePhase)
    ensures var s' := NotifyUnlessStep(s, x, at, again, after);
            && s' == s.(word := s'.word, awaiter := s'.awaiter, woken := s'.woken, woke := s'.woke,
                        handle := if at.Swapped? then after else again)
            && s'.word == s.word.(locked := s'.word.locked, awaiter := s'.word.awaiter)
  {
    SwapFrame(s.word, at, false);
    hide SwapWord;
  }

  lemma NotifyUnlessAwaited(s: State, x: Waker, at: Swap)
    requires Inv(s) && s.handle == PollClosed(x, at)
    ensures Awaited(NotifyUnlessStep(s, x, at, PollClosed(x, SwapNext(s.word, s.awaiter, at)), Present))
  {
  }

  lemma NotifyUnlessKeeps(s: State, x: Waker, at: Swap)
    requires Inv(s) && s.handle == PollClosed(x, at)
    ensures Inv(NotifyUnlessStep(s, x, at, PollClosed(x, SwapNext(s.word, s.awaiter, at)), Present))
  {
    NotifyUnlessAwaited(s, x, at);
    UnlessFrame(s, x, at, PollClosed(x, SwapNext(s.word, s.awaiter, at)), Present);
    hide Awaited, Scheduled, WakeShows, TickReads, TickCompletes, SlotForward, NotifyUnlessStep, SwapNext;
  }

  lemma TakenNotifyAwaited(s: State, x: Waker, at: Swap)
    requires Inv(s) && s.handle == TakenNotify(x, at)
    ensures Awaited(NotifyUnlessStep(s, x, at, TakenNotify(x, SwapNext(s.word, s.awaiter, at)), TakenRead))
  {
  }

  lemma TakenNotifyKeeps(s: State, x: Waker, at: Swap)
    requires Inv(s) && s.handle == TakenNotify(x, at)
    ensures Inv(NotifyUnlessStep(s, x, at, TakenNotify(x, SwapNext(s.word, s.awaiter, at)), TakenRead))
  {
    TakenNotifyAwaited(s, x, at);
    UnlessFrame(s, x, at, TakenNotify(x, SwapNext(s.word, s.awaiter, at)), TakenRead);
    hide Awaited, Scheduled, WakeShows, TickReads, TickCompletes, SlotForward, NotifyUnlessStep, SwapNext;
  }

  lemma HandleReadKeeps(s: State, h: HandlePhase)
    requires Inv(s) && ((s.handle == TakenRead && h == Present) || (s.handle == DropRead && h == HandleDropping))
    ensures Inv(ReadOutput(s).(handle := h))
  {
  }

  lemma HandleDropKeeps(s: State)
    requires Inv(s) && s.handle == HandleDropping
    ensures Inv(HandleDropStep(s))
  {
    if s.word.refs == 0 && !Ended(s.word) {
      assert HandleDropStep(s).procs == [Queued];
    }
  }

  lemma AdvanceHandleKeeps(s: State)
    requires Inv(s)
    ensures Inv(AdvanceHandleStep(s))
  {
    hide Inv, RegisterStep, ReloadStep, TakeStep, NotifyUnlessStep, ReadOutput, HandleDropStep;
    match s.handle
    case Present =>
    case PollRegister(x, at) => RegisterKeeps(s, x, at);
    case PollReload(x) => ReloadKeeps(s, x);
    case PollTake(x) => TakeKeeps(s, x);
    case PollClosed(x, at) => NotifyUnlessKeeps(s, x, at);
    case TakenNotify(x, at) => TakenNotifyKeeps(s, x, at);
    case TakenRead => HandleReadKeeps(s, Present);
    case HandleDropping => HandleDropKeeps(s);
    case DropRead => HandleReadKeeps(s, HandleDropping);
    case Gone =>
  }

  lemma DropHandleKeeps(s: State)
    requires Inv(s) && s.handle == Present && s.cancels == []
    ensures Inv(s.(waiting := None, handle := HandleDropping))
  {
  }

  lemma DestroyKeeps(s: State)
    requires Inv(s) && s.destroying > 0
    ensures Inv(s.(destroying := s.destroying - 1, frees := s.frees + 1))
  {
  }

  lemma Referenced(s: State)
    requires Inv(s) && (s.wakers > 0 || SomePolling(s.procs))
    ensures s.word.refs > 0
  {
  }

  lemma HandleCancelIdle(s: State, arms: CancelArms)
    requires Ended(s.word)
    ensures HandleCancelStep(s, arms) == s
  {
  }

  /** Every step keeps the invariant, a handle cancel with the arms as written if the proc had ended. */
  lemma StepKeepsInv(s: State, step: Step)
    requires Inv(s) && Enabled(s, step) && Harmless(s, step)
    ensures Inv(Next(s, step))
  {
    hide Inv, WakeStep, WakeByRefStep, CloneStep, Decrement, Goto, CancelProcStep, AdvanceStep, HandleCancelStep,
      AdvanceCancelStep, PollHandleStep, AdvanceHandleStep, SomePolling;
    match step
    case Wake => WakeKeeps(s);
    case WakeByRef => Referenced(s); WakeByRefKeeps(s);
    case CloneWaker => Referenced(s); CloneKeeps(s);
    case DropWaker => DropWakerKeeps(s);
    case Release => ReleaseKeeps(s);
    case Run(i) => RunKeeps(s, i, Entering);
    case CancelProc(i) => CancelProcKeeps(s, i);
    case DropProc(i) => RunKeeps(s, i, Dropping);
    case Advance(i, result) => AdvanceKeeps(s, i, result);
    case HandleCancel(arms) => if arms == AsCommented { HandleCancelKeeps(s); } else { HandleCancelIdle(s, arms); }
    case AdvanceCancel(k) => AdvanceCancelKeeps(s, k);
    case PollHandle(x) => PollHandleKeeps(s, x);
    case DropHandle => DropHandleKeeps(s);
    case AdvanceHandle => AdvanceHandleKeeps(s);
    case Destroy => DestroyKeeps(s);
  }

  /** The invariant holds in every reachable state. */
  lemma {:induction false} RunKeepsInv(s: State, steps: seq<Step>)
    requires Inv(s) && Legal(s, steps) && AllHarmless(s, steps)
    ensures Inv(After(s, steps))
    decreases |steps|
  {
    hide Inv, Next, Enabled, Harmless;
    if steps != [] {
      StepKeepsInv(s, steps[0]);
      RunKeepsInv(Next(s, steps[0]), steps[1..]);
    }
  }
}
