/** The proc protocol of runtime/lightproc as a transition system: wakers, `LightProc`
    references, ticks and the handle race on one word. A successful compare-exchange,
    a fetch operation, or a load that decides a branch is one step. */
module ProcProtocol {
  import opened StateWord
  import opened Transitions
  import opened Wrappers

  /** Identity of a waker registered through the handle. */
  type Waker = nat

  const I32_MAX: nat := 0x7fff_ffff

  /** The memory shared by future and output. */
  datatype Slot = Future | Output | Empty

  /** Where a call of `swap_awaiter` is: in its loop, past it, or with the cell's old content in
      hand and the flags still to be cleared. */
  datatype Swap = Trying | Inside | Swapped(previous: Option<Waker>)

  /** What the owner of one `LightProc` reference is doing with it. */
  datatype Phase =
    | Queued                                // in a run queue, or held by its creator
    | CancelNotify(at: Swap)                // LightProc::cancel closed the proc
    | Dropping | DropNotify(at: Swap)       // Drop for LightProc: before and after its cancel
    | Entering | EnterNotify(at: Swap)      // tick: before its entry step, and on a closed proc
    | Polling
    | ReadyDrop | ReadyWrite | Completing   // poll returned Ready
    | Completed(read: bool, notify: bool, at: Swap)
    | Parking                               // poll returned Pending
    | Panicking | PanicUnschedule | PanicDrop(notify: bool) | PanicNotify(at: Swap)
    | DropFuture

  datatype HandlePhase =
    | Present
    | PollRegister(x: Waker, at: Swap) | PollReload(x: Waker) | PollTake(x: Waker)
    | PollClosed(x: Waker, at: Swap) | TakenNotify(x: Waker, at: Swap) | TakenRead
    | HandleDropping | DropRead
    | Gone

  datatype State = State(
    word: Word,
    awaiter: Option<Waker>,       // the awaiter cell
    slot: Slot,
    procs: seq<Phase>,            // one entry per LightProc reference
    wakers: nat,                  // live wakers
    releasing: nat,               // references whose owner's only remaining action is `decrement`
    handle: HandlePhase,
    cancels: seq<Swap>,           // ProcHandle::cancel calls that still have to notify
    destroying: nat,              // calls that decided to destroy the proc
    frees: nat,                   // times the memory was freed
    aborted: bool,
    // history
    futureDrops: nat, outputWrites: nat, outputReads: nat,
    waiting: Option<Waker>,       // waker of the last handle poll, if that returned Pending
    woken: bool,                  // that waker has been woken since
    woke: seq<Waker>,             // all wakers woken so far
    wakePending: bool)            // a wake arrived after the last tick entry

  datatype PollResult = Ready | Pending | Panic

  datatype Step =
    | Wake | WakeByRef | CloneWaker | DropWaker | Release
    | Run(i: nat) | CancelProc(i: nat) | DropProc(i: nat)
    | Advance(i: nat, result: PollResult)
    | HandleCancel(arms: CancelArms) | AdvanceCancel(k: nat)
    | PollHandle(x: Waker) | DropHandle | AdvanceHandle
    | Destroy

  /** `RawProc::allocate`: one `LightProc`, one handle. */
  function Init(): State {
    State(Word(true, false, false, false, true, false, false, 1), None, Future, [Queued], 0, 0,
          Present, [], 0, 0, false, 0, 0, 0, None, false, [], false)
  }

  // ----- pieces of steps

  /** `decrement`: the word loses a reference; the last one decides to destroy. */
  function Decrement(s: State): State {
    s.(word := Decremented(s.word), destroying := s.destroying + (if LastReference(s.word) then 1 else 0))
  }

  /** One action of `swap_awaiter` on the word: a round of its loop sets the flags, AWAITER too when
      an awaiter is stored; the end clears LOCKED, and AWAITER too when none was. */
  function SwapWord(w: Word, at: Swap, stores: bool): Word {
    match at
    case Trying => w.(locked := true, awaiter := w.awaiter || stores)
    case Inside => w
    case Swapped(_) => w.(locked := false, awaiter := w.awaiter && stores)
  }

  /** Where the call is after that action. As written, the loop ends when LOCKED was set before. */
  function SwapNext(w: Word, cell: Option<Waker>, at: Swap): Swap {
    match at
    case Trying => if w.locked then Inside else Trying
    case Inside => Swapped(cell)
    case Swapped(_) => Trying
  }

  function SwapStep(s: State, at: Swap, next: Option<Waker>): State {
    s.(word := SwapWord(s.word, at, next.Some?), awaiter := if at.Inside? then next else s.awaiter)
  }

  /** The end of `notify` and `notify_unless`: wake what the swap returned unless it is `except`. */
  function WakeUnless(s: State, previous: Option<Waker>, except: Option<Waker>): State {
    if previous.Some? && previous != except then
      s.(woken := s.woken || s.waiting == previous, woke := s.woke + [previous.value])
    else s
  }

  /** One action of `notify`. */
  function NotifyAt(s: State, at: Swap): State {
    var s' := SwapStep(s, at, None);
    if at.Swapped? then WakeUnless(s', at.previous, None) else s'
  }

  function DropFutureOf(s: State): State { s.(slot := Empty, futureDrops := s.futureDrops + 1) }

  function ReadOutput(s: State): State { s.(slot := Empty, outputReads := s.outputReads + 1) }

  function WriteOutput(s: State): State { s.(slot := Output, outputWrites := s.outputWrites + 1) }

  function Without<T>(q: seq<T>, i: nat): seq<T>
    requires i < |q|
  {
    q[..i] + q[i + 1..]
  }

  /** The owner of reference `i` goes on to phase `p`. */
  function Goto(s: State, i: nat, p: Phase): State
    requires i < |s.procs|
  {
    s.(procs := s.procs[i := p])
  }

  /** The owner of reference `i` goes on to `decrement`. */
  function Finish(s: State, i: nat): State
    requires i < |s.procs|
  {
    s.(procs := Without(s.procs, i), releasing := s.releasing + 1)
  }

  // ----- wakers

  function WakeStep(s: State): State
    requires s.wakers > 0
  {
    var w := s.word;
    var s' := s.(word := Woken(w), wakers := s.wakers - 1, wakePending := s.wakePending || !Ended(w));
    if !Ended(w) && Idle(w) then s'.(procs := s.procs + [Queued]) else s'.(releasing := s.releasing + 1)
  }

  function WakeByRefStep(s: State): State {
    var w := s.word;
    var s' := s.(word := WokenByRef(w), wakePending := s.wakePending || !Ended(w));
    if !Ended(w) && Idle(w) then s'.(procs := s.procs + [Queued]) else s'
  }

  function CloneStep(s: State): State {
    if s.word.refs > I32_MAX then s.(aborted := true)
    else s.(word := s.word.(refs := s.word.refs + 1), wakers := s.wakers + 1)
  }

  // ----- a LightProc reference

  /** One action of `notify` by the owner of reference `i`, which goes on to `again` or `after`. */
  function NotifyStep(s: State, i: nat, at: Swap, again: Phase, after: Phase): State
    requires i < |s.procs|
  {
    Goto(NotifyAt(s, at), i, if at.Swapped? then after else again)
  }

  /** `Drop for LightProc`: its `ProcData::cancel`. */
  function DropCancelStep(s: State, i: nat): State
    requires i < |s.procs|
  {
    if Ended(s.word) then Goto(s, i, DropFuture)
    else Goto(s.(word := Closed(s.word)), i, if s.word.awaiter then DropNotify(Trying) else DropFuture)
  }

  /** `tick`, before polling. */
  function EnterStep(s: State, i: nat): State
    requires i < |s.procs|
  {
    if s.word.closed then Goto(s, i, if s.word.awaiter then EnterNotify(Trying) else DropFuture)
    else Goto(s.(word := Entered(s.word), wakePending := false), i, Polling)
  }

  function PollStep(s: State, i: nat, result: PollResult): State
    requires i < |s.procs|
  {
    match result
    case Ready => Goto(s, i, ReadyDrop)
    case Pending => Goto(s, i, Parking)
    case Panic => Goto(s, i, Panicking)
  }

  /** `tick` after Ready: the compare-exchange that sets COMPLETED. */
  function CompleteStep(s: State, i: nat): State
    requires i < |s.procs|
  {
    Goto(s.(word := CompletedWord(s.word)), i, Completed(!s.word.handle || s.word.closed, s.word.awaiter, Trying))
  }

  function CompletedStep(s: State, i: nat): State
    requires i < |s.procs| && s.procs[i].Completed?
  {
    var p := s.procs[i];
    if p.read then Goto(ReadOutput(s), i, Completed(false, p.notify, p.at))
    else if p.notify then
      NotifyStep(s, i, p.at, Completed(false, true, SwapNext(s.word, s.awaiter, p.at)), Completed(false, false, Trying))
    else Finish(s, i)
  }

  /** `tick` after Pending: the compare-exchange that clears RUNNING. */
  function ParkStep(s: State, i: nat): State
    requires i < |s.procs|
  {
    var s' := s.(word := Parked(s.word));
    if s.word.closed then Goto(s', i, DropFuture)
    else if s.word.scheduled then Goto(s', i, Queued)
    else Finish(s', i)
  }

  /** `Guard::drop`: the load or compare-exchange that finds or sets CLOSED. */
  function PanicStep(s: State, i: nat): State
    requires i < |s.procs|
  {
    if s.word.closed then Goto(s, i, PanicUnschedule)
    else Goto(s.(word := Closed(s.word)), i, PanicDrop(s.word.awaiter))
  }

  function UnscheduleStep(s: State, i: nat): State
    requires i < |s.procs|
  {
    Goto(s.(word := s.word.(scheduled := false)), i, DropFuture)
  }

  function PanicDropStep(s: State, i: nat, notify: bool): State
    requires i < |s.procs|
  {
    if notify then Goto(DropFutureOf(s), i, PanicNotify(Trying)) else Finish(DropFutureOf(s), i)
  }

  function PanicNotifyStep(s: State, i: nat, at: Swap): State
    requires i < |s.procs|
  {
    if at.Swapped? then Finish(NotifyAt(s, at), i)
    else Goto(NotifyAt(s, at), i, PanicNotify(SwapNext(s.word, s.awaiter, at)))
  }

  /** The next step of the owner of reference `i`. */
  function AdvanceStep(s: State, i: nat, result: PollResult): State
    requires i < |s.procs|
  {
    match s.procs[i]
    case Queued => s
    case CancelNotify(at) => NotifyStep(s, i, at, CancelNotify(SwapNext(s.word, s.awaiter, at)), Queued)
    case Dropping => DropCancelStep(s, i)
    case DropNotify(at) => NotifyStep(s, i, at, DropNotify(SwapNext(s.word, s.awaiter, at)), DropFuture)
    case Entering => EnterStep(s, i)
    case EnterNotify(at) => NotifyStep(s, i, at, EnterNotify(SwapNext(s.word, s.awaiter, at)), DropFuture)
    case Polling => PollStep(s, i, result)
    case ReadyDrop => Goto(DropFutureOf(s), i, ReadyWrite)
    case ReadyWrite => Goto(WriteOutput(s), i, Completing)
    case Completing => CompleteStep(s, i)
    case Completed(_, _, _) => CompletedStep(s, i)
    case Parking => ParkStep(s, i)
    case Panicking => PanicStep(s, i)
    case PanicUnschedule => UnscheduleStep(s, i)
    case PanicDrop(notify) => PanicDropStep(s, i, notify)
    case PanicNotify(at) => PanicNotifyStep(s, i, at)
    case DropFuture => Finish(DropFutureOf(s), i)
  }

  /** `LightProc::cancel`, up to its notification. */
  function CancelProcStep(s: State, i: nat): State
    requires i < |s.procs|
  {
    if Ended(s.word) then s
    else Goto(s.(word := Closed(s.word)), i, if s.word.awaiter then CancelNotify(Trying) else Queued)
  }

  // ----- the handle

  function HandleCancelStep(s: State, arms: CancelArms): State {
    var w := s.word;
    if Ended(w) then s
    else
      var s' := s.(word := HandleCancelled(w, arms), cancels := if w.awaiter then s.cancels + [Trying] else s.cancels);
      if Idle(w) then s'.(procs := s.procs + [Queued]) else s'
  }

  /** One action of the `notify` at the end of handle cancel `k`. */
  function AdvanceCancelStep(s: State, k: nat): State
    requires k < |s.cancels|
  {
    var at := s.cancels[k];
    NotifyAt(s, at).(cancels := if at.Swapped? then Without(s.cancels, k)
                                else s.cancels[k := SwapNext(s.word, s.awaiter, at)])
  }

  /** The branch a handle poll takes on a freshly loaded word. */
  function PollBranch(w: Word, x: Waker, notDone: HandlePhase): HandlePhase {
    if w.closed then PollClosed(x, Trying) else if !w.completed then notDone else PollTake(x)
  }

  function PollHandleStep(s: State, x: Waker): State {
    s.(waiting := None, handle := PollBranch(s.word, x, PollRegister(x, Trying)))
  }

  /** One action of `swap_awaiter(Some(x))`. */
  function RegisterStep(s: State, x: Waker, at: Swap): State {
    SwapStep(s, at, Some(x))
      .(handle := if at.Swapped? then PollReload(x) else PollRegister(x, SwapNext(s.word, s.awaiter, at)))
  }

  /** One action of `notify_unless(x)`, which goes on to `again` or `after`. */
  function NotifyUnlessStep(s: State, x: Waker, at: Swap, again: HandlePhase, after: HandlePhase): State {
    var s' := SwapStep(s, at, None).(handle := if at.Swapped? then after else again);
    if at.Swapped? then WakeUnless(s', at.previous, Some(x)) else s'
  }

  function ReloadStep(s: State, x: Waker): State {
    var h := PollBranch(s.word, x, Present);
    if h.Present? then s.(handle := h, waiting := Some(x), woken := false) else s.(handle := h)
  }

  function TakeStep(s: State, x: Waker): State {
    if s.word.closed then s.(handle := PollClosed(x, Trying))
    else s.(word := Closed(s.word), handle := if s.word.awaiter then TakenNotify(x, Trying) else TakenRead)
  }

  function HandleDropStep(s: State): State {
    var w := s.word;
    if w.completed && !w.closed then s.(word := Closed(w), handle := DropRead)
    else
      var s' := s.(word := HandleDropped(w), handle := Gone);
      if w.refs > 0 then s'
      else if !w.closed then s'.(procs := s.procs + [Queued])
      else s'.(destroying := s.destroying + 1)
  }

  function AdvanceHandleStep(s: State): State {
    match s.handle
    case Present => s
    case PollRegister(x, at) => RegisterStep(s, x, at)
    case PollReload(x) => ReloadStep(s, x)
    case PollTake(x) => TakeStep(s, x)
    case PollClosed(x, at) => NotifyUnlessStep(s, x, at, PollClosed(x, SwapNext(s.word, s.awaiter, at)), Present)
    case TakenNotify(x, at) => NotifyUnlessStep(s, x, at, TakenNotify(x, SwapNext(s.word, s.awaiter, at)), TakenRead)
    case TakenRead => ReadOutput(s).(handle := Present)
    case HandleDropping => HandleDropStep(s)
    case DropRead => ReadOutput(s).(handle := HandleDropping)
    case Gone => s
  }

  // ----- the transition system

  predicate SomePolling(procs: seq<Phase>) {
    exists i :: 0 <= i < |procs| && procs[i].Polling?
  }

  /** Who may call what: wakers need a live waker (or the borrowed one of a running poll),
      the reference operations their reference, `poll` and `drop` of the handle exclusive access. */
  predicate Enabled(s: State, step: Step) {
    && !s.aborted
    && match step
       case Wake => s.wakers > 0
       case WakeByRef => s.wakers > 0 || SomePolling(s.procs)
       case CloneWaker => s.wakers > 0 || SomePolling(s.procs)
       case DropWaker => s.wakers > 0
       case Release => s.releasing > 0
       case Run(i) => i < |s.procs| && s.procs[i] == Queued
       case CancelProc(i) => i < |s.procs| && s.procs[i] == Queued
       case DropProc(i) => i < |s.procs| && s.procs[i] == Queued
       case Advance(i, _) => i < |s.procs| && s.procs[i] != Queued
       case HandleCancel(_) => s.handle == Present
       case AdvanceCancel(k) => k < |s.cancels|
       case PollHandle(_) => s.handle == Present && s.cancels == []
       case DropHandle => s.handle == Present && s.cancels == []
       case AdvanceHandle => s.handle != Present && s.handle != Gone
       case Destroy => s.destroying > 0
  }

  function Next(s: State, step: Step): State
    requires Enabled(s, step)
  {
    match step
    case Wake => WakeStep(s)
    case WakeByRef => WakeByRefStep(s)
    case CloneWaker => CloneStep(s)
    case DropWaker => Decrement(s.(wakers := s.wakers - 1))
    case Release => Decrement(s.(releasing := s.releasing - 1))
    case Run(i) => Goto(s, i, Entering)
    case CancelProc(i) => CancelProcStep(s, i)
    case DropProc(i) => Goto(s, i, Dropping)
    case Advance(i, result) => AdvanceStep(s, i, result)
    case HandleCancel(arms) => HandleCancelStep(s, arms)
    case AdvanceCancel(k) => AdvanceCancelStep(s, k)
    case PollHandle(x) => PollHandleStep(s, x)
    case DropHandle => s.(waiting := None, handle := HandleDropping)
    case AdvanceHandle => AdvanceHandleStep(s)
    case Destroy => s.(destroying := s.destroying - 1, frees := s.frees + 1)
  }

  /** `steps` can be taken one after the other from `s`. */
  predicate Legal(s: State, steps: seq<Step>)
    decreases |steps|
  {
    steps == [] || (Enabled(s, steps[0]) && Legal(Next(s, steps[0]), steps[1..]))
  }

  function After(s: State, steps: seq<Step>): State
    requires Legal(s, steps)
    decreases |steps|
  {
    if steps == [] then s else After(Next(s, steps[0]), steps[1..])
  }

  /** The step does not go wrong by the arms of handle cancel as written: they were not used, or met
      a proc that had ended. */
  predicate Harmless(s: State, step: Step) { step == HandleCancel(AsWritten) ==> Ended(s.word) }

  predicate AllHarmless(s: State, steps: seq<Step>)
    requires Legal(s, steps)
    decreases |steps|
  {
    steps == [] || (Harmless(s, steps[0]) && AllHarmless(Next(s, steps[0]), steps[1..]))
  }
}
