/** Every run of the proc protocol over records is a run over packed 64-bit words. */
module PackedRun {
  import opened StateWord
  import opened Transitions
  import opened ProcProtocol
  import opened ProcInvariant
  import opened ProcTheorems

  /** The atomic operation a step performs on the word. A swap of the awaiter tries the lock with
      `fetch_or` and releases it with `fetch_and`; whether it stores an awaiter decides the masks. */
  datatype Op =
    | Keep
    | Exchange(expected: Word, next: Word)
    | Add
    | Sub
    | TryLock(stores: bool)
    | Unlock(stores: bool)
    | Unschedule

  const NONE: Word := Word(false, false, false, false, false, false, false, 0)
  const ALL: Word := Word(true, true, true, true, true, true, true, 0)
  const LOCKED: Word := NONE.(locked := true)
  const LOCKED_AWAITER: Word := NONE.(locked := true, awaiter := true)
  const NOT_LOCKED: Word := ALL.(locked := false)
  const NOT_LOCKED_AWAITER: Word := ALL.(locked := false, awaiter := false)
  const NOT_SCHEDULED: Word := ALL.(scheduled := false)

  function Apply(order: ByteOrder, op: Op, u: nat): nat {
    match op
    case Keep => u
    case Exchange(expected, next) => if u == Encode(order, expected) then Encode(order, next) else u
    case Add => FetchAdd(order, u, 1)
    case Sub => FetchSub(order, u, 1)
    case TryLock(stores) => FetchOr(order, u, FlagBits(if stores then LOCKED_AWAITER else LOCKED))
    case Unlock(stores) => FetchAnd(order, u, FlagBits(if stores then NOT_LOCKED else NOT_LOCKED_AWAITER))
    case Unschedule => FetchAnd(order, u, FlagBits(NOT_SCHEDULED))
  }

  function SwapOp(at: Swap, stores: bool): Op {
    match at
    case Trying => TryLock(stores)
    case Inside => Keep
    case Swapped(_) => Unlock(stores)
  }

  /** The operation of the owner of a reference in phase `p`, on a word that becomes `next`. */
  function ProcOp(p: Phase, w: Word, next: Word): Op {
    match p
    case CancelNotify(at) => SwapOp(at, false)
    case DropNotify(at) => SwapOp(at, false)
    case EnterNotify(at) => SwapOp(at, false)
    case PanicNotify(at) => SwapOp(at, false)
    case Completed(read, notify, at) => if !read && notify then SwapOp(at, false) else Keep
    case PanicUnschedule => Unschedule
    case _ => Exchange(w, next)
  }

  function HandleOp(h: HandlePhase, w: Word, next: Word): Op {
    match h
    case PollRegister(_, at) => SwapOp(at, true)
    case PollClosed(_, at) => SwapOp(at, false)
    case TakenNotify(_, at) => SwapOp(at, false)
    case _ => Exchange(w, next)
  }

  function OpOf(s: State, step: Step): Op
    requires Enabled(s, step)
  {
    match step
    case CloneWaker => if s.word.refs > I32_MAX then Keep else Add
    case DropWaker => Sub
    case Release => Sub
    case AdvanceCancel(k) => SwapOp(s.cancels[k], false)
    case Advance(i, result) => ProcOp(s.procs[i], s.word, AdvanceStep(s, i, result).word)
    case AdvanceHandle => HandleOp(s.handle, s.word, AdvanceHandleStep(s).word)
    case _ => Exchange(s.word, Next(s, step).word)
  }

  lemma TriesLock(order: ByteOrder, w: Word, stores: bool)
    requires InRange(w)
    ensures Apply(order, TryLock(stores), Encode(order, w)) == Encode(order, RecordApply(TryLock(stores), w))
  {
    hide Encode, FetchOr, FetchAnd, FlagBits;
    FetchOrExact(order, w, if stores then LOCKED_AWAITER else LOCKED);
  }

  lemma Unlocks(order: ByteOrder, w: Word, stores: bool)
    requires InRange(w)
    ensures Apply(order, Unlock(stores), Encode(order, w)) == Encode(order, RecordApply(Unlock(stores), w))
  {
    hide Encode, FetchOr, FetchAnd, FlagBits;
    FetchAndExact(order, w, if stores then NOT_LOCKED else NOT_LOCKED_AWAITER);
  }

  lemma Unschedules(order: ByteOrder, w: Word)
    requires InRange(w)
    ensures Apply(order, Unschedule, Encode(order, w)) == Encode(order, w.(scheduled := false))
  {
    hide Encode, FetchAnd, FlagBits;
    FetchAndExact(order, w, NOT_SCHEDULED);
  }

  /** What the fetch operations of a step do to the record. */
  function RecordApply(op: Op, w: Word): Word {
    match op
    case Keep => w
    case Exchange(_, next) => next
    case Add => w.(refs := w.refs + 1)
    case Sub => Decremented(w)
    case TryLock(stores) => w.(locked := true, awaiter := w.awaiter || stores)
    case Unlock(stores) => w.(locked := false, awaiter := w.awaiter && stores)
    case Unschedule => w.(scheduled := false)
  }

  lemma NotifyOpIsStep(s: State, at: Swap)
    ensures NotifyAt(s, at).word == RecordApply(SwapOp(at, false), s.word)
  {
  }

  lemma ProcOpIsStep(s: State, i: nat, result: PollResult)
    requires i < |s.procs|
    ensures var next := AdvanceStep(s, i, result).word;
            next == RecordApply(ProcOp(s.procs[i], s.word, next), s.word)
  {
    hide EnterStep, ParkStep, PollStep, PanicStep, DropCancelStep, PanicDropStep, CompleteStep;
    match s.procs[i]
    case Completed(_, _, at) => NotifyOpIsStep(s, at); hide NotifyAt, UnscheduleStep, PanicNotifyStep, SwapNext;
    case PanicUnschedule => hide NotifyStep, CompletedStep, PanicNotifyStep;
    case CancelNotify(at) => NotifyOpIsStep(s, at); hide NotifyAt, CompletedStep, UnscheduleStep, PanicNotifyStep, SwapNext;
    case DropNotify(at) => NotifyOpIsStep(s, at); hide NotifyAt, CompletedStep, UnscheduleStep, PanicNotifyStep, SwapNext;
    case EnterNotify(at) => NotifyOpIsStep(s, at); hide NotifyAt, CompletedStep, UnscheduleStep, PanicNotifyStep, SwapNext;
    case PanicNotify(at) => NotifyOpIsStep(s, at); hide NotifyAt, CompletedStep, UnscheduleStep, SwapNext;
    case _ => hide NotifyStep, CompletedStep, UnscheduleStep, PanicNotifyStep;
  }

  lemma SwapOpIsStep(s: State, x: Waker, at: Swap, again: HandlePhase, after: HandlePhase)
    ensures RegisterStep(s, x, at).word == RecordApply(SwapOp(at, true), s.word)
    ensures NotifyUnlessStep(s, x, at, again, after).word == RecordApply(SwapOp(at, false), s.word)
  {
  }

  lemma HandleOpIsStep(s: State)
    ensures var next := AdvanceHandleStep(s).word;
            next == RecordApply(HandleOp(s.handle, s.word, next), s.word)
  {
    hide HandleDropStep, TakeStep, ReloadStep, RegisterStep, NotifyUnlessStep, SwapNext, SwapOp, ReadOutput;
    match s.handle
    case PollRegister(x, at) => SwapOpIsStep(s, x, at, Present, Present);
    case PollClosed(x, at) => SwapOpIsStep(s, x, at, PollClosed(x, SwapNext(s.word, s.awaiter, at)), Present);
    case TakenNotify(x, at) => SwapOpIsStep(s, x, at, TakenNotify(x, SwapNext(s.word, s.awaiter, at)), TakenRead);
    case _ =>
  }

  lemma OpIsStep(s: State, step: Step)
    requires Enabled(s, step)
    ensures Next(s, step).word == RecordApply(OpOf(s, step), s.word)
    ensures OpOf(s, step).Exchange? ==> OpOf(s, step).expected == s.word
  {
    hide AdvanceStep, AdvanceHandleStep, WakeStep, WakeByRefStep, CancelProcStep, HandleCancelStep, PollHandleStep, Goto;
    match step
    case Advance(i, result) => ProcOpIsStep(s, i, result);
    case AdvanceHandle => HandleOpIsStep(s);
    case AdvanceCancel(k) => NotifyOpIsStep(s, s.cancels[k]);
    case _ =>
  }

  lemma ApplyRefines(order: ByteOrder, op: Op, w: Word)
    requires InRange(w) && InRange(RecordApply(op, w))
    requires op.Exchange? ==> op.expected == w
    requires op.Sub? ==> w.refs > 0
    ensures Apply(order, op, Encode(order, w)) == Encode(order, RecordApply(op, w))
  {
    hide Encode, FetchOr, FetchAnd, FetchAdd, FetchSub, FlagBits;
    match op
    case Keep =>
    case Exchange(_, _) =>
    case Add => FetchAddExact(order, w);
    case Sub => FetchSubExact(order, w);
    case TryLock(stores) => TriesLock(order, w, stores);
    case Unlock(stores) => Unlocks(order, w, stores);
    case Unschedule => Unschedules(order, w);
  }

  /** A compare-exchange of packed words succeeds exactly when the records are equal. */
  lemma CompareIsExact(order: ByteOrder, a: Word, b: Word)
    requires InRange(a) && InRange(b)
    ensures Encode(order, a) == Encode(order, b) <==> a == b
  {
    DecodeEncode(order, a);
    DecodeEncode(order, b);
  }

  /** The packed word after `steps`, starting from packed word `u`. */
  function PackedAfter(order: ByteOrder, s: State, steps: seq<Step>, u: nat): nat
    requires Legal(s, steps)
    decreases |steps|
  {
    if steps == [] then u
    else PackedAfter(order, Next(s, steps[0]), steps[1..], Apply(order, OpOf(s, steps[0]), u))
  }

  /** All through the run, the packed word that began as `u` unpacks to the record. */
  predicate UnpacksAlong(order: ByteOrder, s: State, steps: seq<Step>, u: nat)
    requires Legal(s, steps)
    decreases |steps|
  {
    && Decode(order, u) == s.word
    && (steps != [] ==> UnpacksAlong(order, Next(s, steps[0]), steps[1..], Apply(order, OpOf(s, steps[0]), u)))
  }

  /** All through the run, fewer than 2^32 references are live or being released. */
  predicate FitsAlong(s: State, steps: seq<Step>)
    requires Legal(s, steps)
    decreases |steps|
  {
    && |s.procs| + s.wakers + s.releasing < TWO32
    && (steps != [] ==> FitsAlong(Next(s, steps[0]), steps[1..]))
  }

  lemma CountInRange(s: State)
    requires Inv(s)
    ensures InRange(s.word) <==> |s.procs| + s.wakers + s.releasing < TWO32
  {
  }

  lemma SubNeedsReference(s: State, step: Step)
    requires Inv(s) && Enabled(s, step) && OpOf(s, step).Sub?
    ensures s.word.refs > 0
  {
    assert step == DropWaker || step == Release;
  }

  lemma DecodeInRange(order: ByteOrder, u: nat)
    ensures InRange(Decode(order, u))
  {
    hide FromBytes, ToBytes, FlagsPart;
    var bs := ToBytes(order, u, 8);
    FieldBound(order, u, 8);
    FourBytes(order, bs[..4]);
  }

  /** One step keeps the packed word the packing of the record, as long as the count fits. */
  lemma StepRefines(order: ByteOrder, s: State, t: Step)
    requires Inv(s) && Enabled(s, t)
    requires InRange(s.word) && InRange(Next(s, t).word)
    ensures Apply(order, OpOf(s, t), Encode(order, s.word)) == Encode(order, Next(s, t).word)
  {
    hide Inv, Next, Enabled, OpOf, Apply, Encode, InRange, RecordApply;
    CountInRange(s);
    OpIsStep(s, t);
    if OpOf(s, t).Sub? {
      SubNeedsReference(s, t);
    }
    ApplyRefines(order, OpOf(s, t), s.word);
  }

  lemma {:induction false} PackedRefinesFrom(order: ByteOrder, s: State, steps: seq<Step>)
    requires Inv(s) && Legal(s, steps) && AllHarmless(s, steps) && FitsAlong(s, steps)
    ensures UnpacksAlong(order, s, steps, Encode(order, s.word))
    ensures PackedAfter(order, s, steps, Encode(order, s.word)) == Encode(order, After(s, steps).word)
    decreases |steps|
  {
    hide Inv, Next, Enabled, Harmless, OpOf, Apply, Encode, Decode, InRange;
    CountInRange(s);
    DecodeEncode(order, s.word);
    if steps != [] {
      var t := steps[0];
      var s' := Next(s, t);
      StepKeepsInv(s, t);
      CountInRange(s');
      StepRefines(order, s, t);
      PackedRefinesFrom(order, s', steps[1..]);
    }
  }

  lemma {:induction false} UnpackingFits(order: ByteOrder, s: State, steps: seq<Step>, u: nat)
    requires Inv(s) && Legal(s, steps) && AllHarmless(s, steps) && UnpacksAlong(order, s, steps, u)
    ensures FitsAlong(s, steps)
    decreases |steps|
  {
    hide Inv, Next, Enabled, Harmless, OpOf, Apply, Decode, InRange;
    CountInRange(s);
    DecodeInRange(order, u);
    if steps != [] {
      StepKeepsInv(s, steps[0]);
      UnpackingFits(order, Next(s, steps[0]), steps[1..], Apply(order, OpOf(s, steps[0]), u));
    }
  }

  /** In every run, on either byte order, the packed word unpacks to the record all through if and
      only if the references never number 2^32: until then no carry or borrow reaches the flags. */
  lemma PackedRefines(order: ByteOrder, steps: seq<Step>)
    requires IsRun(steps)
    ensures UnpacksAlong(order, Init(), steps, Encode(order, Init().word)) <==> FitsAlong(Init(), steps)
    ensures FitsAlong(Init(), steps) ==>
              PackedAfter(order, Init(), steps, Encode(order, Init().word)) == Encode(order, Reached(steps).word)
  {
    hide Encode, Decode;
    InitInv();
    if FitsAlong(Init(), steps) {
      PackedRefinesFrom(order, Init(), steps);
    }
    if UnpacksAlong(order, Init(), steps, Encode(order, Init().word)) {
      UnpackingFits(order, Init(), steps, Encode(order, Init().word));
    }
  }

  /** So many calls between their last use of a reference and its decrement are harmless. */
  const MAX_IN_FLIGHT: nat := I32_MAX - 1

  predicate FewInFlight(s: State, steps: seq<Step>)
    requires Legal(s, steps)
    decreases |steps|
  {
    s.releasing <= MAX_IN_FLIGHT && (steps != [] ==> FewInFlight(Next(s, steps[0]), steps[1..]))
  }

  lemma FewFit(s: State)
    requires Inv(s) && s.releasing <= MAX_IN_FLIGHT
    ensures |s.procs| + s.wakers + s.releasing < TWO32
  {
  }

  lemma {:induction false} FewInFlightFits(s: State, steps: seq<Step>)
    requires Inv(s) && Legal(s, steps) && AllHarmless(s, steps) && FewInFlight(s, steps)
    ensures FitsAlong(s, steps)
    decreases |steps|
  {
    hide Inv, Next, Enabled, Harmless;
    FewFit(s);
    if steps != [] {
      StepKeepsInv(s, steps[0]);
      FewInFlightFits(Next(s, steps[0]), steps[1..]);
    }
  }

  /** While fewer than 2^31 - 1 releases are under way at a time, the packed word is right. */
  lemma FewReleasesSuffice(order: ByteOrder, steps: seq<Step>)
    requires IsRun(steps) && FewInFlight(Init(), steps)
    ensures UnpacksAlong(order, Init(), steps, Encode(order, Init().word))
  {
    hide Encode, Decode;
    InitInv();
    FewInFlightFits(Init(), steps);
    PackedRefines(order, steps);
  }
}
