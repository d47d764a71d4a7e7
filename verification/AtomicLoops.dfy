/** The compare-exchange loops of runtime/lightproc on the packed word: whatever other threads
    do between a load and the exchange, one call has the effect of one protocol step. */
module AtomicLoops {
  import opened StateWord
  import opened Transitions
  import opened Wrappers

  /** `AtomicState` of state.rs. */
  class AtomicState {
    const order: ByteOrder
    var inner: nat

    /** The packed word stands for `w`. */
    ghost predicate Holds(w: Word)
      reads this
    {
      InRange(w) && inner == Encode(order, w)
    }

    constructor (order: ByteOrder, w: Word)
      requires InRange(w)
      ensures this.order == order && Holds(w)
    {
      this.order := order;
      inner := Encode(order, w);
    }

    method Load(ghost w: Word) returns (seen: Word)
      requires Holds(w)
      ensures seen == w
    {
      hide Encode, Decode;
      DecodeEncode(order, w);
      seen := Decode(order, inner);
    }

    /** Another thread replaces the word. */
    method Interfere(w: Word)
      requires InRange(w)
      modifies this
      ensures Holds(w)
    {
      inner := Encode(order, w);
    }

    method CompareExchange(expected: Word, next: Word, ghost w: Word) returns (ok: bool, seen: Word)
      requires Holds(w) && InRange(expected) && InRange(next)
      modifies this
      ensures seen == w && ok == (expected == w)
      ensures Holds(if ok then next else w)
    {
      hide Encode, Decode;
      DecodeEncode(order, w);
      DecodeEncode(order, expected);
      seen := Decode(order, inner);
      ok := inner == Encode(order, expected);
      if ok {
        inner := Encode(order, next);
      }
    }

    method AddOne(ghost w: Word) returns (seen: Word)
      requires Holds(w) && w.refs + 1 < TWO32
      modifies this
      ensures seen == w && Holds(w.(refs := w.refs + 1))
    {
      hide Encode, Decode, FetchAdd;
      DecodeEncode(order, w);
      FetchAddExact(order, w);
      seen := Decode(order, inner);
      inner := FetchAdd(order, inner, 1);
    }

    method SubOne(ghost w: Word) returns (seen: Word)
      requires Holds(w) && w.refs > 0
      modifies this
      ensures seen == w && Holds(w.(refs := w.refs - 1))
    {
      hide Encode, Decode, FetchSub;
      DecodeEncode(order, w);
      FetchSubExact(order, w);
      seen := Decode(order, inner);
      inner := FetchSub(order, inner, 1);
    }

    method SetFlags(mask: Word, ghost w: Word) returns (seen: Word)
      requires Holds(w)
      modifies this
      ensures seen == w && Holds(Union(w, mask))
    {
      hide Encode, Decode, FetchOr, FlagBits;
      DecodeEncode(order, w);
      FetchOrExact(order, w, mask);
      seen := Decode(order, inner);
      inner := FetchOr(order, inner, FlagBits(mask));
    }

    method KeepFlags(mask: Word, ghost w: Word) returns (seen: Word)
      requires Holds(w)
      modifies this
      ensures seen == w && Holds(Meet(w, mask))
    {
      hide Encode, Decode, FetchAnd, FlagBits;
      DecodeEncode(order, w);
      FetchAndExact(order, w, mask);
      seen := Decode(order, inner);
      inner := FetchAnd(order, inner, FlagBits(mask));
    }
  }

  /** What happens to the word between a load and the following `compare_exchange_weak`. */
  datatype Attempt = Interference(w: Word) | SpuriousFailure

  predicate Roomy(w: Word) { w.refs + 1 < TWO32 }

  predicate RoomyEnv(env: seq<Attempt>) {
    forall k :: 0 <= k < |env| && env[k].Interference? ==> Roomy(env[k].w)
  }

  /** One of the words the call could have met. */
  predicate Met(before: Word, env: seq<Attempt>, w: Word) {
    w == before || exists k :: 0 <= k < |env| && env[k] == Interference(w)
  }

  /** What a loop body does with a loaded word: leave, or try to replace it. */
  type Decision = Word -> Option<Word>

  function Outcome(decide: Decision, w: Word): Word {
    match decide(w)
    case None => w
    case Some(next) => next
  }

  /** The loop all operations share: load, decide, `compare_exchange_weak`, reload on failure.
      The call takes effect on one word that was current, exactly as if done in one step. */
  method ExchangeLoop(state: AtomicState, decide: Decision, ghost before: Word, env: seq<Attempt>)
    returns (seen: Word)
    requires state.Holds(before) && Roomy(before) && RoomyEnv(env)
    requires forall w :: Roomy(w) ==> InRange(Outcome(decide, w))
    modifies state
    ensures Met(before, env, seen)
    ensures state.Holds(Outcome(decide, seen))
  {
    hide Encode;
    ghost var w := before;
    seen := state.Load(w);
    var k := 0;
    while true
      invariant 0 <= k <= |env|
      invariant state.Holds(w) && seen == w && Roomy(w) && Met(before, env, w)
      decreases |env| - k
    {
      var d := decide(seen);
      if d == None {
        return;
      }
      if k < |env| {
        if env[k].SpuriousFailure? {
          k := k + 1;
          continue;
        }
        state.Interfere(env[k].w);
        w := env[k].w;
        k := k + 1;
      }
      assert Outcome(decide, seen) == d.value;
      var ok, current := state.CompareExchange(seen, d.value, w);
      if ok {
        return;
      }
      seen := current;
    }
  }

  /** What the caller of `wake` does with its reference afterwards. */
  datatype WakeAction = DropReference | Schedule

  /** `RawProc::wake`. */
  method Wake(state: AtomicState, ghost before: Word, env: seq<Attempt>) returns (ghost seen: Word, action: WakeAction)
    requires state.Holds(before) && Roomy(before) && RoomyEnv(env)
    modifies state
    ensures Met(before, env, seen)
    ensures state.Holds(Woken(seen))
    ensures action == Schedule <==> !Ended(seen) && Idle(seen)
  {
    var decide := (w: Word) => if Ended(w) then None else Some(Woken(w));
    assert forall w :: Outcome(decide, w) == Woken(w);
    var got := ExchangeLoop(state, decide, before, env);
    seen := got;
    action := if !Ended(got) && !got.scheduled && !got.running then Schedule else DropReference;
  }

  /** `RawProc::wake_by_ref`: whether a new `LightProc` is scheduled. */
  method WakeByRef(state: AtomicState, ghost before: Word, env: seq<Attempt>) returns (ghost seen: Word, schedule: bool)
    requires state.Holds(before) && Roomy(before) && RoomyEnv(env)
    modifies state
    ensures Met(before, env, seen)
    ensures state.Holds(WokenByRef(seen))
    ensures schedule <==> !Ended(seen) && Idle(seen)
  {
    var decide := (w: Word) => if Ended(w) then None else Some(WokenByRef(w));
    assert forall w :: Outcome(decide, w) == WokenByRef(w);
    var got := ExchangeLoop(state, decide, before, env);
    seen := got;
    schedule := !Ended(got) && !got.scheduled && !got.running;
  }

  /** Entry loop of `RawProc::tick`: whether to poll, and on a closed proc whether to notify. */
  method EnterTick(state: AtomicState, ghost before: Word, env: seq<Attempt>)
    returns (ghost seen: Word, poll: bool, notify: bool)
    requires state.Holds(before) && Roomy(before) && RoomyEnv(env)
    modifies state
    ensures Met(before, env, seen)
    ensures poll == !seen.closed && notify == (seen.closed && seen.awaiter)
    ensures state.Holds(if poll then Entered(seen) else seen)
  {
    var decide := (w: Word) => if w.closed then None else Some(Entered(w));
    var got := ExchangeLoop(state, decide, before, env);
    seen := got;
    poll, notify := !got.closed, got.closed && got.awaiter;
  }

  /** `tick` after `Poll::Ready`: whether this tick takes the output, and whether it notifies. */
  method CompleteTick(state: AtomicState, ghost before: Word, env: seq<Attempt>)
    returns (ghost seen: Word, read: bool, notify: bool)
    requires state.Holds(before) && Roomy(before) && RoomyEnv(env)
    modifies state
    ensures Met(before, env, seen)
    ensures state.Holds(CompletedWord(seen))
    ensures read == (!seen.handle || seen.closed) && notify == seen.awaiter
  {
    var decide := (w: Word) => Some(CompletedWord(w));
    var got := ExchangeLoop(state, decide, before, env);
    seen := got;
    read, notify := !got.handle || got.closed, got.awaiter;
  }

  /** `tick` after `Poll::Pending`: whether the future is dropped, and if not whether the
      reference goes back to the queue. */
  method ParkTick(state: AtomicState, ghost before: Word, env: seq<Attempt>)
    returns (ghost seen: Word, dropFuture: bool, requeue: bool)
    requires state.Holds(before) && Roomy(before) && RoomyEnv(env)
    modifies state
    ensures Met(before, env, seen)
    ensures state.Holds(Parked(seen))
    ensures dropFuture == seen.closed && requeue == (!seen.closed && seen.scheduled)
  {
    var decide := (w: Word) => Some(Parked(w));
    var got := ExchangeLoop(state, decide, before, env);
    seen := got;
    dropFuture, requeue := got.closed, !got.closed && got.scheduled;
  }

  /** `ProcData::cancel`, and with the other test `Guard::drop` and the handle poll that takes the
      output: close unless it is too late. */
  method Close(state: AtomicState, guardDrop: bool, ghost before: Word, env: seq<Attempt>)
    returns (ghost seen: Word, closedIt: bool, notify: bool)
    requires state.Holds(before) && Roomy(before) && RoomyEnv(env)
    modifies state
    ensures Met(before, env, seen)
    ensures closedIt == if guardDrop then !seen.closed else !Ended(seen)
    ensures notify == (closedIt && seen.awaiter)
    ensures state.Holds(if closedIt then Closed(seen) else seen)
  {
    var decide := (w: Word) => if (if guardDrop then w.closed else Ended(w)) then None else Some(Closed(w));
    var got := ExchangeLoop(state, decide, before, env);
    seen := got;
    closedIt := if guardDrop then !got.closed else !Ended(got);
    notify := closedIt && got.awaiter;
  }

  /** `ProcHandle::cancel` with its arms as written: whether the proc is scheduled, and whether its
      awaiter is notified. The arm that adds a reference is not the arm that schedules one. */
  method HandleCancel(state: AtomicState, ghost before: Word, env: seq<Attempt>)
    returns (ghost seen: Word, schedule: bool, notify: bool)
    requires state.Holds(before) && Roomy(before) && RoomyEnv(env)
    modifies state
    ensures Met(before, env, seen)
    ensures state.Holds(HandleCancelled(seen, AsWritten))
    ensures schedule == (!Ended(seen) && Idle(seen)) && notify == (!Ended(seen) && seen.awaiter)
    ensures schedule ==> HandleCancelled(seen, AsWritten).refs == seen.refs
  {
    var decide := (w: Word) =>
      if Ended(w) then None
      else if w.scheduled || w.running then Some(w.(scheduled := true, closed := true, refs := w.refs + 1))
      else Some(w.(closed := true));
    assert forall w :: Outcome(decide, w) == HandleCancelled(w, AsWritten);
    var got := ExchangeLoop(state, decide, before, env);
    seen := got;
    schedule := !Ended(got) && !got.scheduled && !got.running;
    notify := !Ended(got) && got.awaiter;
  }

  /** `RawProc::clone_waker`: the count goes up, and the process aborts if it was past 2^31 - 1. */
  method CloneWaker(state: AtomicState, ghost before: Word) returns (abort: bool)
    requires state.Holds(before) && Roomy(before)
    modifies state
    ensures state.Holds(before.(refs := before.refs + 1))
    ensures abort <==> before.refs >= 0x8000_0000
  {
    hide Encode;
    var seen := state.AddOne(before);
    abort := seen.refs > 0x7fff_ffff;
  }

  /** One pass of the loop in `ProcHandle::drop`: take the output of a completed proc, or give up
      the HANDLE flag and then schedule or destroy a proc without references. */
  method DropHandlePass(state: AtomicState, ghost before: Word, env: seq<Attempt>)
    returns (ghost seen: Word, takeOutput: bool, schedule: bool, destroy: bool)
    requires state.Holds(before) && Roomy(before) && RoomyEnv(env)
    modifies state
    ensures Met(before, env, seen)
    ensures takeOutput == (seen.completed && !seen.closed)
    ensures state.Holds(if takeOutput then Closed(seen) else HandleDropped(seen))
    ensures schedule == (!takeOutput && seen.refs == 0 && !seen.closed)
    ensures destroy == (!takeOutput && seen.refs == 0 && seen.closed)
  {
    var decide := (w: Word) => Some(if w.completed && !w.closed then Closed(w) else HandleDropped(w));
    var got := ExchangeLoop(state, decide, before, env);
    seen := got;
    takeOutput := got.completed && !got.closed;
    schedule := !takeOutput && got.refs == 0 && !got.closed;
    destroy := !takeOutput && got.refs == 0 && got.closed;
  }

  /** `RawProc::decrement`: whether the proc has to be destroyed. */
  method Decrement(state: AtomicState, ghost before: Word) returns (destroy: bool)
    requires state.Holds(before) && before.refs > 0
    modifies state
    ensures state.Holds(Decremented(before))
    ensures destroy == LastReference(before)
  {
    hide Encode;
    var seen := state.SubOne(before);
    var refs := if seen.refs > 0 then seen.refs - 1 else 0;
    destroy := refs == 0 && !seen.handle;
  }
}
