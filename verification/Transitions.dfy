/** What each compare-exchange of runtime/lightproc makes of the word it replaces. */
module Transitions {
  import opened StateWord

  predicate Ended(w: Word) { w.completed || w.closed }

  predicate Idle(w: Word) { !w.scheduled && !w.running }

  /** `RawProc::wake`. */
  function Woken(w: Word): Word { if Ended(w) || w.scheduled then w else w.(scheduled := true) }

  /** `RawProc::wake_by_ref`: an idle proc also gets a reference for the new `LightProc`. */
  function WokenByRef(w: Word): Word {
    if Ended(w) || w.scheduled then w
    else if w.running then w.(scheduled := true)
    else w.(scheduled := true, refs := w.refs + 1)
  }

  /** Entry of `RawProc::tick` on a proc that is not closed. */
  function Entered(w: Word): Word { w.(scheduled := false, running := true) }

  /** `tick` after `Poll::Ready`: `!(RUNNING & SCHEDULED)` is the full mask, so those two flags stay. */
  function CompletedWord(w: Word): Word { w.(completed := true, closed := w.closed || !w.handle) }

  /** `tick` after `Poll::Pending`. */
  function Parked(w: Word): Word {
    if w.closed then w.(running := false, scheduled := false) else w.(running := false)
  }

  /** CLOSED is set and nothing else: `ProcData::cancel`, `Guard::drop`, and the two
      places where the handle takes the output. */
  function Closed(w: Word): Word { w.(closed := true) }

  /** Which arms `ProcHandle::cancel` uses: those the code has, or those its comments describe. */
  datatype CancelArms = AsWritten | AsCommented

  /** `ProcHandle::cancel`. */
  function HandleCancelled(w: Word, arms: CancelArms): Word {
    if Ended(w) then w
    else if (arms == AsWritten) == Idle(w) then w.(closed := true)
    else w.(scheduled := true, closed := true, refs := w.refs + 1)
  }

  /** `ProcHandle::drop`, the branch that gives up the HANDLE flag. */
  function HandleDropped(w: Word): Word {
    if w.refs == 0 && !w.closed then Word(true, false, false, true, false, false, false, 1)
    else w.(handle := false)
  }

  /** `fetch_sub(1)` on a count that is not zero. */
  function Decremented(w: Word): Word { if w.refs == 0 then w.(refs := TWO32 - 1) else w.(refs := w.refs - 1) }

  /** `decrement` destroys the proc when the count it computes is zero and no handle is left. */
  predicate LastReference(w: Word) { w.refs <= 1 && !w.handle }
}
