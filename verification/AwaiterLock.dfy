/** The spin lock around the awaiter cell (runtime/lightproc/src/proc_data.rs). As written, the
    loop leaves when the flag was already set; the comment says it leaves when it was not. */
module AwaiterLock {
  import opened StateWord
  import opened AtomicLoops
  import opened Wrappers

  const NOTHING: Word := Word(false, false, false, false, false, false, false, 0)
  const EVERYTHING: Word := Word(true, true, true, true, true, true, true, 0)

  /** The cell, with the word that guards it. */
  class AwaiterCell {
    const state: AtomicState
    var awaiter: Option<nat>

    constructor (state: AtomicState)
      ensures this.state == state && awaiter == None
    {
      this.state := state;
      awaiter := None;
    }

    /** `swap_awaiter` as written, while no other call to it overlaps: one atomic swap of the
        cell that also moves the AWAITER flag, after exactly two rounds of the loop. */
    method Swap(next: Option<nat>, ghost w: Word) returns (previous: Option<nat>, ghost rounds: nat)
      requires state.Holds(w) && !w.locked
      modifies this, state
      ensures previous == old(awaiter) && awaiter == next
      ensures state.Holds(w.(awaiter := next.Some?))
      ensures rounds == 2
    {
      hide Encode;
      var take := NOTHING.(locked := true, awaiter := next.Some?);
      ghost var cur := w;
      rounds := 0;
      while true
        invariant rounds <= 1 && awaiter == old(awaiter)
        invariant state.Holds(cur)
        invariant cur == if rounds == 0 then w else Union(w, take)
        decreases 2 - rounds
      {
        var seen := state.SetFlags(take, cur);
        cur := Union(cur, take);
        rounds := rounds + 1;
        if seen.locked {
          break;
        }
      }
      previous := awaiter;
      awaiter := next;
      var keep := EVERYTHING.(locked := false, awaiter := next.Some?);
      assert cur == Union(w, take);
      assert Meet(cur, keep) == w.(awaiter := next.Some?);
      var _ := state.KeepFlags(keep, cur);
    }
  }

  // ----- several calls at once

  datatype Test = AsWritten | AsCommented

  /** One call: in the acquire loop, between the loop and the release, or finished. */
  datatype Caller = Trying | Inside | Done

  datatype Lock = Lock(locked: bool, callers: seq<Caller>)

  /** The next atomic operation of call `i`: one `fetch_or`, or the releasing `fetch_and`. */
  function Act(l: Lock, i: nat, test: Test): Lock
    requires i < |l.callers|
  {
    match l.callers[i]
    case Trying =>
      var enters := if test == AsWritten then l.locked else !l.locked;
      Lock(true, if enters then l.callers[i := Inside] else l.callers)
    case Inside => Lock(false, l.callers[i := Done])
    case Done => l
  }

  function Acts(l: Lock, who: seq<nat>, test: Test): Lock
    requires forall k :: 0 <= k < |who| ==> who[k] < |l.callers|
    ensures |Acts(l, who, test).callers| == |l.callers|
    decreases |who|
  {
    if who == [] then l else Acts(Act(l, who[0], test), who[1..], test)
  }

  predicate Exclusive(l: Lock) {
    forall i, j :: 0 <= i < j < |l.callers| ==> !(l.callers[i] == Inside && l.callers[j] == Inside)
  }

  predicate SomeoneInside(l: Lock) { exists i :: 0 <= i < |l.callers| && l.callers[i] == Inside }

  /** With the test as commented, any number of calls in any interleaving exclude each other. */
  lemma {:induction false} CommentedExcludes(l: Lock, who: seq<nat>)
    requires forall k :: 0 <= k < |who| ==> who[k] < |l.callers|
    requires Exclusive(l) && (l.locked <==> SomeoneInside(l))
    ensures Exclusive(Acts(l, who, AsCommented))
    decreases |who|
  {
    if who == [] {
    } else {
      var m := Act(l, who[0], AsCommented);
      if l.callers[who[0]] == Trying && !l.locked {
        assert m.callers[who[0]] == Inside;
      } else if l.callers[who[0]] == Inside {
        assert !SomeoneInside(m);
      } else {
        assert m.callers == l.callers;
      }
      CommentedExcludes(m, who[1..]);
    }
  }

  lemma {:induction false} ActsConcat(l: Lock, a: seq<nat>, b: seq<nat>, test: Test)
    requires forall k :: 0 <= k < |a| ==> a[k] < |l.callers|
    requires forall k :: 0 <= k < |b| ==> b[k] < |l.callers|
    ensures Acts(l, a + b, test) == Acts(Acts(l, a, test), b, test)
    decreases |a|
  {
    if a == [] {
      assert a + b == b;
    } else {
      assert (a + b)[1..] == a[1..] + b;
      ActsConcat(Act(l, a[0], test), a[1..], b, test);
    }
  }

  /** As written, any unfinished call can get in, whoever else is in: at its first round if the flag
      is set, and at its second, having set the flag itself, if not. */
  lemma GetsIn(l: Lock, i: nat) returns (who: seq<nat>)
    requires i < |l.callers| && l.callers[i] != Done
    ensures forall k :: 0 <= k < |who| ==> who[k] == i
    ensures Acts(l, who, AsWritten).callers == l.callers[i := Inside]
  {
    var l1 := Act(l, i, AsWritten);
    assert [i][1..] == [] && [i, i][1..] == [i];
    if l.callers[i] == Inside {
      who := [];
    } else if l.locked {
      who := [i];
      assert Acts(l, who, AsWritten) == Acts(l1, [], AsWritten);
    } else {
      who := [i, i];
      assert Acts(l, who, AsWritten) == Acts(l1, [i], AsWritten);
      assert Acts(l1, [i], AsWritten) == Acts(Act(l1, i, AsWritten), [], AsWritten);
    }
  }

  /** With the test as written, any two unfinished calls can both be in. */
  lemma WrittenAdmitsTwo(l: Lock, i: nat, j: nat) returns (who: seq<nat>)
    requires i < |l.callers| && j < |l.callers| && i != j
    requires l.callers[i] != Done && l.callers[j] != Done
    ensures forall k :: 0 <= k < |who| ==> who[k] < |l.callers|
    ensures !Exclusive(Acts(l, who, AsWritten))
  {
    var a := GetsIn(l, i);
    var m := Acts(l, a, AsWritten);
    var b := GetsIn(m, j);
    who := a + b;
    ActsConcat(l, a, b, AsWritten);
    var e := Acts(m, b, AsWritten);
    assert e.callers[i] == Inside && e.callers[j] == Inside;
  }

  /** As written, exclusion holds in every continuation exactly when the calls do not overlap:
      no two of them are unfinished. */
  predicate NoOverlap(l: Lock) {
    forall i, j :: 0 <= i < j < |l.callers| ==> l.callers[i] == Done || l.callers[j] == Done
  }

  lemma {:induction false} NoOverlapStays(l: Lock, who: seq<nat>)
    requires forall k :: 0 <= k < |who| ==> who[k] < |l.callers|
    requires NoOverlap(l)
    ensures Exclusive(Acts(l, who, AsWritten))
    decreases |who|
  {
    if who == [] {
    } else {
      NoOverlapStays(Act(l, who[0], AsWritten), who[1..]);
    }
  }

  lemma WrittenExcludesExactly(l: Lock)
    ensures (forall who: seq<nat> ::
               (forall k :: 0 <= k < |who| ==> who[k] < |l.callers|) ==> Exclusive(Acts(l, who, AsWritten)))
            <==> NoOverlap(l)
  {
    if NoOverlap(l) {
      forall who: seq<nat> | forall k :: 0 <= k < |who| ==> who[k] < |l.callers|
        ensures Exclusive(Acts(l, who, AsWritten))
      {
        NoOverlapStays(l, who);
      }
    } else {
      var i, j :| 0 <= i < j < |l.callers| && !(l.callers[i] == Done || l.callers[j] == Done);
      var who := WrittenAdmitsTwo(l, i, j);
    }
  }
}
