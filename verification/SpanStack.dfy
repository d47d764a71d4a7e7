/** The per-thread stack of entered spans: runtime/console/src/stack.rs. */
module SpanStack {

  type Id = nat

  datatype ContextId = ContextId(id: Id, duplicate: bool)

  /** Every entry is marked duplicate exactly when an earlier entry has the same id. */
  predicate Marked(stack: seq<ContextId>) {
    forall i :: 0 <= i < |stack| ==> (stack[i].duplicate <==> Occurs(stack[..i], stack[i].id))
  }

  predicate Occurs(stack: seq<ContextId>, id: Id) {
    exists i :: 0 <= i < |stack| && stack[i].id == id
  }

  /** The ids in the order they were entered. */
  function Entered(stack: seq<ContextId>): (ids: seq<Id>)
    ensures |ids| == |stack|
    ensures forall i :: 0 <= i < |stack| ==> ids[i] == stack[i].id
  {
    if stack == [] then [] else Entered(stack[..|stack| - 1]) + [stack[|stack| - 1].id]
  }

  /** `iter`: the entries that are not marked. */
  function Listed(stack: seq<ContextId>): seq<Id> {
    if stack == [] then []
    else
      var last := stack[|stack| - 1];
      var front := Listed(stack[..|stack| - 1]);
      if last.duplicate then front else front + [last.id]
  }

  /** Each id of a list once, in the order of first occurrence. */
  function FirstOccurrences(ids: seq<Id>): seq<Id> {
    if ids == [] then []
    else
      var rest, last := ids[..|ids| - 1], ids[|ids| - 1];
      if last in rest then FirstOccurrences(rest) else FirstOccurrences(rest) + [last]
  }

  class Stack {
    var stack: seq<ContextId>

    constructor ()
      ensures stack == [] && Marked(stack)
    {
      stack := [];
    }

    /** Enters a span; true when it was not on the stack before. */
    method Push(id: Id) returns (isNew: bool)
      requires Marked(stack)
      modifies this
      ensures Marked(stack)
      ensures Entered(stack) == old(Entered(stack)) + [id]
      ensures isNew == !Occurs(old(stack), id)
    {
      var duplicate := false;
      var i := 0;
      while i < |stack|
        invariant 0 <= i <= |stack| && stack == old(stack)
        invariant duplicate <==> Occurs(stack[..i], id)
      {
        assert stack[..i + 1] == stack[..i] + [stack[i]];
        if stack[i].id == id {
          duplicate := true;
          assert stack[..i + 1][i].id == id;
        } else {
          assert duplicate ==> Occurs(stack[..i + 1], id) by {
            if duplicate {
              var k :| 0 <= k < i && stack[..i][k].id == id;
              assert stack[..i + 1][k].id == id;
            }
          }
        }
        i := i + 1;
      }
      assert stack[..|stack|] == stack;
      var before := stack;
      stack := stack + [ContextId(id, duplicate)];
      PushMarks(before, ContextId(id, duplicate));
      assert stack[..|stack| - 1] == before;
      isNew := !duplicate;
    }

    /** Leaves a span, wherever on the stack it is; true when it was there and has now fully left. */
    method Pop(id: Id) returns (left: bool)
      requires Marked(stack)
      modifies this
      ensures Marked(stack)
      ensures left <==> Occurs(old(stack), id) && !Occurs(stack, id)
      ensures Occurs(old(stack), id) ==>
                exists k :: 0 <= k < |old(stack)| && old(stack)[k].id == id
                            && !Occurs(old(stack)[k + 1..], id)
                            && stack == old(stack)[..k] + old(stack)[k + 1..]
      ensures !Occurs(old(stack), id) ==> stack == old(stack)
    {
      var k := |stack|;
      while k > 0 && stack[k - 1].id != id
        invariant 0 <= k <= |stack| && stack == old(stack)
        invariant forall i :: k <= i < |stack| ==> stack[i].id != id
      {
        k := k - 1;
      }
      if k == 0 {
        left := false;
        return;
      }
      k := k - 1;
      left := !stack[k].duplicate;
      var before := stack;
      stack := stack[..k] + stack[k + 1..];
      PopMarks(before, k);
      PopLeaves(before, k);
    }
  }

  lemma PushMarks(stack: seq<ContextId>, c: ContextId)
    requires Marked(stack) && (c.duplicate <==> Occurs(stack, c.id))
    ensures Marked(stack + [c])
  {
    var t := stack + [c];
    forall i | 0 <= i < |t| ensures t[i].duplicate <==> Occurs(t[..i], t[i].id) {
      assert t[..i] == stack[..i];
      assert stack[..|stack|] == stack;
    }
  }

  /** Whether another id occurs is not changed by taking entry `k` out. */
  lemma OccursWithout(stack: seq<ContextId>, k: nat, id: Id)
    requires k < |stack| && stack[k].id != id
    ensures Occurs(stack[..k] + stack[k + 1..], id) <==> Occurs(stack, id)
  {
    var t := stack[..k] + stack[k + 1..];
    if Occurs(t, id) {
      var j :| 0 <= j < |t| && t[j].id == id;
      assert stack[if j < k then j else j + 1].id == id;
    }
    if Occurs(stack, id) {
      var j :| 0 <= j < |stack| && stack[j].id == id;
      assert t[if j < k then j else j - 1].id == id;
    }
  }

  /** Removing the last entry of an id changes no other entry's mark. */
  lemma PopMarks(stack: seq<ContextId>, k: nat)
    requires Marked(stack) && k < |stack|
    requires forall i :: k < i < |stack| ==> stack[i].id != stack[k].id
    ensures Marked(stack[..k] + stack[k + 1..])
  {
    var t := stack[..k] + stack[k + 1..];
    hide Occurs;
    forall i | 0 <= i < |t| ensures t[i].duplicate <==> Occurs(t[..i], t[i].id) {
      if i < k {
        assert t[..i] == stack[..i];
      } else {
        assert t[i] == stack[i + 1];
        var before := stack[..i + 1];
        OccursWithout(before, k, t[i].id);
        assert t[..i] == before[..k] + before[k + 1..];
      }
    }
  }

  lemma PopLeaves(stack: seq<ContextId>, k: nat)
    requires Marked(stack) && k < |stack|
    requires forall i :: k < i < |stack| ==> stack[i].id != stack[k].id
    ensures stack[k].duplicate <==> Occurs(stack[..k] + stack[k + 1..], stack[k].id)
    ensures Occurs(stack, stack[k].id) && !Occurs(stack[k + 1..], stack[k].id)
  {
    var t := stack[..k] + stack[k + 1..];
    if Occurs(stack[..k], stack[k].id) {
      var j :| 0 <= j < k && stack[..k][j].id == stack[k].id;
      assert t[j].id == stack[k].id;
    }
    if Occurs(t, stack[k].id) {
      var j :| 0 <= j < |t| && t[j].id == stack[k].id;
      assert j < k && stack[..k][j].id == stack[k].id;
    }
  }

  lemma ListedSnoc(stack: seq<ContextId>, c: ContextId)
    ensures Listed(stack + [c]) == if c.duplicate then Listed(stack) else Listed(stack) + [c.id]
    ensures Entered(stack + [c]) == Entered(stack) + [c.id]
  {
    assert (stack + [c])[..|stack|] == stack;
  }

  lemma FirstSnoc(ids: seq<Id>, id: Id)
    ensures FirstOccurrences(ids + [id]) == if id in ids then FirstOccurrences(ids) else FirstOccurrences(ids) + [id]
  {
    assert (ids + [id])[..|ids|] == ids;
  }

  lemma MarkedPrefix(stack: seq<ContextId>, n: nat)
    requires Marked(stack) && n <= |stack|
    ensures Marked(stack[..n])
  {
    forall i | 0 <= i < n ensures stack[..n][i].duplicate <==> Occurs(stack[..n][..i], stack[..n][i].id) {
      assert stack[..n][..i] == stack[..i];
    }
  }

  lemma OccursIsEntered(stack: seq<ContextId>, id: Id)
    ensures Occurs(stack, id) <==> id in Entered(stack)
  {
    if Occurs(stack, id) {
      var j :| 0 <= j < |stack| && stack[j].id == id;
      assert Entered(stack)[j] == id;
    }
  }

  /** `iter` lists every span on the stack once, in the order of first entry. */
  lemma {:induction false} ListsFirstOccurrences(stack: seq<ContextId>)
    requires Marked(stack)
    ensures Listed(stack) == FirstOccurrences(Entered(stack))
  {
    if stack != [] {
      var n := |stack| - 1;
      var rest, last := stack[..n], stack[n];
      assert stack == rest + [last];
      MarkedPrefix(stack, n);
      ListsFirstOccurrences(rest);
      OccursIsEntered(rest, last.id);
      hide Listed, Entered, FirstOccurrences, Occurs;
      ListedSnoc(rest, last);
      FirstSnoc(Entered(rest), last.id);
    }
  }
}
