/** When the role search ends: bffhd/authorization/roles.rs has no guard against cycles. */
module RoleCycles {
  import opened Wrappers
  import opened Permissions
  import opened Roles

  // ----- cycles

  /** A walk from one of the starting roles that meets a role twice. */
  predicate CyclicWalk(roles: RoleMap, starts: seq<RoleId>, path: seq<RoleId>, i: nat, j: nat) {
    Path(roles, path) && path[0] in starts && i < j < |path| && path[i] == path[j]
  }

  ghost predicate ReachesCycle(roles: RoleMap, starts: seq<RoleId>) {
    exists path, i, j :: CyclicWalk(roles, starts, path, i, j)
  }

  /** The role has arbitrarily long walks above it. */
  ghost predicate Endless(roles: RoleMap, id: RoleId) { forall n: nat :: !Grounded(roles, id, n) }

  lemma {:induction false} LongWalk(roles: RoleMap, id: RoleId, n: nat) returns (path: seq<RoleId>)
    requires !Grounded(roles, id, n)
    ensures Path(roles, path) && path[0] == id && |path| == n + 1
    decreases n
  {
    if n == 0 {
      path := [id];
    } else {
      var p :| p in roles[id].parents && !Grounded(roles, p, n - 1);
      var rest := LongWalk(roles, p, n - 1);
      path := [id] + rest;
    }
  }

  lemma {:induction false} Pigeonhole(path: seq<RoleId>, ids: set<RoleId>) returns (i: nat, j: nat)
    requires |path| > |ids| && forall k :: 0 <= k < |path| ==> path[k] in ids
    ensures i < j < |path| && path[i] == path[j]
    decreases |path|
  {
    var last := |path| - 1;
    assert path[last] in ids;
    if k :| 0 <= k < last && path[k] == path[last] {
      i, j := k, last;
    } else {
      i, j := Pigeonhole(path[..last], ids - {path[last]});
    }
  }

  lemma {:induction false} GroundedAlong(roles: RoleMap, path: seq<RoleId>, k: nat, n: nat)
    requires Path(roles, path) && k < |path| && Grounded(roles, path[0], n)
    ensures k < n && Grounded(roles, path[k], n - k)
  {
    if k > 0 {
      GroundedAlong(roles, path, k - 1, n);
    }
  }

  lemma {:induction false} CycleNotGrounded(roles: RoleMap, loop: seq<RoleId>, n: nat)
    requires Path(roles, loop) && |loop| > 1 && loop[0] == loop[|loop| - 1]
    ensures !Grounded(roles, loop[0], n)
  {
    if Grounded(roles, loop[0], n) {
      GroundedAlong(roles, loop, |loop| - 1, n);
      CycleNotGrounded(roles, loop, n - (|loop| - 1));
    }
  }

  /** The depth of the recursion above a role is unbounded exactly when a cycle is reachable. */
  lemma EndlessIsCycle(roles: RoleMap, id: RoleId)
    ensures Endless(roles, id) <==> ReachesCycle(roles, [id])
  {
    if Endless(roles, id) {
      var path := LongWalk(roles, id, |roles.Keys|);
      var i, j := Pigeonhole(path, roles.Keys);
      assert CyclicWalk(roles, [id], path, i, j);
    }
    if ReachesCycle(roles, [id]) {
      var path, i, j :| CyclicWalk(roles, [id], path, i, j);
      forall n: nat ensures !Grounded(roles, id, n) {
        if Grounded(roles, id, n) {
          GroundedAlong(roles, path, i, n);
          CycleNotGrounded(roles, path[i..j + 1], n - i);
        }
      }
    }
  }

  lemma CycleFromOne(roles: RoleMap, starts: seq<RoleId>)
    ensures ReachesCycle(roles, starts) <==> exists id :: id in starts && ReachesCycle(roles, [id])
  {
    if ReachesCycle(roles, starts) {
      var path, i, j :| CyclicWalk(roles, starts, path, i, j);
      assert CyclicWalk(roles, [path[0]], path, i, j);
    }
    if id :| id in starts && ReachesCycle(roles, [id]) {
      var path, i, j :| CyclicWalk(roles, [id], path, i, j);
      assert CyclicWalk(roles, starts, path, i, j);
    }
  }

  lemma {:induction false} EndlessParent(roles: RoleMap, id: RoleId)
    ensures Endless(roles, id) <==> id in roles && exists p :: p in roles[id].parents && Endless(roles, p)
  {
    if id !in roles {
      assert Grounded(roles, id, 0);
    } else {
      if p :| p in roles[id].parents && Endless(roles, p) {
        forall n: nat ensures !Grounded(roles, id, n) {
          if n > 0 {
            assert !Grounded(roles, p, n - 1);
          }
        }
      }
      if forall p :: p in roles[id].parents ==> !Endless(roles, p) {
        var n := CommonBound(roles, roles[id].parents);
        assert Grounded(roles, id, n + 1);
      }
    }
  }

  lemma {:induction false} CommonBound(roles: RoleMap, ids: seq<RoleId>) returns (n: nat)
    requires forall p :: p in ids ==> !Endless(roles, p)
    ensures AllGrounded(roles, ids, n)
  {
    n := 0;
    if ids != [] {
      var m := CommonBound(roles, ids[1..]);
      assert ids[0] in ids;
      var k: nat :| Grounded(roles, ids[0], k);
      n := if m < k then k else m;
      forall p | p in ids ensures Grounded(roles, p, n) {
        if p == ids[0] {
          GroundedMore(roles, p, k, n);
        } else {
          assert p in ids[1..];
          GroundedMore(roles, p, m, n);
        }
      }
    }
  }

  // ----- more fuel changes nothing

  lemma {:induction false} TallyMore(roles: RoleMap, seen: set<RoleId>, id: RoleId, perm: Permission, f: nat, g: nat)
    requires f <= g && Tally(roles, seen, id, perm, f).Some?
    ensures Tally(roles, seen, id, perm, g) == Tally(roles, seen, id, perm, f)
    decreases f, 0
  {
    if id in roles && id !in seen && !Matches(roles[id], perm) {
      TallyAllMore(roles, seen, roles[id].parents, perm, f - 1, g - 1);
    }
  }

  lemma {:induction false} TallyAllMore(roles: RoleMap, seen: set<RoleId>, ids: seq<RoleId>, perm: Permission, f: nat, g: nat)
    requires f <= g && TallyAll(roles, seen, ids, perm, f).Some?
    ensures TallyAll(roles, seen, ids, perm, g) == TallyAll(roles, seen, ids, perm, f)
    decreases f, 1, |ids|
  {
    if ids != [] {
      TallyMore(roles, seen, ids[0], perm, f, g);
      var v := Tally(roles, seen, ids[0], perm, f).value;
      if !v.0 {
        TallyAllMore(roles, v.1, ids[1..], perm, f, g);
      }
    }
  }

  lemma {:induction false} EndsWhenGrounded(roles: RoleMap, seen: set<RoleId>, id: RoleId, perm: Permission, n: nat)
    requires Grounded(roles, id, n)
    ensures Tally(roles, seen, id, perm, n).Some?
    decreases n, 0
  {
    if id in roles && id !in seen {
      EndsAllWhenGrounded(roles, seen, roles[id].parents, perm, n - 1);
    }
  }

  lemma {:induction false} EndsAllWhenGrounded(roles: RoleMap, seen: set<RoleId>, ids: seq<RoleId>, perm: Permission, n: nat)
    requires AllGrounded(roles, ids, n)
    ensures TallyAll(roles, seen, ids, perm, n).Some?
    decreases n, 1, |ids|
  {
    if ids != [] {
      EndsWhenGrounded(roles, seen, ids[0], perm, n);
      var r := Tally(roles, seen, ids[0], perm, n);
      EndsAllWhenGrounded(roles, r.value.1, ids[1..], perm, n);
    }
  }

  // ----- the way the search goes

  /** A role the search does not simply leave again: one that is granted the permission, or from
      which a cycle is reachable. */
  ghost predicate Holding(roles: RoleMap, id: RoleId, perm: Permission) {
    Permitted(roles, [id], perm) || ReachesCycle(roles, [id])
  }

  /** `id` is the first such role of the list. */
  ghost predicate FirstHolding(roles: RoleMap, ids: seq<RoleId>, perm: Permission, id: RoleId) {
    exists i :: 0 <= i < |ids| && ids[i] == id && Holding(roles, id, perm)
                && forall k :: 0 <= k < i ==> !Holding(roles, ids[k], perm)
  }

  /** The walk that takes the first such role at every turn, up to a role with a matching rule. */
  ghost predicate StraightToMatch(roles: RoleMap, starts: seq<RoleId>, perm: Permission, path: seq<RoleId>) {
    && Path(roles, path)
    && FirstHolding(roles, starts, perm, path[0])
    && (forall k :: 0 < k < |path| ==> FirstHolding(roles, roles[path[k - 1]].parents, perm, path[k]))
    && Matches(roles[path[|path| - 1]], perm)
  }

  ghost predicate NoneHolding(roles: RoleMap, ids: seq<RoleId>, perm: Permission) {
    forall id :: id in ids ==> !Holding(roles, id, perm)
  }

  /** The roles seen so far are all left behind. */
  ghost predicate SeenLeft(roles: RoleMap, seen: set<RoleId>, perm: Permission) {
    SeenWell(roles, seen, perm) && forall r :: r in seen ==> !Holding(roles, r, perm)
  }

  lemma HoldingParent(roles: RoleMap, id: RoleId, perm: Permission)
    ensures Holding(roles, id, perm) ==> id in roles
    ensures id in roles && !Matches(roles[id], perm) ==>
              (Holding(roles, id, perm) <==> exists p :: p in roles[id].parents && Holding(roles, p, perm))
    ensures id in roles && Matches(roles[id], perm) ==> Holding(roles, id, perm)
  {
    hide Permitted, ReachesCycle, Endless, Matches;
    EndlessIsCycle(roles, id);
    EndlessParent(roles, id);
    if id in roles {
      forall p | p in roles[id].parents ensures Endless(roles, p) <==> ReachesCycle(roles, [p]) {
        EndlessIsCycle(roles, p);
      }
      if Matches(roles[id], perm) {
        PermittedSelf(roles, id, perm);
      } else {
        PermittedAbove(roles, id, perm);
        PermittedAmong(roles, roles[id].parents, perm);
      }
    } else {
      UndefinedIsNot(roles, id, perm);
    }
  }

  lemma UndefinedIsNot(roles: RoleMap, id: RoleId, perm: Permission)
    requires id !in roles
    ensures !Permitted(roles, [id], perm)
  {
  }

  /** Where the search ends, it left every role, or went straight to a match. */
  lemma {:induction false} EndedHow(roles: RoleMap, seen: set<RoleId>, id: RoleId, perm: Permission, fuel: nat)
    returns (path: seq<RoleId>)
    requires SeenLeft(roles, seen, perm) && Tally(roles, seen, id, perm, fuel).Some?
    ensures Holding(roles, id, perm) ==> StraightToMatch(roles, [id], perm, path)
    ensures Holding(roles, id, perm) <==> Tally(roles, seen, id, perm, fuel).value.0
    ensures !Holding(roles, id, perm) ==> SeenLeft(roles, Tally(roles, seen, id, perm, fuel).value.1, perm)
    decreases fuel, 0
  {
    hide Holding, SeenWell, Matches, FirstHolding;
    HoldingParent(roles, id, perm);
    TallyCorrect(roles, seen, id, perm, fuel);
    path := [];
    if id in roles && id !in seen {
      if Matches(roles[id], perm) {
        path := [id];
        FirstOfOne(roles, id, perm);
      } else {
        var parents := roles[id].parents;
        var rest := EndedHowAll(roles, seen, parents, perm, fuel - 1);
        if Holding(roles, id, perm) {
          path := [id] + rest;
          FirstOfOne(roles, id, perm);
          StraightFurther(roles, id, perm, rest);
        }
      }
    }
  }

  lemma FirstOfOne(roles: RoleMap, id: RoleId, perm: Permission)
    requires Holding(roles, id, perm)
    ensures FirstHolding(roles, [id], perm, id)
  {
    assert [id][0] == id;
  }

  lemma StraightFurther(roles: RoleMap, id: RoleId, perm: Permission, rest: seq<RoleId>)
    requires id in roles && Holding(roles, id, perm) && StraightToMatch(roles, roles[id].parents, perm, rest)
    ensures StraightToMatch(roles, [id], perm, [id] + rest)
  {
    hide Holding, Matches;
    var path := [id] + rest;
    FirstOfOne(roles, id, perm);
    FirstIsIn(roles, roles[id].parents, perm, rest[0]);
    forall k | 0 < k < |path|
      ensures path[k] in roles[path[k - 1]].parents && FirstHolding(roles, roles[path[k - 1]].parents, perm, path[k])
    {
      assert path[k] == rest[k - 1];
    }
  }

  lemma FirstIsIn(roles: RoleMap, ids: seq<RoleId>, perm: Permission, id: RoleId)
    requires FirstHolding(roles, ids, perm, id)
    ensures id in ids
  {
  }

  lemma {:induction false} EndedHowAll(roles: RoleMap, seen: set<RoleId>, ids: seq<RoleId>, perm: Permission, fuel: nat)
    returns (path: seq<RoleId>)
    requires SeenLeft(roles, seen, perm) && TallyAll(roles, seen, ids, perm, fuel).Some?
    ensures !NoneHolding(roles, ids, perm) ==> StraightToMatch(roles, ids, perm, path)
    ensures NoneHolding(roles, ids, perm) <==> !TallyAll(roles, seen, ids, perm, fuel).value.0
    ensures NoneHolding(roles, ids, perm) ==> SeenLeft(roles, TallyAll(roles, seen, ids, perm, fuel).value.1, perm)
    decreases fuel, 1, |ids|
  {
    hide Holding, SeenWell, Matches, Tally;
    path := [];
    if ids != [] {
      var first := EndedHow(roles, seen, ids[0], perm, fuel);
      assert ids[0] in ids;
      if Holding(roles, ids[0], perm) {
        path := first;
        assert first[0] == ids[0] && FirstHolding(roles, ids, perm, ids[0]);
      } else {
        path := EndedHowAll(roles, Tally(roles, seen, ids[0], perm, fuel).value.1, ids[1..], perm, fuel);
        assert ids == [ids[0]] + ids[1..];
        assert NoneHolding(roles, ids, perm) <==> NoneHolding(roles, ids[1..], perm);
        if !NoneHolding(roles, ids, perm) {
          SkipFirst(roles, ids, perm, path[0]);
        }
      }
    }
  }

  lemma SkipFirst(roles: RoleMap, ids: seq<RoleId>, perm: Permission, id: RoleId)
    requires ids != [] && !Holding(roles, ids[0], perm)
    ensures FirstHolding(roles, ids, perm, id) <==> FirstHolding(roles, ids[1..], perm, id)
  {
    hide Holding;
    var rest := ids[1..];
    if FirstHolding(roles, rest, perm, id) {
      var i :| 0 <= i < |rest| && rest[i] == id && Holding(roles, id, perm)
               && forall k :: 0 <= k < i ==> !Holding(roles, rest[k], perm);
      forall k | 0 <= k < i + 1 ensures !Holding(roles, ids[k], perm) {
        if k > 0 {
          assert ids[k] == rest[k - 1];
        }
      }
      assert ids[i + 1] == id;
    }
    if FirstHolding(roles, ids, perm, id) {
      var i :| 0 <= i < |ids| && ids[i] == id && Holding(roles, id, perm)
               && forall k :: 0 <= k < i ==> !Holding(roles, ids[k], perm);
      assert rest[i - 1] == id && forall k :: 0 <= k < i - 1 ==> rest[k] == ids[k + 1];
    }
  }

  /** A straight way to a match is found within as many open calls as it is long, and as the roles
      beside it need. */
  lemma {:induction false} StraightEnds(roles: RoleMap, seen: set<RoleId>, ids: seq<RoleId>, perm: Permission, path: seq<RoleId>)
    returns (fuel: nat)
    requires SeenLeft(roles, seen, perm) && StraightToMatch(roles, ids, perm, path)
    ensures TallyAll(roles, seen, ids, perm, fuel).Some?
    decreases |path|, |ids|
  {
    hide Holding, SeenWell, Matches;
    assert FirstHolding(roles, ids, perm, path[0]);
    FirstIsIn(roles, ids, perm, path[0]);
    if !Holding(roles, ids[0], perm) {
      var n := LeftBehind(roles, seen, ids[0], perm);
      var v := Tally(roles, seen, ids[0], perm, n).value;
      SkipFirst(roles, ids, perm, path[0]);
      var m := StraightEnds(roles, v.1, ids[1..], perm, path);
      fuel := n + m;
      TallyMore(roles, seen, ids[0], perm, n, fuel);
      TallyAllMore(roles, v.1, ids[1..], perm, m, fuel);
    } else {
      FirstIsFirst(roles, ids, perm, path[0]);
      HoldingParent(roles, ids[0], perm);
      if |path| == 1 || Matches(roles[ids[0]], perm) {
        fuel := 1;
      } else {
        var parents := roles[ids[0]].parents;
        StraightRest(roles, ids, perm, path);
        var m := StraightEnds(roles, seen, parents, perm, path[1..]);
        fuel := m + 1;
        assert Tally(roles, seen, ids[0], perm, fuel).Some?;
        var _ := EndedHow(roles, seen, ids[0], perm, fuel);
      }
    }
  }

  lemma StraightRest(roles: RoleMap, ids: seq<RoleId>, perm: Permission, path: seq<RoleId>)
    requires StraightToMatch(roles, ids, perm, path) && |path| > 1
    ensures StraightToMatch(roles, roles[path[0]].parents, perm, path[1..])
  {
    hide Holding, Matches, FirstHolding;
    var rest := path[1..];
    assert rest[0] == path[1];
    forall k | 0 < k < |rest|
      ensures rest[k] in roles[rest[k - 1]].parents && FirstHolding(roles, roles[rest[k - 1]].parents, perm, rest[k])
    {
      assert rest[k] == path[k + 1] && rest[k - 1] == path[k];
    }
  }

  lemma FirstIsFirst(roles: RoleMap, ids: seq<RoleId>, perm: Permission, id: RoleId)
    requires FirstHolding(roles, ids, perm, id) && ids != [] && Holding(roles, ids[0], perm)
    ensures id == ids[0]
  {
  }

  lemma LeftBehind(roles: RoleMap, seen: set<RoleId>, id: RoleId, perm: Permission) returns (n: nat)
    requires SeenLeft(roles, seen, perm) && !Holding(roles, id, perm)
    ensures Tally(roles, seen, id, perm, n).Some?
    ensures !Tally(roles, seen, id, perm, n).value.0 && SeenLeft(roles, Tally(roles, seen, id, perm, n).value.1, perm)
  {
    EndlessIsCycle(roles, id);
    n :| Grounded(roles, id, n);
    hide *;
    EndsWhenGrounded(roles, seen, id, perm, n);
    var _ := EndedHow(roles, seen, id, perm, n);
  }

  ghost predicate Ends(roles: RoleMap, starts: seq<RoleId>, perm: Permission) {
    exists n: nat :: Answers(roles, starts, perm, n)
  }

  /** The search from a list of roles ends if and only if it can leave all of them, or the first
      role it cannot leave, and so on from parent to parent, leads straight to a matching rule. */
  lemma EndsExactly(roles: RoleMap, starts: seq<RoleId>, perm: Permission)
    ensures Ends(roles, starts, perm) <==>
            NoneHolding(roles, starts, perm) || exists path :: StraightToMatch(roles, starts, perm, path)
  {
    hide Holding, StraightToMatch, TallyAll;
    if n: nat :| Answers(roles, starts, perm, n) {
      var path := EndedHowAll(roles, {}, starts, perm, n);
    }
    if path :| StraightToMatch(roles, starts, perm, path) {
      var n := StraightEnds(roles, {}, starts, perm, path);
      assert Answers(roles, starts, perm, n);
    }
    if NoneHolding(roles, starts, perm) {
      LeavesNoneHolding(roles, starts, perm);
    }
  }

  lemma LeavesNoneHolding(roles: RoleMap, starts: seq<RoleId>, perm: Permission)
    requires NoneHolding(roles, starts, perm)
    ensures Ends(roles, starts, perm)
  {
    hide ReachesCycle, Ends;
    forall id | id in starts ensures !ReachesCycle(roles, [id]) {
      assert !Holding(roles, id, perm);
    }
    LeavesAll(roles, starts, perm);
  }

  lemma LeavesAll(roles: RoleMap, starts: seq<RoleId>, perm: Permission)
    requires forall id :: id in starts ==> !ReachesCycle(roles, [id])
    ensures Ends(roles, starts, perm)
  {
    hide ReachesCycle;
    forall id | id in starts ensures !Endless(roles, id) {
      EndlessIsCycle(roles, id);
    }
    var n := CommonBound(roles, starts);
    EndsAllWhenGrounded(roles, {}, starts, perm, n);
    assert Answers(roles, starts, perm, n);
  }

  /** Without a reachable cycle every search ends; and for a permission that is not granted it ends
      only then. */
  lemma EndsWithoutCycle(roles: RoleMap, starts: seq<RoleId>, perm: Permission)
    ensures !ReachesCycle(roles, starts) ==> Ends(roles, starts, perm)
    ensures !Permitted(roles, starts, perm) ==> (Ends(roles, starts, perm) <==> !ReachesCycle(roles, starts))
  {
    CycleFromOne(roles, starts);
    PermittedAmong(roles, starts, perm);
    EndsExactly(roles, starts, perm);
    if !ReachesCycle(roles, starts) {
      LeavesAll(roles, starts, perm);
    }
    if path :| StraightToMatch(roles, starts, perm, path) {
      StraightIsGranted(roles, starts, perm, path);
    }
  }

  lemma StraightIsGranted(roles: RoleMap, starts: seq<RoleId>, perm: Permission, path: seq<RoleId>)
    requires StraightToMatch(roles, starts, perm, path)
    ensures Permitted(roles, starts, perm)
  {
    FirstIsIn(roles, starts, perm, path[0]);
    assert Leads(roles, path, starts, path[|path| - 1]);
    assert Reachable(roles, starts, path[|path| - 1]);
  }

  /** The depth that `tally_role` and `collect_permrules` need is bounded exactly when no cycle is reachable. */
  lemma BoundedExactly(roles: RoleMap, starts: seq<RoleId>)
    ensures (exists n: nat :: AllGrounded(roles, starts, n)) <==> !ReachesCycle(roles, starts)
  {
    hide ReachesCycle;
    CycleFromOne(roles, starts);
    forall id | id in starts ensures Endless(roles, id) <==> ReachesCycle(roles, [id]) {
      EndlessIsCycle(roles, id);
    }
    if !ReachesCycle(roles, starts) {
      var n := CommonBound(roles, starts);
    }
  }

  /** A graph whose parents have smaller rank has no cycle. */
  lemma RankHasNoCycle(roles: RoleMap, rank: map<RoleId, nat>, starts: seq<RoleId>)
    requires forall r :: r in roles ==> r in rank
    requires forall r, p :: r in roles && p in roles[r].parents && p in roles ==> rank[p] < rank[r]
    ensures !ReachesCycle(roles, starts)
  {
    CycleFromOne(roles, starts);
    forall id | id in starts ensures !ReachesCycle(roles, [id]) {
      RankGrounds(roles, rank, id);
      EndlessIsCycle(roles, id);
    }
  }

  /** The order of the parents decides: beside a matching parent, a cycle is harmless after it and
      endless before it. */
  lemma OrderMatters(a: RoleId, b: RoleId, perm: Permission)
    requires a != b
    ensures var grant := Role([], [Base(perm)]);
            && Ends(map[a := Role([b, a], []), b := grant], [a], perm)
            && !Ends(map[a := Role([a, b], []), b := grant], [a], perm)
            && Permitted(map[a := Role([a, b], []), b := grant], [a], perm)
  {
    var grant := Role([], [Base(perm)]);
    assert MatchPerm(grant.permissions[0], perm);
    var good := map[a := Role([b, a], []), b := grant];
    assert Tally(good, {}, b, perm, 1) == Some((true, {}));
    assert TallyAll(good, {}, [b, a], perm, 1) == Some((true, {}));
    assert Tally(good, {}, a, perm, 2) == Some((true, {}));
    assert Answers(good, [a], perm, 2);
    var bad := map[a := Role([a, b], []), b := grant];
    forall n: nat ensures !Answers(bad, [a], perm, n) {
      SelfParent(bad, a, perm, n);
    }
    ReachSelf(bad, b);
    PermittedSelf(bad, b, perm);
    ThroughParent(bad, a, b, perm);
  }

  lemma {:induction false} SelfParent(roles: RoleMap, a: RoleId, perm: Permission, n: nat)
    requires a in roles && !Matches(roles[a], perm) && roles[a].parents != [] && roles[a].parents[0] == a
    ensures Tally(roles, {}, a, perm, n) == None
  {
    if n > 0 {
      SelfParent(roles, a, perm, n - 1);
    }
  }
}
