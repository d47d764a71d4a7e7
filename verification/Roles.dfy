/** The role graph and its search: bffhd/authorization/roles.rs. */
module Roles {
  import opened Wrappers
  import opened Permissions

  type RoleId = string

  datatype Role = Role(parents: seq<RoleId>, permissions: seq<PermRule>)

  type RoleMap = map<RoleId, Role>

  // ----- what is meant

  /** A walk from role to parent over defined roles. */
  predicate Path(roles: RoleMap, path: seq<RoleId>) {
    && |path| > 0
    && (forall i :: 0 <= i < |path| ==> path[i] in roles)
    && forall i :: 0 < i < |path| ==> path[i] in roles[path[i - 1]].parents
  }

  predicate Leads(roles: RoleMap, path: seq<RoleId>, starts: seq<RoleId>, end: RoleId) {
    Path(roles, path) && path[0] in starts && path[|path| - 1] == end
  }

  /** `end` is one of the starting roles or an ancestor of one. */
  ghost predicate Reachable(roles: RoleMap, starts: seq<RoleId>, end: RoleId) {
    exists path :: Leads(roles, path, starts, end)
  }

  predicate Matches(role: Role, perm: Permission) {
    exists i :: 0 <= i < |role.permissions| && MatchPerm(role.permissions[i], perm)
  }

  /** Some defined role reachable from the starting roles has a matching rule. */
  ghost predicate Permitted(roles: RoleMap, starts: seq<RoleId>, perm: Permission) {
    exists id :: Reachable(roles, starts, id) && id in roles && Matches(roles[id], perm)
  }

  /** The rule belongs to a reachable role. */
  ghost predicate Holds(roles: RoleMap, starts: seq<RoleId>, rule: PermRule) {
    exists id :: Reachable(roles, starts, id) && id in roles && rule in roles[id].permissions
  }

  /** Permission search and the collected rules agree. */
  lemma PermittedByRules(roles: RoleMap, starts: seq<RoleId>, perm: Permission)
    ensures Permitted(roles, starts, perm) <==>
            exists rule :: Holds(roles, starts, rule) && MatchPerm(rule, perm)
  {
    if Permitted(roles, starts, perm) {
      var id :| Reachable(roles, starts, id) && id in roles && Matches(roles[id], perm);
      var i :| 0 <= i < |roles[id].permissions| && MatchPerm(roles[id].permissions[i], perm);
      assert roles[id].permissions[i] in roles[id].permissions;
      assert Holds(roles, starts, roles[id].permissions[i]);
    }
    if rule :| Holds(roles, starts, rule) && MatchPerm(rule, perm) {
      var id :| Reachable(roles, starts, id) && id in roles && rule in roles[id].permissions;
      var i :| 0 <= i < |roles[id].permissions| && roles[id].permissions[i] == rule;
      assert Matches(roles[id], perm);
    }
  }

  // ----- termination: no walk from the role is longer than `n`

  ghost predicate Grounded(roles: RoleMap, id: RoleId, n: nat)
    decreases n
  {
    id in roles ==> n > 0 && forall p :: p in roles[id].parents ==> Grounded(roles, p, n - 1)
  }

  /** On an acyclic graph, one whose parents have smaller rank, every role is grounded. */
  lemma {:induction false} RankGrounds(roles: RoleMap, rank: map<RoleId, nat>, id: RoleId)
    requires forall r :: r in roles ==> r in rank
    requires forall r, p :: r in roles && p in roles[r].parents && p in roles ==> rank[p] < rank[r]
    ensures Grounded(roles, id, if id in roles then rank[id] + 1 else 0)
    decreases if id in roles then rank[id] + 1 else 0
  {
    if id in roles {
      forall p | p in roles[id].parents ensures Grounded(roles, p, rank[id]) {
        RankGrounds(roles, rank, p);
        GroundedMore(roles, p, if p in roles then rank[p] + 1 else 0, rank[id]);
      }
    }
  }

  lemma {:induction false} GroundedMore(roles: RoleMap, id: RoleId, n: nat, m: nat)
    requires Grounded(roles, id, n) && n <= m
    ensures Grounded(roles, id, m)
    decreases n
  {
    if id in roles {
      forall p | p in roles[id].parents ensures Grounded(roles, p, m - 1) {
        GroundedMore(roles, p, n - 1, m - 1);
      }
    }
  }

  ghost predicate AllGrounded(roles: RoleMap, ids: seq<RoleId>, n: nat) {
    forall id :: id in ids ==> Grounded(roles, id, n)
  }

  // ----- the seen set

  /** Seen roles have no matching rule, and their defined parents are seen too. */
  ghost predicate SeenWell(roles: RoleMap, seen: set<RoleId>, perm: Permission) {
    forall r :: r in seen ==>
                  && r in roles && !Matches(roles[r], perm)
                  && forall p :: p in roles[r].parents && p in roles ==> p in seen
  }

  lemma {:induction false} WalkStaysSeen(roles: RoleMap, seen: set<RoleId>, perm: Permission, path: seq<RoleId>)
    requires SeenWell(roles, seen, perm) && Path(roles, path) && path[0] in seen
    ensures path[|path| - 1] in seen
    decreases |path|
  {
    if |path| > 1 {
      var front := path[..|path| - 1];
      WalkStaysSeen(roles, seen, perm, front);
    }
  }

  lemma SeenMeansNot(roles: RoleMap, seen: set<RoleId>, starts: seq<RoleId>, perm: Permission)
    requires SeenWell(roles, seen, perm)
    requires forall id :: id in starts && id in roles ==> id in seen
    ensures !Permitted(roles, starts, perm)
  {
    if Permitted(roles, starts, perm) {
      var id :| Reachable(roles, starts, id) && id in roles && Matches(roles[id], perm);
      var path :| Leads(roles, path, starts, id);
      WalkStaysSeen(roles, seen, perm, path);
    }
  }

  /** A role's own rules, its parents and its position in a list of roles. */
  lemma ReachSelf(roles: RoleMap, id: RoleId)
    requires id in roles
    ensures Reachable(roles, [id], id)
  {
    assert Leads(roles, [id], [id], id);
  }

  lemma ReachParent(roles: RoleMap, id: RoleId, parent: RoleId, end: RoleId)
    requires id in roles && parent in roles[id].parents && Reachable(roles, [parent], end)
    ensures Reachable(roles, [id], end)
  {
    var path :| Leads(roles, path, [parent], end);
    var longer := [id] + path;
    assert forall i :: 0 < i < |longer| ==> longer[i] == path[i - 1];
    assert Leads(roles, longer, [id], end);
  }

  lemma ReachStart(roles: RoleMap, starts: seq<RoleId>, id: RoleId, end: RoleId)
    requires id in starts && Reachable(roles, [id], end)
    ensures Reachable(roles, starts, end)
  {
    var path :| Leads(roles, path, [id], end);
    assert Leads(roles, path, starts, end);
  }

  // ----- the search

  method MatchesAny(role: Role, perm: Permission) returns (r: bool)
    ensures r == Matches(role, perm)
  {
    for i := 0 to |role.permissions|
      invariant forall k :: 0 <= k < i ==> !MatchPerm(role.permissions[k], perm)
    {
      if MatchPerm(role.permissions[i], perm) { return true; }
    }
    return false;
  }

  lemma ThroughParent(roles: RoleMap, id: RoleId, parent: RoleId, perm: Permission)
    requires id in roles && parent in roles[id].parents && Permitted(roles, [parent], perm)
    ensures Permitted(roles, [id], perm)
  {
    var end :| Reachable(roles, [parent], end) && end in roles && Matches(roles[end], perm);
    ReachParent(roles, id, parent, end);
  }

  lemma ThroughStart(roles: RoleMap, starts: seq<RoleId>, id: RoleId, perm: Permission)
    requires id in starts && Permitted(roles, [id], perm)
    ensures Permitted(roles, starts, perm)
  {
    var end :| Reachable(roles, [id], end) && end in roles && Matches(roles[end], perm);
    ReachStart(roles, starts, id, end);
  }

  /** `permitted_tally`, giving up when `fuel` calls are open. A role is marked as seen only after
      its parents were visited, so the seen set alone does not end the recursion. */
  function Tally(roles: RoleMap, seen: set<RoleId>, id: RoleId, perm: Permission, fuel: nat)
    : Option<(bool, set<RoleId>)>
    decreases fuel, 0
  {
    if id !in roles || id in seen then Some((false, seen))
    else if fuel == 0 then None
    else if Matches(roles[id], perm) then Some((true, seen))
    else
      match TallyAll(roles, seen, roles[id].parents, perm, fuel - 1)
      case None => None
      case Some((true, s)) => Some((true, s))
      case Some((false, s)) => Some((false, s + {id}))
  }

  /** The same for a list of roles, up to the first that grants. */
  function TallyAll(roles: RoleMap, seen: set<RoleId>, ids: seq<RoleId>, perm: Permission, fuel: nat)
    : Option<(bool, set<RoleId>)>
    decreases fuel, 1, |ids|
  {
    if ids == [] then Some((false, seen))
    else
      match Tally(roles, seen, ids[0], perm, fuel)
      case None => None
      case Some((true, s)) => Some((true, s))
      case Some((false, s)) => TallyAll(roles, s, ids[1..], perm, fuel)
  }

  /** On every graph, cyclic or not: whenever the search ends, its answer is right. */
  lemma {:induction false} TallyCorrect(roles: RoleMap, seen: set<RoleId>, id: RoleId, perm: Permission, fuel: nat)
    requires SeenWell(roles, seen, perm) && Tally(roles, seen, id, perm, fuel).Some?
    ensures var v := Tally(roles, seen, id, perm, fuel).value;
            && SeenWell(roles, v.1, perm) && seen <= v.1
            && (v.0 <==> Permitted(roles, [id], perm))
            && (!v.0 && id in roles ==> id in v.1)
    decreases fuel, 0
  {
    hide Permitted;
    if id in roles && id !in seen {
      if Matches(roles[id], perm) {
        PermittedSelf(roles, id, perm);
      } else {
        TallyAllCorrect(roles, seen, roles[id].parents, perm, fuel - 1);
        PermittedAbove(roles, id, perm);
      }
    } else {
      SeenMeansNot(roles, seen, [id], perm);
    }
  }

  lemma {:induction false} TallyAllCorrect(roles: RoleMap, seen: set<RoleId>, ids: seq<RoleId>, perm: Permission, fuel: nat)
    requires SeenWell(roles, seen, perm) && TallyAll(roles, seen, ids, perm, fuel).Some?
    ensures var v := TallyAll(roles, seen, ids, perm, fuel).value;
            && SeenWell(roles, v.1, perm) && seen <= v.1
            && (v.0 <==> Permitted(roles, ids, perm))
            && (!v.0 ==> forall id :: id in ids && id in roles ==> id in v.1)
    decreases fuel, 1, |ids|
  {
    hide Permitted, Tally;
    PermittedAmong(roles, ids, perm);
    if ids != [] {
      TallyCorrect(roles, seen, ids[0], perm, fuel);
      var v := Tally(roles, seen, ids[0], perm, fuel).value;
      assert ids == [ids[0]] + ids[1..];
      if !v.0 {
        TallyAllCorrect(roles, v.1, ids[1..], perm, fuel);
        PermittedAmong(roles, ids[1..], perm);
      }
    }
  }

  lemma PermittedSelf(roles: RoleMap, id: RoleId, perm: Permission)
    requires id in roles && Matches(roles[id], perm)
    ensures Permitted(roles, [id], perm)
  {
    ReachSelf(roles, id);
  }

  /** A list of roles is granted what one of them is. */
  lemma PermittedAmong(roles: RoleMap, ids: seq<RoleId>, perm: Permission)
    ensures Permitted(roles, ids, perm) <==> exists id :: id in ids && Permitted(roles, [id], perm)
  {
    if Permitted(roles, ids, perm) {
      var end :| Reachable(roles, ids, end) && end in roles && Matches(roles[end], perm);
      var path :| Leads(roles, path, ids, end);
      assert Leads(roles, path, [path[0]], end);
      assert Permitted(roles, [path[0]], perm);
    }
    if id :| id in ids && Permitted(roles, [id], perm) {
      ThroughStart(roles, ids, id, perm);
    }
  }

  /** A role is granted what its own rules and its parents are. */
  lemma PermittedAbove(roles: RoleMap, id: RoleId, perm: Permission)
    requires id in roles && !Matches(roles[id], perm)
    ensures Permitted(roles, [id], perm) <==> Permitted(roles, roles[id].parents, perm)
  {
    var parents := roles[id].parents;
    if Permitted(roles, [id], perm) {
      var end :| Reachable(roles, [id], end) && end in roles && Matches(roles[end], perm);
      var path :| Leads(roles, path, [id], end);
      assert |path| > 1;
      assert Leads(roles, path[1..], parents, end);
    }
    if Permitted(roles, parents, perm) {
      PermittedAmong(roles, parents, perm);
      var p :| p in parents && Permitted(roles, [p], perm);
      ThroughParent(roles, id, p, perm);
    }
  }

  /** `permitted_tally`, on every input on which it ends. */
  method PermittedTally(roles: RoleMap, seen0: set<RoleId>, id: RoleId, perm: Permission, ghost n: nat)
    returns (r: bool, seen: set<RoleId>)
    requires SeenWell(roles, seen0, perm) && Tally(roles, seen0, id, perm, n).Some?
    ensures Tally(roles, seen0, id, perm, n) == Some((r, seen))
    ensures SeenWell(roles, seen, perm) && seen0 <= seen
    ensures r <==> Permitted(roles, [id], perm)
    ensures !r && id in roles ==> id in seen
    decreases n
  {
    hide Permitted, Matches;
    TallyCorrect(roles, seen0, id, perm, n);
    seen := seen0;
    if id in roles {
      var role := roles[id];
      if id !in seen {
        var direct := MatchesAny(role, perm);
        if direct { return true, seen; }
        for i := 0 to |role.parents|
          invariant SeenWell(roles, seen, perm)
          invariant TallyAll(roles, seen0, role.parents, perm, n - 1)
                 == TallyAll(roles, seen, role.parents[i..], perm, n - 1)
        {
          assert role.parents[i..][0] == role.parents[i] && role.parents[i..][1..] == role.parents[i + 1..];
          var granted;
          granted, seen := PermittedTally(roles, seen, role.parents[i], perm, n - 1);
          if granted { return true, seen; }
        }
        seen := seen + {id};
      }
    }
    r := false;
  }

  /** The search from a user's roles ends within `n` open calls. */
  predicate Answers(roles: RoleMap, userRoles: seq<RoleId>, perm: Permission, n: nat) {
    TallyAll(roles, {}, userRoles, perm, n).Some?
  }

  /** `is_permitted`, with one seen set shared by all the user's roles, on every input on which it ends. */
  method IsPermitted(roles: RoleMap, userRoles: seq<RoleId>, perm: Permission, ghost n: nat) returns (r: bool)
    requires Answers(roles, userRoles, perm, n)
    ensures r <==> Permitted(roles, userRoles, perm)
  {
    hide Permitted, Tally;
    TallyAllCorrect(roles, {}, userRoles, perm, n);
    var seen: set<RoleId> := {};
    for i := 0 to |userRoles|
      invariant SeenWell(roles, seen, perm)
      invariant TallyAll(roles, {}, userRoles, perm, n) == TallyAll(roles, seen, userRoles[i..], perm, n)
    {
      assert userRoles[i..][0] == userRoles[i] && userRoles[i..][1..] == userRoles[i + 1..];
      var granted;
      granted, seen := PermittedTally(roles, seen, userRoles[i], perm, n);
      if granted { return true; }
    }
    return false;
  }

  // ----- collecting the rules

  /** Tallied roles are defined, stored as they are, and so are their defined parents. */
  ghost predicate TallyWell(roles: RoleMap, tally: RoleMap) {
    forall r :: r in tally ==>
                  && r in roles && tally[r] == roles[r]
                  && forall p :: p in roles[r].parents && p in roles ==> p in tally
  }

  /** Whatever one tally has more than the other is reachable. */
  ghost predicate OnlyReached(roles: RoleMap, before: RoleMap, after: RoleMap, starts: seq<RoleId>) {
    (forall r :: r in before ==> r in after) && forall r :: r in after && r !in before ==> Reachable(roles, starts, r)
  }

  /** `tally_role`. */
  method TallyRole(roles: RoleMap, tally0: RoleMap, id: RoleId, ghost n: nat) returns (tally: RoleMap)
    requires Grounded(roles, id, n) && TallyWell(roles, tally0)
    ensures TallyWell(roles, tally) && OnlyReached(roles, tally0, tally, [id])
    ensures id in roles ==> id in tally
    decreases n
  {
    tally := tally0;
    if id in roles {
      var role := roles[id];
      if id !in tally {
        for i := 0 to |role.parents|
          invariant TallyWell(roles, tally) && OnlyReached(roles, tally0, tally, [id])
          invariant forall k :: 0 <= k < i && role.parents[k] in roles ==> role.parents[k] in tally
        {
          ghost var before := tally;
          assert role.parents[i] in role.parents;
          tally := TallyRole(roles, tally, role.parents[i], n - 1);
          forall r | r in tally && r !in before ensures Reachable(roles, [id], r) {
            ReachParent(roles, id, role.parents[i], r);
          }
        }
        ReachSelf(roles, id);
        tally := tally[id := role];
      }
    }
  }

  lemma {:induction false} WalkStaysTallied(roles: RoleMap, tally: RoleMap, path: seq<RoleId>)
    requires TallyWell(roles, tally) && Path(roles, path) && path[0] in tally
    ensures path[|path| - 1] in tally
    decreases |path|
  {
    if |path| > 1 {
      WalkStaysTallied(roles, tally, path[..|path| - 1]);
    }
  }

  /** `collect_permrules`: exactly the rules of the reachable roles, whatever the map's order. */
  method CollectPermRules(roles: RoleMap, userRoles: seq<RoleId>, ghost n: nat) returns (output: seq<PermRule>)
    requires AllGrounded(roles, userRoles, n)
    ensures forall rule :: rule in output <==> Holds(roles, userRoles, rule)
  {
    var tally := TallyRoles(roles, userRoles, n);
    hide Reachable;
    output := RulesOf(tally);
  }

  method TallyRoles(roles: RoleMap, userRoles: seq<RoleId>, ghost n: nat) returns (tally: RoleMap)
    requires AllGrounded(roles, userRoles, n)
    ensures forall id :: id in tally <==> Reachable(roles, userRoles, id)
    ensures forall id :: id in tally ==> id in roles && tally[id] == roles[id]
  {
    hide Reachable, Grounded;
    tally := map[];
    for i := 0 to |userRoles|
      invariant TallyWell(roles, tally) && OnlyReached(roles, map[], tally, userRoles)
      invariant forall k :: 0 <= k < i && userRoles[k] in roles ==> userRoles[k] in tally
    {
      ghost var before := tally;
      tally := TallyRole(roles, tally, userRoles[i], n);
      forall r | r in tally && r !in before ensures Reachable(roles, userRoles, r) {
        ReachStart(roles, userRoles, userRoles[i], r);
      }
    }
    ReachedIsTallied(roles, tally, userRoles);
  }

  method RulesOf(tally: RoleMap) returns (output: seq<PermRule>)
    ensures forall rule :: rule in output <==> exists id :: id in tally && rule in tally[id].permissions
  {
    output := [];
    var left := tally.Keys;
    while left != {}
      invariant left <= tally.Keys
      invariant forall rule :: rule in output <==> exists id :: id in tally && id !in left && rule in tally[id].permissions
      decreases left
    {
      var id :| id in left;
      output := output + tally[id].permissions;
      left := left - {id};
    }
  }

  lemma ReachedIsTallied(roles: RoleMap, tally: RoleMap, starts: seq<RoleId>)
    requires TallyWell(roles, tally) && OnlyReached(roles, map[], tally, starts)
    requires forall id :: id in starts && id in roles ==> id in tally
    ensures forall id :: Reachable(roles, starts, id) <==> id in tally
  {
    forall id | Reachable(roles, starts, id) ensures id in tally {
      var path :| Leads(roles, path, starts, id);
      WalkStaysTallied(roles, tally, path);
    }
  }
}
