/** Machines: who may change their state, what is stored, and what is offered. Follows
    bffhd/resources/mod.rs, bffhd/resources/modules/fabaccess.rs, bffhd/session/mod.rs and
    bffhd/capnp/machine.rs. */
module Machine {
  import opened Wrappers
  import opened Permissions
  import opened Roles

  type User = string

  datatype Status =
    | Free
    | InUse(user: User)
    | ToCheck(user: User)
    | Blocked(user: User)
    | Disabled
    | Reserved(user: User)

  datatype MachineState = MachineState(state: Status, previous: Option<User>)

  datatype Privileges = Privileges(disclose: Permission, read: Permission, write: Permission, manage: Permission)

  /** The configuration a machine is checked against. */
  datatype Config = Config(roles: RoleMap, privs: Privileges)

  /** The users and their roles, at the time of a call. */
  type Users = map<User, seq<RoleId>>

  // ----- the session's checks

  ghost predicate Allowed(c: Config, users: Users, user: User, perm: Permission) {
    user in users && Permitted(c.roles, users[user], perm)
  }

  ghost predicate HasWrite(c: Config, users: Users, user: User) { Allowed(c, users, user, c.privs.write) }

  ghost predicate HasManage(c: Config, users: Users, user: User) { Allowed(c, users, user, c.privs.manage) }

  /** The search for the user's permission ends; RoleCycles says exactly when it does. */
  predicate Decides(c: Config, users: Users, user: User, perm: Permission, n: nat) {
    user in users ==> Answers(c.roles, users[user], perm, n)
  }

  /** `has_disclose`, `has_read`, `has_write` and `has_manage`, for the permission each asks for. */
  method HasPerm(c: Config, users: Users, user: User, perm: Permission, ghost n: nat) returns (r: bool)
    requires Decides(c, users, user, perm, n)
    ensures r <==> Allowed(c, users, user, perm)
  {
    hide Permitted, Answers;
    if user in users {
      r := IsPermitted(c.roles, users[user], perm, n);
    } else {
      r := false;
    }
  }

  // ----- the update rules

  /** The decision tree for writers. */
  predicate WriterMay(user: User, before: Status, after: Status) {
    match (before, after)
    case (Free, InUse(who)) => who == user
    case (Free, Reserved(whom)) => whom == user
    case (InUse(who), Free) => who == user
    case (InUse(who), ToCheck(_)) => who == user
    case (Reserved(whom), Free) => whom == user
    case (Reserved(whom), InUse(who)) => whom == user && who == whom
    case _ => false
  }

  /** What everybody may do. */
  predicate AnybodyMay(user: User, before: Status, after: Status) {
    match (before, after)
    case (InUse(who), Free) => who == user
    case (InUse(who), ToCheck(_)) => who == user
    case (Reserved(whom), Free) => whom == user
    case _ => false
  }

  ghost predicate Accepts(c: Config, users: Users, user: User, before: Status, after: Status) {
    || HasManage(c, users, user)
    || (HasWrite(c, users, user) && WriterMay(user, before, after))
    || AnybodyMay(user, before, after)
  }

  /** The calls that write a machine's state. `ForceSet` is behind the manage capability. */
  datatype Step =
    | TryUpdate(users: Users, user: User, status: Status)
    | GiveBack(user: User)
    | ForceSet(status: Status)

  ghost function Next(c: Config, s: MachineState, t: Step): MachineState {
    match t
    case TryUpdate(users, user, status) =>
      if Accepts(c, users, user, s.state, status) then s.(state := status) else s
    case GiveBack(user) =>
      if s.state == InUse(user) then MachineState(Free, Some(user)) else s
    case ForceSet(status) => s.(state := status)
  }

  ghost function After(c: Config, s: MachineState, run: seq<Step>): MachineState {
    if run == [] then s else Next(c, After(c, s, run[..|run| - 1]), run[|run| - 1])
  }

  /** Made by a session without the manage permission. */
  ghost predicate WithoutManage(c: Config, t: Step) {
    match t
    case TryUpdate(users, user, _) => !HasManage(c, users, user)
    case GiveBack(_) => true
    case ForceSet(_) => false
  }

  ghost predicate AllWithoutManage(c: Config, run: seq<Step>) {
    forall i :: 0 <= i < |run| ==> WithoutManage(c, run[i])
  }

  // ----- what the session offers

  datatype Offer = Offer(use: bool, manage: bool, inuse: bool, state: Option<Status>)

  ghost predicate OffersUse(c: Config, users: Users, user: User, s: MachineState) {
    HasWrite(c, users, user) && (s.state == Free || s.state == Reserved(user))
  }

  predicate OffersInUse(user: User, s: MachineState) { s.state == InUse(user) }

  // ----- the resource

  class Resource {
    const config: Config
    var db: MachineState
    var signal: MachineState

    /** The cached signal is the stored state. */
    predicate Valid() reads this { signal == db }

    /** `Inner::new`: a stored state is taken up, otherwise a free one is stored. */
    constructor (config: Config, stored: Option<MachineState>)
      ensures Valid() && this.config == config
      ensures db == if stored.Some? then stored.value else MachineState(Free, None)
    {
      this.config := config;
      var state := if stored.Some? then stored.value else MachineState(Free, None);
      db := state;
      signal := state;
    }

    method SetState(state: MachineState)
      modifies this
      ensures Valid() && db == state
    {
      db := state;
      signal := state;
    }

    method SetStatus(state: Status)
      requires Valid()
      modifies this
      ensures Valid() && db == Next(config, old(db), ForceSet(state))
    {
      var previous := db.previous;
      SetState(MachineState(state, previous));
    }

    /** The write permission is looked up only without the manage permission. */
    method TryUpdate(users: Users, user: User, status: Status, ghost n: nat)
      requires Valid() && Decides(config, users, user, config.privs.manage, n)
      requires !HasManage(config, users, user) ==> Decides(config, users, user, config.privs.write, n)
      modifies this
      ensures Valid() && db == Next(config, old(db), Step.TryUpdate(users, user, status))
    {
      hide Allowed, Decides;
      var before := db.state;
      var accepted := HasPerm(config, users, user, config.privs.manage, n);
      if !accepted {
        var write := HasPerm(config, users, user, config.privs.write, n);
        accepted := (write && WriterMay(user, before, status)) || AnybodyMay(user, before, status);
      }
      if accepted {
        SetStatus(status);
      }
    }

    method GiveBack(user: User)
      requires Valid()
      modifies this
      ensures Valid() && db == Next(config, old(db), Step.GiveBack(user))
    {
      if db.state.InUse? {
        if db.state.user == user {
          SetState(MachineState(Free, Some(user)));
        }
      }
    }

    /** `use_` of the use capability. */
    method Use(users: Users, user: User, ghost n: nat)
      requires Valid() && Decides(config, users, user, config.privs.manage, n)
      requires !HasManage(config, users, user) ==> Decides(config, users, user, config.privs.write, n)
      modifies this
      ensures Valid() && db == Next(config, old(db), Step.TryUpdate(users, user, InUse(user)))
    {
      TryUpdate(users, user, InUse(user), n);
    }

    /** `build_into`: decided on the cached signal, and true of the stored state. */
    method BuildInto(users: Users, user: User, ghost n: nat) returns (offer: Offer)
      requires Valid() && Decides(config, users, user, config.privs.write, n)
      requires Decides(config, users, user, config.privs.manage, n) && Decides(config, users, user, config.privs.read, n)
      ensures offer.use <==> OffersUse(config, users, user, db)
      ensures offer.inuse <==> OffersInUse(user, db)
      ensures offer.manage <==> HasManage(config, users, user)
      ensures offer.state == if Allowed(config, users, user, config.privs.read) then Some(db.state) else None
    {
      hide Allowed, Decides;
      var write := HasPerm(config, users, user, config.privs.write, n);
      var manage := HasPerm(config, users, user, config.privs.manage, n);
      var read := HasPerm(config, users, user, config.privs.read, n);
      var use, inuse := false, false;
      if write {
        match signal.state
        case Free => use := true;
        case Reserved(reserver) => use := reserver == user;
        case _ =>
      }
      match signal.state {
        case InUse(owner) => inuse := owner == user;
        case _ =>
      }
      offer := Offer(use, manage, inuse, if read then Some(signal.state) else None);
    }

    /** `get_current_user`, read from the signal, against `is_owned_by`, read from the store. */
    function GetCurrentUser(): (owner: Option<User>)
      requires Valid()
      reads this
      ensures forall u :: IsOwnedBy(u) <==> owner == Some(u)
    {
      match signal.state
      case Blocked(user) => Some(user)
      case InUse(user) => Some(user)
      case Reserved(user) => Some(user)
      case ToCheck(user) => Some(user)
      case _ => None
    }

    predicate IsOwnedBy(owner: User) reads this { Owns(owner, db.state) }
  }

  predicate Owns(owner: User, status: Status) {
    match status
    case Free => false
    case Disabled => false
    case InUse(user) => user == owner
    case ToCheck(user) => user == owner
    case Blocked(user) => user == owner
    case Reserved(user) => user == owner
  }

  // ----- one step

  predicate Locked(status: Status) { status.ToCheck? || status.Blocked? || status.Disabled? }

  /** Taking a machine for oneself: it is free, or one reserved it and now uses it. */
  predicate TakesForSelf(user: User, before: Status, after: Status) {
    (before == Free && (after == InUse(user) || after == Reserved(user))) || (before == Reserved(user) && after == InUse(user))
  }

  /** Giving up one's own machine; after use it may be left to be checked instead. */
  predicate GivesUpOwn(user: User, before: Status, after: Status) {
    Owns(user, before) && !Locked(before) && (after == Free || (before.InUse? && after.ToCheck?))
  }

  /** Without manage, the decision tree is this policy: take for oneself with the write permission,
      or give up what is one's own. */
  lemma PolicyWithoutManage(c: Config, users: Users, user: User, before: Status, after: Status)
    requires !HasManage(c, users, user)
    ensures Accepts(c, users, user, before, after) <==>
            (HasWrite(c, users, user) && TakesForSelf(user, before, after)) || GivesUpOwn(user, before, after)
  {
    hide Allowed;
  }

  /** Exactly when an update is accepted, for every session: a manager's always. */
  lemma UpdateExactly(c: Config, users: Users, user: User, s: MachineState, status: Status)
    ensures Next(c, s, TryUpdate(users, user, status)) ==
            if HasManage(c, users, user) || (HasWrite(c, users, user) && TakesForSelf(user, s.state, status))
               || GivesUpOwn(user, s.state, status)
            then MachineState(status, s.previous) else s
  {
    hide Allowed;
    if !HasManage(c, users, user) {
      PolicyWithoutManage(c, users, user, s.state, status);
    }
  }

  /** What is forced by a manager is the state afterwards. */
  lemma ForceSets(c: Config, s: MachineState, status: Status)
    ensures Next(c, s, ForceSet(status)) == MachineState(status, s.previous)
  {
  }

  /** The session's checks are matches of the rules the user holds against the machine's own write and
      manage permissions. */
  lemma ChecksExactly(c: Config, users: Users, user: User)
    ensures HasWrite(c, users, user) <==>
            user in users && exists rule :: Holds(c.roles, users[user], rule) && MatchPerm(rule, c.privs.write)
    ensures HasManage(c, users, user) <==>
            user in users && exists rule :: Holds(c.roles, users[user], rule) && MatchPerm(rule, c.privs.manage)
  {
    if user in users {
      PermittedByRules(c.roles, users[user], c.privs.write);
      PermittedByRules(c.roles, users[user], c.privs.manage);
    }
  }

  lemma LockedStays(c: Config, s: MachineState, t: Step)
    requires Locked(s.state) && WithoutManage(c, t)
    ensures Next(c, s, t) == s
  {
    hide Allowed;
  }

  /** Someone else's machine is left alone. */
  lemma OthersLeaveIt(c: Config, s: MachineState, t: Step, owner: User)
    requires Owns(owner, s.state) && WithoutManage(c, t) && t.user != owner
    ensures Next(c, s, t) == s
  {
    hide Allowed;
  }

  /** Use ends by the user's own step, in a free machine or one to be checked. */
  lemma LeavingUse(c: Config, s: MachineState, t: Step, user: User)
    requires s.state == InUse(user) && WithoutManage(c, t) && Next(c, s, t) != s
    ensures t.user == user && (Next(c, s, t).state == Free || Next(c, s, t).state.ToCheck?)
  {
    hide Allowed;
  }

  /** Use begins by the user's own request, who is known and holds a role with a rule for it. */
  lemma EnteringUse(c: Config, s: MachineState, t: Step, user: User)
    requires WithoutManage(c, t) && s.state != InUse(user) && Next(c, s, t).state == InUse(user)
    ensures t.TryUpdate? && t.user == user && HasWrite(c, t.users, user)
    ensures s.state == Free || s.state == Reserved(user)
  {
    hide Allowed;
  }

  // ----- whole runs

  lemma AfterPrefix(c: Config, s: MachineState, run: seq<Step>, i: nat)
    requires i < |run|
    ensures After(c, s, run[..i + 1]) == Next(c, After(c, s, run[..i]), run[i])
  {
    var front := run[..i + 1];
    assert front[..i] == run[..i];
  }

  /** A machine that is to be checked, blocked or disabled stays so. */
  lemma {:induction false} LockedForever(c: Config, s: MachineState, run: seq<Step>)
    requires Locked(s.state) && AllWithoutManage(c, run)
    ensures After(c, s, run) == s
    decreases |run|
  {
    if run != [] {
      LockedForever(c, s, run[..|run| - 1]);
      LockedStays(c, s, run[|run| - 1]);
    }
  }

  /** While only others act, an owned machine keeps its state. */
  lemma {:induction false} KeptFromOthers(c: Config, s: MachineState, run: seq<Step>, owner: User)
    requires Owns(owner, s.state) && AllWithoutManage(c, run)
    requires forall i :: 0 <= i < |run| ==> !run[i].ForceSet? && run[i].user != owner
    ensures After(c, s, run) == s
    decreases |run|
  {
    if run != [] {
      KeptFromOthers(c, s, run[..|run| - 1], owner);
      OthersLeaveIt(c, s, run[|run| - 1], owner);
    }
  }

  /** The step at which the first user gave the machine up. */
  ghost predicate Released(c: Config, s: MachineState, run: seq<Step>, k: nat, user: User) {
    && k < |run| && !run[k].ForceSet? && run[k].user == user
    && After(c, s, run[..k]).state == InUse(user)
    && After(c, s, run[..k + 1]).state == Free
  }

  /** Between use by one user and use by another, the first one's own step made the machine free. */
  lemma {:induction false} Handover(c: Config, s: MachineState, run: seq<Step>, i: nat, j: nat, a: User, b: User)
    requires AllWithoutManage(c, run) && i <= j <= |run| && a != b
    requires After(c, s, run[..i]).state == InUse(a) && After(c, s, run[..j]).state == InUse(b)
    ensures exists k :: i <= k < j && Released(c, s, run, k, a)
    decreases j - i
  {
    hide After, Next;
    if i == j {
      assert false;
    } else {
      var u := After(c, s, run[..i]);
      AfterPrefix(c, s, run, i);
      var v := After(c, s, run[..i + 1]);
      assert WithoutManage(c, run[i]);
      if v == u {
        Handover(c, s, run, i + 1, j, a, b);
      } else {
        LeavingUse(c, u, run[i], a);
        if v.state == Free {
          assert Released(c, s, run, i, a);
        } else {
          LockedBetween(c, s, run, i + 1, j);
        }
      }
    }
  }

  lemma LockedBetween(c: Config, s: MachineState, run: seq<Step>, i: nat, j: nat)
    requires AllWithoutManage(c, run) && i <= j <= |run| && Locked(After(c, s, run[..i]).state)
    ensures After(c, s, run[..j]) == After(c, s, run[..i])
    decreases j - i
  {
    hide After, Next;
    if i < j {
      AfterPrefix(c, s, run, i);
      LockedStays(c, After(c, s, run[..i]), run[i]);
      LockedBetween(c, s, run, i + 1, j);
    }
  }

  /** The user's own permitted request at step `k` put the machine into use, and it stayed so up to `j`. */
  ghost predicate UsedSince(c: Config, s: MachineState, run: seq<Step>, k: nat, j: nat, user: User) {
    && k < j <= |run| && run[k].TryUpdate? && run[k].user == user && HasWrite(c, run[k].users, user)
    && (After(c, s, run[..k]).state == Free || After(c, s, run[..k]).state == Reserved(user))
    && forall m :: k < m <= j ==> After(c, s, run[..m]).state == InUse(user)
  }

  /** Every use in a run goes back to such a request. */
  lemma {:induction false} UseWasPermitted(c: Config, s: MachineState, run: seq<Step>, j: nat, user: User)
    requires AllWithoutManage(c, run) && j <= |run|
    requires s.state != InUse(user) && After(c, s, run[..j]).state == InUse(user)
    ensures exists k :: UsedSince(c, s, run, k, j, user)
    decreases j
  {
    hide Next, Allowed;
    assert run[..0] == [];
    if j > 0 {
      AfterPrefix(c, s, run, j - 1);
      var before := After(c, s, run[..j - 1]);
      if before.state == InUse(user) {
        UseWasPermitted(c, s, run, j - 1, user);
        var k :| UsedSince(c, s, run, k, j - 1, user);
        assert UsedSince(c, s, run, k, j, user);
      } else {
        EnteringUse(c, before, run[j - 1], user);
        assert UsedSince(c, s, run, j - 1, j, user);
      }
    }
  }

  /** The user of the last give-back that took effect, or else the initial value. */
  ghost function LastReturn(c: Config, s: MachineState, run: seq<Step>): Option<User> {
    if run == [] then s.previous
    else
      var front, t := run[..|run| - 1], run[|run| - 1];
      if t.GiveBack? && After(c, s, front).state == InUse(t.user) then Some(t.user) else LastReturn(c, s, front)
  }

  /** `previous` is the user of the last effective give-back, whoever else acts, managers included. */
  lemma {:induction false} PreviousIsLastReturn(c: Config, s: MachineState, run: seq<Step>)
    ensures After(c, s, run).previous == LastReturn(c, s, run)
    decreases |run|
  {
    hide Allowed, HasManage, HasWrite;
    if run != [] {
      PreviousIsLastReturn(c, s, run[..|run| - 1]);
    }
  }

  // ----- offers predict effects

  /** A session without manage is offered use exactly when using takes effect, and then the machine
      is in its use; with manage, using always leaves the machine in its use. */
  lemma OfferedUse(c: Config, users: Users, user: User, s: MachineState)
    ensures var after := Next(c, s, TryUpdate(users, user, InUse(user)));
            && (!HasManage(c, users, user) ==> (OffersUse(c, users, user, s) <==> after != s))
            && (OffersUse(c, users, user, s) || HasManage(c, users, user) ==> after == s.(state := InUse(user)))
  {
    hide Allowed;
  }

  /** Giving back is offered exactly when it takes effect; then the machine is free and its previous
      user is the one who gave it back. */
  lemma OfferedGiveBack(c: Config, user: User, s: MachineState)
    ensures var after := Next(c, s, GiveBack(user));
            && (OffersInUse(user, s) <==> after != s)
            && (OffersInUse(user, s) ==> after == MachineState(Free, Some(user)))
  {
  }
}
