/** The SASL exchange around a card login: bffhd/capnp/authenticationsystem.rs. */
module Login {
  import opened Wrappers
  import opened CardServers

  datatype State = InvalidMechanism | Finished | Aborted | Running(server: Server)

  /** One RPC call. The parameters of `step` may be unreadable. */
  datatype Call = StepCall(data: Option<Bytes>, env: Env) | AbortCall

  /** The state of the exchange, the sessions it opened, and what it sent to the reader. */
  datatype Exchange = Exchange(state: State, sessions: seq<User>, sent: seq<Output>)

  /** The mechanism an exchange was started with, and the address of the space it serves. */
  datatype Setup = Setup(oracle: Oracle, urn: Bytes, variant: Variant)

  function Next(p: Setup, x: Exchange, c: Call): Exchange {
    match c
    case AbortCall => x.(state := Aborted)
    case StepCall(data, env) =>
      if !x.state.Running? then x.(state := Aborted)
      else if data.None? then x.(state := Aborted)
      else
        var e := ServerStep(p.oracle, p.urn, p.variant, x.state.server, env, data.value);
        match e.reply
        case Finished(Some(user)) => x.(state := State.Finished, sessions := x.sessions + [user])
        case Finished(None) => x.(state := State.Finished)
        case Running(out) => x.(state := State.Running(e.server), sent := x.sent + [out])
        case Failed => x.(state := Aborted)
        case Panicked => x.(state := Aborted)
  }

  function After(p: Setup, x: Exchange, calls: seq<Call>): Exchange {
    if calls == [] then x else Next(p, After(p, x, calls[..|calls| - 1]), calls[|calls| - 1])
  }

  const START := Exchange(State.Running(FRESH), [], [])

  /** The exchange object: `step` takes the state out and leaves `Aborted` until it is done. */
  class Authentication {
    const setup: Setup
    var state: State
    ghost var sessions: seq<User>
    ghost var sent: seq<Output>

    ghost function Value(): Exchange reads this { Exchange(state, sessions, sent) }

    constructor (setup: Setup)
      ensures Value() == START && this.setup == setup
    {
      this.setup := setup;
      state := State.Running(FRESH);
      sessions := [];
      sent := [];
    }

    constructor InvalidMechanism(setup: Setup)
      ensures Value() == Exchange(State.InvalidMechanism, [], []) && this.setup == setup
    {
      this.setup := setup;
      state := State.InvalidMechanism;
      sessions := [];
      sent := [];
    }

    /** The session opened by this call, if any. */
    method Step(data: Option<Bytes>, env: Env) returns (session: Option<User>)
      modifies this
      ensures Value() == Next(setup, old(Value()), StepCall(data, env))
      ensures sessions == old(sessions) + (if session.Some? then [session.value] else [])
    {
      hide ServerStep;
      session := None;
      var taken := state;
      state := Aborted;
      if taken.Running? {
        if data.None? { return; }
        var e := ServerStep(setup.oracle, setup.urn, setup.variant, taken.server, env, data.value);
        match e.reply {
          case Finished(validated) =>
            state := State.Finished;
            session := validated;
            if validated.Some? { sessions := sessions + [validated.value]; }
          case Running(out) =>
            state := State.Running(e.server);
            sent := sent + [out];
          case Failed =>
          case Panicked =>
        }
      }
    }

    method Abort()
      modifies this
      ensures Value() == Next(setup, old(Value()), AbortCall)
    {
      state := Aborted;
    }
  }

  // ----- what a good login consists of

  function DataOf(c: Call): Option<Bytes> { if c.StepCall? then c.data else None }

  /** The card response a call delivers after the first call. */
  function Apdu(p: Setup, c: Call): Option<Bytes> {
    match DataOf(c)
    case None => None
    case Some(data) =>
      if p.variant == Binary then Some(data)
      else
        match p.oracle.json(data)
        case Some(ReadPicc(apdu)) => Some(apdu)
        case _ => None
  }

  /** Its body, if the card reported success. */
  function BodyOf(p: Setup, c: Call): Option<Bytes> {
    match Apdu(p, c)
    case None => None
    case Some(apdu) => Body(p.oracle, apdu)
  }

  /** The next command reached the reader. */
  predicate Sends(p: Setup, c: Call) {
    c.StepCall? && c.env.commands && c.env.writes && (p.variant == Json ==> c.env.serializes)
  }

  /** The user whose token call 4 read, and the key stored for it then. */
  function TokenUser(p: Setup, calls: seq<Call>): User
    requires |calls| > 4
  {
    match BodyOf(p, calls[4])
    case Some(body) => Trim(body)
    case None => []
  }

  function TokenKey(p: Setup, calls: seq<Call>): Option<Key>
    requires |calls| > 4
  {
    if calls[4].StepCall? then KeyOf(calls[4].env.users, TokenUser(p, calls)) else None
  }

  /** The card library's answer to the card's challenge in call 5. */
  function Challenge(p: Setup, calls: seq<Call>): Option<Response>
    requires |calls| > 5
  {
    match (BodyOf(p, calls[5]), TokenKey(p, calls))
    case (Some(body), Some(key)) => if calls[5].StepCall? then p.oracle.respond(body, key, calls[5].env.rnd) else None
    case _ => None
  }

  /** The final verification, on what was read and drawn in calls 4, 5 and 6. */
  predicate Verifies(p: Setup, calls: seq<Call>)
    requires |calls| > 6
  {
    match (BodyOf(p, calls[6]), TokenKey(p, calls), Challenge(p, calls))
    case (Some(body), Some(key), Some(r)) =>
      calls[5].StepCall? && p.oracle.verify(body, calls[5].env.rnd, r.rndB, key, r.iv)
    case _ => false
  }

  /** What call `i` has to bring for the login to go on, or, for the last one, to succeed. */
  predicate Good(p: Setup, calls: seq<Call>, i: nat)
    requires i < |calls|
  {
    var c := calls[i];
    match i
    case 0 => Sends(p, c) && c.data.Some? && (p.variant == Json ==> p.oracle.cardInfo(c.data.value))
    case 1 => Sends(p, c) && Apdu(p, c).Some? && p.oracle.check(Apdu(p, c).value)
    case 2 => Sends(p, c) && BodyOf(p, c) == Some(MAGIC)
    case 3 => Sends(p, c) && BodyOf(p, c) == Some(p.urn) && p.oracle.utf8(p.urn)
    case 4 => Sends(p, c) && BodyOf(p, c).Some? && p.oracle.utf8(BodyOf(p, c).value) && TokenKey(p, calls).Some?
    case 5 => Sends(p, c) && Challenge(p, calls).Some?
    case 6 => c.StepCall? && Verifies(p, calls) && TokenUser(p, calls) in c.env.users
              && (p.variant == Json ==> c.env.serializes && c.env.writes)
    case _ => false
  }

  predicate GoodUpTo(p: Setup, calls: seq<Call>, n: nat)
    requires n <= |calls|
  {
    forall i :: 0 <= i < n ==> Good(p, calls, i)
  }

  const STEPS: seq<CardServers.Step> := [New, SelectApp, VerifyMagic, GetURN, GetToken, Authenticate1, Authenticate2]

  /** The server after `n` good calls. */
  function ServerAfter(p: Setup, calls: seq<Call>, n: nat): Server
    requires n <= 6 && n <= |calls| && GoodUpTo(p, calls, n)
  {
    Server(
      STEPS[n],
      if n > 0 && p.variant == Json then (assert Good(p, calls, 0); calls[0].data) else None,
      if n > 4 then (assert Good(p, calls, 4); Some(KeyInfo(TokenUser(p, calls), 1, TokenKey(p, calls).value))) else None,
      if n > 5 then
        assert Good(p, calls, 5);
        var r := Challenge(p, calls).value;
        Some(AuthInfo(calls[5].env.rnd, r.rndB, r.iv))
      else None)
  }

  /** What the card is asked after good call `i`: to select the application, for the magic, the address
      of the space and the token in their files, for its challenge, and to check the answer to it. */
  function Asked(p: Setup, calls: seq<Call>, i: nat): Command
    requires i < 6 && i < |calls| && Good(p, calls, i)
  {
    match i
    case 0 => SelectApplication(0x464142)
    case 1 => ReadData(1, 0, 22)
    case 2 => ReadData(2, 0, |p.urn|)
    case 3 => ReadData(3, 0, p.oracle.maxRead)
    case 4 => AesChallenge(1)
    case _ => AesResponse(Challenge(p, calls).value.cmd)
  }

  /** The raw server sends a command as it is, the other one inside a message. */
  function Wrap(v: Variant, cmd: Command): Output { if v == Binary then Plain(cmd) else SendPicc(cmd) }

  /** What is sent in the first `n` calls, if they are good. */
  function Script(p: Setup, calls: seq<Call>, n: nat): (sent: seq<Output>)
    requires n <= 6 && n <= |calls| && GoodUpTo(p, calls, n)
    ensures |sent| == n
  {
    seq(n, i requires 0 <= i < n => Wrap(p.variant, Asked(p, calls, i)))
  }

  /** How many of the first `n` calls were good before one was not, up to six. */
  function Leading(p: Setup, calls: seq<Call>, n: nat): (k: nat)
    requires n <= |calls|
    ensures k <= n && k <= 6
  {
    if n == 0 then 0
    else
      var k := Leading(p, calls, n - 1);
      if k == n - 1 && k < 6 && Good(p, calls, k) then k + 1 else k
  }

  lemma {:induction false} LeadingIsGood(p: Setup, calls: seq<Call>, n: nat)
    requires n <= |calls|
    ensures GoodUpTo(p, calls, Leading(p, calls, n))
    ensures Leading(p, calls, n) == n <==> n <= 6 && GoodUpTo(p, calls, n)
  {
    hide Good;
    if n > 0 {
      LeadingIsGood(p, calls, n - 1);
    }
  }

  // ----- one call of a login that is going well

  /** Call `n`, if good, moved the server on and sent what is due; any other aborted the exchange, and
      neither opened a session. */
  predicate MovedOn(p: Setup, x: Exchange, calls: seq<Call>, n: nat, x': Exchange)
    requires n < 6 && n < |calls| && GoodUpTo(p, calls, n)
  {
    && x'.sessions == x.sessions
    && (Good(p, calls, n) ==> GoodUpTo(p, calls, n + 1) && x'.state == State.Running(ServerAfter(p, calls, n + 1))
                              && x'.sent == x.sent + [Wrap(p.variant, Asked(p, calls, n))])
    && (!Good(p, calls, n) ==> x'.state == Aborted && x'.sent == x.sent)
  }

  lemma EarlyCall(p: Setup, x: Exchange, calls: seq<Call>, n: nat)
    requires n < 4 && n < |calls| && GoodUpTo(p, calls, n) && x.state == State.Running(ServerAfter(p, calls, n))
    ensures MovedOn(p, x, calls, n, Next(p, x, calls[n]))
  {
    hide Trim, KeyOf;
    if n == 0 {
    } else if n == 1 {
    } else if n == 2 {
    }
  }

  lemma LateCall(p: Setup, x: Exchange, calls: seq<Call>, n: nat)
    requires 4 <= n < 6 && n < |calls| && GoodUpTo(p, calls, n) && x.state == State.Running(ServerAfter(p, calls, n))
    ensures MovedOn(p, x, calls, n, Next(p, x, calls[n]))
  {
    hide Trim, KeyOf;
    if n == 5 {
      assert Good(p, calls, 4);
    }
  }

  /** Each of the first six calls goes on exactly when it is good. */
  lemma CallMovesOn(p: Setup, x: Exchange, calls: seq<Call>, n: nat)
    requires n < 6 && n < |calls| && GoodUpTo(p, calls, n) && x.state == State.Running(ServerAfter(p, calls, n))
    ensures MovedOn(p, x, calls, n, Next(p, x, calls[n]))
  {
    hide MovedOn, Next, Good;
    if n < 4 {
      EarlyCall(p, x, calls, n);
    } else {
      LateCall(p, x, calls, n);
    }
  }

  /** The last call comes to a conclusion: the card answered, and after a verification that passed the
      JSON server's closing message went out. */
  predicate Concludes(p: Setup, calls: seq<Call>)
    requires |calls| > 6
  {
    var c := calls[6];
    c.StepCall? && BodyOf(p, c).Some? && (p.variant == Json && Verifies(p, calls) ==> c.env.serializes && c.env.writes)
  }

  /** The last call opens the session, exactly when it is good. */
  lemma LastCall(p: Setup, x: Exchange, calls: seq<Call>)
    requires |calls| > 6 && GoodUpTo(p, calls, 6) && x.state == State.Running(ServerAfter(p, calls, 6))
    ensures var x' := Next(p, x, calls[6]);
            && x'.state == (if Concludes(p, calls) then State.Finished else Aborted) && x'.sent == x.sent
            && x'.sessions == if Good(p, calls, 6) then x.sessions + [TokenUser(p, calls)] else x.sessions
  {
    hide Trim, KeyOf;
    assert Good(p, calls, 4) && Good(p, calls, 5);
  }

  /** An exchange that is over stays over and opens nothing. */
  lemma OverStays(p: Setup, x: Exchange, c: Call)
    requires !x.state.Running?
    ensures Next(p, x, c).state == Aborted && Next(p, x, c).sessions == x.sessions && Next(p, x, c).sent == x.sent
  {
    hide ServerStep;
  }

  // ----- whole runs

  lemma AfterPrefix(p: Setup, calls: seq<Call>, n: nat)
    requires n < |calls|
    ensures After(p, START, calls[..n + 1]) == Next(p, After(p, START, calls[..n]), calls[n])
  {
    hide Next;
    var front := calls[..n + 1];
    assert front[..n] == calls[..n];
  }

  /** After `n` calls the exchange runs exactly when they were all good and it is not through. */
  lemma {:induction false} RunState(p: Setup, calls: seq<Call>, n: nat)
    requires n <= |calls|
    ensures var x := After(p, START, calls[..n]);
            && (n <= 6 && GoodUpTo(p, calls, n) ==> x.state == State.Running(ServerAfter(p, calls, n)))
            && (n > 6 || !GoodUpTo(p, calls, n) ==> !x.state.Running?)
            && x.sessions == if n > 6 && GoodUpTo(p, calls, 7) then [TokenUser(p, calls)] else []
  {
    hide Next, Good, TokenUser, TokenKey, Challenge;
    if n == 0 {
      assert calls[..0] == [];
    } else {
      RunState(p, calls, n - 1);
      AfterPrefix(p, calls, n - 1);
      var x := After(p, START, calls[..n - 1]);
      if !x.state.Running? {
        OverStays(p, x, calls[n - 1]);
      } else if n <= 6 {
        CallMovesOn(p, x, calls, n - 1);
      } else {
        LastCall(p, x, calls);
        assert GoodUpTo(p, calls, 7) <==> Good(p, calls, 6);
      }
    }
  }

  lemma {:induction false} RunSent(p: Setup, calls: seq<Call>, n: nat)
    requires n <= |calls|
    ensures GoodUpTo(p, calls, Leading(p, calls, n))
    ensures After(p, START, calls[..n]).sent == Script(p, calls, Leading(p, calls, n))
  {
    hide Next, Good, TokenUser, TokenKey, Challenge, Asked;
    LeadingIsGood(p, calls, n);
    if n == 0 {
      assert calls[..0] == [];
    } else {
      RunSent(p, calls, n - 1);
      RunState(p, calls, n - 1);
      AfterPrefix(p, calls, n - 1);
      LeadingIsGood(p, calls, n - 1);
      var x := After(p, START, calls[..n - 1]);
      if !x.state.Running? {
        OverStays(p, x, calls[n - 1]);
      } else if n <= 6 {
        CallMovesOn(p, x, calls, n - 1);
      } else {
        LastCall(p, x, calls);
      }
    }
  }

  /** Over every run of either variant, what was sent to the card is the script of the exchange up to
      the first call that was not good: the files in their order, then the challenge and its answer. */
  lemma SentExactly(p: Setup, calls: seq<Call>)
    ensures GoodUpTo(p, calls, Leading(p, calls, |calls|))
    ensures After(p, START, calls).sent == Script(p, calls, Leading(p, calls, |calls|))
  {
    hide Next, Good, Script, Leading;
    assert calls[..|calls|] == calls;
    RunSent(p, calls, |calls|);
  }

  /** The exchange is finished, rather than aborted, right after seven calls of which six were good and
      the last came to a conclusion, and never otherwise. */
  lemma FinishedExactly(p: Setup, calls: seq<Call>)
    ensures After(p, START, calls).state == State.Finished <==>
            |calls| == 7 && GoodUpTo(p, calls, 6) && Concludes(p, calls)
  {
    hide Next, Good, TokenUser, TokenKey, Challenge, Concludes;
    var n := |calls|;
    assert calls[..n] == calls;
    RunState(p, calls, n);
    if n > 0 {
      RunState(p, calls, n - 1);
      AfterPrefix(p, calls, n - 1);
      var x := After(p, START, calls[..n - 1]);
      if !x.state.Running? {
        OverStays(p, x, calls[n - 1]);
      } else if n <= 6 {
        CallMovesOn(p, x, calls, n - 1);
      } else {
        LastCall(p, x, calls);
      }
    }
  }

  /** Over every run of an exchange, whatever the calls, a session is opened at most once, and for
      the user whose token was read exactly when the first seven calls were good. */
  lemma SessionExactly(p: Setup, calls: seq<Call>)
    ensures After(p, START, calls).sessions ==
            if |calls| >= 7 && GoodUpTo(p, calls, 7) then [TokenUser(p, calls)] else []
  {
    hide Next, Good, TokenUser;
    assert calls[..|calls|] == calls;
    RunState(p, calls, |calls|);
  }

  /** In particular no session is opened without the magic, the address of this space, a stored key
      and the final verification with that key. */
  lemma SessionNeeds(p: Setup, calls: seq<Call>, user: User)
    requires user in After(p, START, calls).sessions
    ensures |calls| >= 7
    ensures BodyOf(p, calls[2]) == Some(MAGIC) && BodyOf(p, calls[3]) == Some(p.urn)
    ensures BodyOf(p, calls[4]).Some? && user == Trim(BodyOf(p, calls[4]).value)
    ensures calls[4].StepCall? && KeyOf(calls[4].env.users, user).Some?
    ensures Verifies(p, calls) && calls[6].StepCall? && user in calls[6].env.users
  {
    SessionExactly(p, calls);
    hide Next, After, Trim, KeyOf, Verifies;
    assert Good(p, calls, 2) && Good(p, calls, 3) && Good(p, calls, 4) && Good(p, calls, 6);
  }

  /** The key and the drawn octets are there whenever a server unwraps them, in every run. */
  lemma UnwrapsHold(p: Setup, calls: seq<Call>)
    requires After(p, START, calls).state.Running?
    ensures var s := After(p, START, calls).state.server;
            && (s.step == Authenticate1 || s.step == Authenticate2 ==> s.key.Some?)
            && (s.step == Authenticate2 ==> s.auth.Some?)
  {
    hide Next, Good, TokenUser, TokenKey, Challenge;
    assert calls[..|calls|] == calls;
    RunState(p, calls, |calls|);
  }

  // ----- the two variants side by side

  /** Call number `i` in both variants: the JSON one holds the card's response, or, first of all, the
      card's description; what can be built can be serialized, and the closing message of the JSON
      variant, which the other does not have, is serialized and written. */
  predicate Mirrors(o: Oracle, i: nat, b: Call, j: Call) {
    match (b, j)
    case (AbortCall, AbortCall) => true
    case (StepCall(db, eb), StepCall(dj, ej)) =>
      && eb == ej && (eb.commands ==> eb.serializes) && (i == 6 ==> eb.serializes && eb.writes)
      && db.Some? == dj.Some?
      && (db.Some? ==> if i == 0 then o.cardInfo(dj.value) else o.json(dj.value) == Some(ReadPicc(db.value)))
    case _ => false
  }

  predicate AllMirror(o: Oracle, bs: seq<Call>, js: seq<Call>) {
    |bs| == |js| && forall i :: 0 <= i < |bs| ==> Mirrors(o, i, bs[i], js[i])
  }

  /** After `n` calls: the same but for the card's description, which only the JSON variant keeps. */
  predicate Alike(b: State, j: State, n: nat) {
    match (b, j)
    case (Running(sb), Running(sj)) => sb == sj.(card := None) && n <= 6 && sb.step == STEPS[n]
    case (Finished, Finished) => true
    case (Aborted, Aborted) => true
    case _ => false
  }

  /** The commands, whatever they are wrapped in. */
  function Commands(sent: seq<Output>): (cmds: seq<Command>)
    ensures |cmds| == |sent| && forall i :: 0 <= i < |sent| ==> cmds[i] == sent[i].cmd
  {
    seq(|sent|, i requires 0 <= i < |sent| => sent[i].cmd)
  }

  lemma CommonMove(o: Oracle, urn: Bytes, sb: Server, sj: Server, env: Env, apdu: Bytes, n: nat)
    requires sb == sj.(card := None) && n <= 6 && sb.step == STEPS[n]
    ensures var mb, mj := OnCard(o, urn, sb, env, env.commands, apdu), OnCard(o, urn, sj, env, env.commands, apdu);
            && mb.outcome == mj.outcome && mb.server == mj.server.(card := None)
            && (mb.outcome.Sent? ==> n < 6 && mb.server.step == STEPS[n + 1])
            && (mb.outcome.Verified? ==> n == 6)
  {
    hide Trim, KeyOf;
  }

  lemma FirstMove(o: Oracle, urn: Bytes, s: Server, env: Env, a: Bytes, b: Bytes)
    requires s.step == New
    ensures OnCard(o, urn, s, env, env.commands, a) == OnCard(o, urn, s, env, env.commands, b)
  {
  }

  lemma CallAlike(o: Oracle, urn: Bytes, xb: Exchange, xj: Exchange, b: Call, j: Call, n: nat)
    requires Alike(xb.state, xj.state, n) && xb.sessions == xj.sessions && Commands(xb.sent) == Commands(xj.sent)
    requires Mirrors(o, n, b, j)
    ensures var yb, yj := Next(Setup(o, urn, Binary), xb, b), Next(Setup(o, urn, Json), xj, j);
            Alike(yb.state, yj.state, n + 1) && yb.sessions == yj.sessions && Commands(yb.sent) == Commands(yj.sent)
  {
    hide OnCard, Validated;
    if b.StepCall? && b.data.Some? && xb.state.Running? {
      var sb, sj := xb.state.server, xj.state.server;
      assert b.env.commands == (b.env.commands && b.env.serializes);
      if n == 0 {
        var s1 := sj.(card := Some(j.data.value));
        FirstMove(o, urn, sb, b.env, b.data.value, j.data.value);
        CommonMove(o, urn, sb, s1, b.env, j.data.value, n);
      } else {
        CommonMove(o, urn, sb, sj, b.env, b.data.value, n);
      }
    }
  }

  /** On the same card responses both variants go through the same steps, send the card the same
      commands and open the same sessions. */
  lemma {:induction false} VariantsAgree(o: Oracle, urn: Bytes, bs: seq<Call>, js: seq<Call>)
    requires AllMirror(o, bs, js)
    ensures var xb, xj := After(Setup(o, urn, Binary), START, bs), After(Setup(o, urn, Json), START, js);
            Alike(xb.state, xj.state, |bs|) && xb.sessions == xj.sessions && Commands(xb.sent) == Commands(xj.sent)
    decreases |bs|
  {
    hide Next, Mirrors;
    if bs != [] {
      var n := |bs| - 1;
      forall i | 0 <= i < n ensures Mirrors(o, i, bs[..n][i], js[..n][i]) {
        assert Mirrors(o, i, bs[i], js[i]);
      }
      VariantsAgree(o, urn, bs[..n], js[..n]);
      CallAlike(o, urn, After(Setup(o, urn, Binary), START, bs[..n]), After(Setup(o, urn, Json), START, js[..n]),
                bs[n], js[n], n);
    }
  }
}
