/** The two card login servers: bffhd/authentication/fabfire_bin/server.rs, which exchanges raw card
    responses, and bffhd/authentication/fabfire/server.rs, which wraps them in JSON. */
module CardServers {
  import opened Bits
  import opened Wrappers

  type Bytes = seq<Byte>
  type User = Bytes
  type Key = Bytes

  const MAGIC: Bytes :=
    [0x46, 0x41, 0x42, 0x41, 0x43, 0x43, 0x45, 0x53, 0x53, 0, 0x44, 0x45, 0x53, 0x46, 0x49, 0x52, 0x45, 0,
     0x31, 0x2E, 0x30, 0]
  const APP_ID: nat := 0x464142

  datatype CardMessage = ReadPicc(data: Bytes) | OtherMessage

  datatype Response = Response(cmd: Bytes, rndB: Bytes, iv: Bytes)

  /** What the card library and the parsers make of their inputs. */
  datatype Oracle = Oracle(
    check: Bytes -> bool,
    body: Bytes -> Option<Bytes>,
    utf8: Bytes -> bool,
    cardInfo: Bytes -> bool,
    json: Bytes -> Option<CardMessage>,
    respond: (Bytes, Key, Bytes) -> Option<Response>,
    verify: (Bytes, Bytes, Bytes, Key, Bytes) -> bool,
    maxRead: nat)

  /** What a call finds outside: the users with their card keys if they have a usable one, the random
      octets, and whether building a command, serializing and writing succeed. */
  datatype Env = Env(users: map<User, Option<Key>>, rnd: Bytes, commands: bool, serializes: bool, writes: bool)

  datatype Command =
    | SelectApplication(app: nat)
    | ReadData(file: nat, offset: nat, len: nat)
    | AesChallenge(keyId: nat)
    | AesResponse(data: Bytes)

  datatype Output = Plain(cmd: Command) | SendPicc(cmd: Command)

  datatype Reply =
    | Running(out: Output)
    | Finished(validated: Option<User>)
    | Failed
    | Panicked

  datatype Step = New | SelectApp | VerifyMagic | GetURN | GetToken | Authenticate1 | Authenticate2

  datatype KeyInfo = KeyInfo(authid: User, keyId: nat, key: Key)

  datatype AuthInfo = AuthInfo(rndA: Bytes, rndB: Bytes, iv: Bytes)

  datatype Server = Server(step: Step, card: Option<Bytes>, key: Option<KeyInfo>, auth: Option<AuthInfo>)

  const FRESH := Server(New, None, None, None)

  // ----- texts

  function DropLeading(s: Bytes): Bytes { if s != [] && s[0] == 0 then DropLeading(s[1..]) else s }

  function DropTrailing(s: Bytes): Bytes { if s != [] && s[|s| - 1] == 0 then DropTrailing(s[..|s| - 1]) else s }

  /** `trim_matches(char::from(0))`. */
  function Trim(s: Bytes): Bytes { DropTrailing(DropLeading(s)) }

  /** `FabFireCardKey` from the callback: the user's card key, if there is a usable one. */
  function KeyOf(users: map<User, Option<Key>>, user: User): Option<Key> {
    if user in users then users[user] else None
  }

  /** `Session::validate`: the user is taken when it exists. */
  function Validated(users: map<User, Option<Key>>, user: User): Option<User> {
    if user in users then Some(user) else None
  }

  // ----- the exchange with the card, common to both

  datatype Outcome = Sent(cmd: Command) | Verified(user: User) | Rejected | Broken | Panic

  datatype Move = Move(server: Server, outcome: Outcome)

  /** Going on to step `next` with a command for the card. The step advances before the write. */
  function Send(s: Server, next: Step, cmd: Command, sends: bool, writes: bool): Move {
    if !sends then Move(s, Broken)
    else if !writes then Move(s.(step := next), Broken)
    else Move(s.(step := next), Sent(cmd))
  }

  /** A response's body, when the card reports success. */
  function Body(o: Oracle, apdu: Bytes): Option<Bytes> { if o.check(apdu) then o.body(apdu) else None }

  /** What a server does with a response of the card. `sends`: the next command can be built. */
  function OnCard(o: Oracle, urn: Bytes, s: Server, env: Env, sends: bool, apdu: Bytes): Move {
    var body := Body(o, apdu);
    match s.step
    case New => Send(s, SelectApp, SelectApplication(APP_ID), sends, env.writes)
    case SelectApp =>
      if !o.check(apdu) then Move(s, Broken)
      else Send(s, VerifyMagic, ReadData(1, 0, |MAGIC|), sends, env.writes)
    case VerifyMagic =>
      if body != Some(MAGIC) then Move(s, Broken)
      else Send(s, GetURN, ReadData(2, 0, |urn|), sends, env.writes)
    case GetURN =>
      if body.None? then Move(s, Broken)
      else if !o.utf8(body.value) then Move(s, Panic)
      else if body.value != urn then Move(s, Broken)
      else Send(s, GetToken, ReadData(3, 0, o.maxRead), sends, env.writes)
    case GetToken =>
      if body.None? then Move(s, Broken)
      else if !o.utf8(body.value) then Move(s, Panic)
      else
        var authid := Trim(body.value);
        var key := KeyOf(env.users, authid);
        if key.None? then Move(s, Broken)
        else Send(s.(key := Some(KeyInfo(authid, 1, key.value))), Authenticate1, AesChallenge(1), sends, env.writes)
    case Authenticate1 =>
      if body.None? then Move(s, Broken)
      else if s.key.None? then Move(s, Panic)
      else
        var r := o.respond(body.value, s.key.value.key, env.rnd);
        if r.None? then Move(s, Panic)
        else
          var auth := AuthInfo(env.rnd, r.value.rndB, r.value.iv);
          Send(s.(auth := Some(auth)), Authenticate2, AesResponse(r.value.cmd), sends, env.writes)
    case Authenticate2 =>
      if body.None? || s.auth.None? then Move(s, Broken)
      else if s.key.None? then Move(s, Panic)
      else
        var a, k := s.auth.value, s.key.value;
        Move(s, if o.verify(body.value, a.rndA, a.rndB, k.key, a.iv) then Verified(k.authid) else Rejected)
  }

  // ----- the two servers

  datatype Variant = Binary | Json

  datatype Result = Result(server: Server, reply: Reply)

  function BinaryStep(o: Oracle, urn: Bytes, s: Server, env: Env, input: Bytes): Result {
    var m := OnCard(o, urn, s, env, env.commands, input);
    match m.outcome
    case Sent(cmd) => Result(m.server, Running(Plain(cmd)))
    case Verified(user) => Result(m.server, Finished(Validated(env.users, user)))
    case Rejected => Result(m.server, Finished(None))
    case Broken => Result(m.server, Failed)
    case Panic => Result(m.server, Panicked)
  }

  /** The response inside a JSON message; the first message holds the card's description instead. */
  function Unwrap(o: Oracle, s: Server, input: Bytes): Option<Bytes> {
    if s.step == New then (if o.cardInfo(input) then Some(input) else None)
    else
      match o.json(input)
      case Some(ReadPicc(data)) => Some(data)
      case _ => None
  }

  /** How the JSON server ends a call: it has a closing message to send after the verification. */
  function JsonResult(m: Move, env: Env): Result {
    match m.outcome
    case Sent(cmd) => Result(m.server, Running(SendPicc(cmd)))
    case Verified(user) =>
      if !env.serializes then Result(m.server, Failed)
      else
        var s := m.server.(step := Authenticate1);
        if env.writes then Result(s, Finished(Validated(env.users, user))) else Result(s, Failed)
    case Rejected => Result(m.server, Finished(None))
    case Broken => Result(m.server, Failed)
    case Panic => Result(m.server, Panicked)
  }

  function JsonStep(o: Oracle, urn: Bytes, s: Server, env: Env, input: Bytes): Result {
    match Unwrap(o, s, input)
    case None => Result(s, Failed)
    case Some(apdu) =>
      var s1 := if s.step == New then s.(card := Some(input)) else s;
      JsonResult(OnCard(o, urn, s1, env, env.commands && env.serializes, apdu), env)
  }

  function ServerStep(o: Oracle, urn: Bytes, v: Variant, s: Server, env: Env, input: Bytes): Result {
    match v
    case Binary => BinaryStep(o, urn, s, env, input)
    case Json => JsonStep(o, urn, s, env, input)
  }

  /** The server of X-FABFIRE-BIN. */
  class FabFireBin {
    var step: Step
    var keyInfo: Option<KeyInfo>
    var authInfo: Option<AuthInfo>
    const localUrn: Bytes

    ghost function Value(): Server reads this { Server(step, None, keyInfo, authInfo) }

    constructor (localUrn: Bytes)
      ensures Value() == FRESH && this.localUrn == localUrn
    {
      step := New;
      keyInfo := None;
      authInfo := None;
      this.localUrn := localUrn;
    }

    /** Hands a command to the reader and moves on. */
    method Ask(next: Step, cmd: Command, env: Env) returns (r: Reply)
      modifies this
      ensures var m := Send(old(Value()), next, cmd, env.commands, env.writes);
              Value() == m.server && r == if m.outcome.Sent? then Running(Plain(cmd)) else Failed
    {
      if !env.commands { return Failed; }
      step := next;
      if !env.writes { return Failed; }
      return Running(Plain(cmd));
    }

    method Step(o: Oracle, env: Env, input: Option<Bytes>) returns (r: Reply)
      modifies this
      ensures input.None? ==> Value() == old(Value()) && r == Failed
      ensures input.Some? ==>
                var e := BinaryStep(o, localUrn, old(Value()), env, input.value);
                Value() == e.server && r == e.reply
    {
      hide Trim, KeyOf, Validated;
      if input.None? { return Failed; }
      var apdu := input.value;
      match step
      case New => r := Ask(SelectApp, SelectApplication(APP_ID), env);
      case SelectApp =>
        if !o.check(apdu) { return Failed; }
        r := Ask(VerifyMagic, ReadData(1, 0, |MAGIC|), env);
      case VerifyMagic =>
        if !o.check(apdu) { return Failed; }
        var body := o.body(apdu);
        if body.None? || body.value != MAGIC { return Failed; }
        r := Ask(GetURN, ReadData(2, 0, |localUrn|), env);
      case GetURN =>
        if !o.check(apdu) { return Failed; }
        var body := o.body(apdu);
        if body.None? { return Failed; }
        if !o.utf8(body.value) { return Panicked; }
        if body.value != localUrn { return Failed; }
        r := Ask(GetToken, ReadData(3, 0, o.maxRead), env);
      case GetToken =>
        if !o.check(apdu) { return Failed; }
        var body := o.body(apdu);
        if body.None? { return Failed; }
        if !o.utf8(body.value) { return Panicked; }
        var authid := Trim(body.value);
        var key := KeyOf(env.users, authid);
        if key.None? { return Failed; }
        keyInfo := Some(KeyInfo(authid, 1, key.value));
        r := Ask(Authenticate1, AesChallenge(keyInfo.value.keyId), env);
      case Authenticate1 =>
        if !o.check(apdu) { return Failed; }
        var body := o.body(apdu);
        if body.None? { return Failed; }
        if keyInfo.None? { return Panicked; }
        var response := o.respond(body.value, keyInfo.value.key, env.rnd);
        if response.None? { return Panicked; }
        authInfo := Some(AuthInfo(env.rnd, response.value.rndB, response.value.iv));
        r := Ask(Authenticate2, AesResponse(response.value.cmd), env);
      case Authenticate2 =>
        if !o.check(apdu) { return Failed; }
        var body := o.body(apdu);
        if body.None? || authInfo.None? { return Failed; }
        if keyInfo.None? { return Panicked; }
        var a := authInfo.value;
        if o.verify(body.value, a.rndA, a.rndB, keyInfo.value.key, a.iv) {
          return Finished(Validated(env.users, keyInfo.value.authid));
        }
        return Finished(None);
    }
  }

  /** The server of X-FABFIRE. */
  class FabFire {
    var step: Step
    var cardInfo: Option<Bytes>
    var keyInfo: Option<KeyInfo>
    var authInfo: Option<AuthInfo>
    const localUrn: Bytes

    ghost function Value(): Server reads this { Server(step, cardInfo, keyInfo, authInfo) }

    constructor (localUrn: Bytes)
      ensures Value() == FRESH && this.localUrn == localUrn
    {
      step := New;
      cardInfo := None;
      keyInfo := None;
      authInfo := None;
      this.localUrn := localUrn;
    }

    method Ask(next: Step, cmd: Command, env: Env) returns (r: Reply)
      modifies this
      ensures var m := Send(old(Value()), next, cmd, env.commands && env.serializes, env.writes);
              Value() == m.server && r == if m.outcome.Sent? then Running(SendPicc(cmd)) else Failed
    {
      if !env.commands { return Failed; }
      if !env.serializes { return Failed; }
      step := next;
      if !env.writes { return Failed; }
      return Running(SendPicc(cmd));
    }

    /** `Step::GetToken`: the user of the token and its key. */
    method OnToken(o: Oracle, env: Env, apdu: Bytes) returns (r: Reply)
      requires step == GetToken
      modifies this
      ensures var e := JsonResult(OnCard(o, localUrn, old(Value()), env, env.commands && env.serializes, apdu), env);
              Value() == e.server && r == e.reply
    {
      hide Trim, KeyOf;
      if !o.check(apdu) { return Failed; }
      var body := o.body(apdu);
      if body.None? { return Failed; }
      if !o.utf8(body.value) { return Panicked; }
      var authid := Trim(body.value);
      var key := KeyOf(env.users, authid);
      if key.None? { return Failed; }
      keyInfo := Some(KeyInfo(authid, 1, key.value));
      r := Ask(Authenticate1, AesChallenge(keyInfo.value.keyId), env);
    }

    /** `Step::Authenticate1`: the answer to the card's challenge. */
    method OnChallenge(o: Oracle, env: Env, apdu: Bytes) returns (r: Reply)
      requires step == Authenticate1
      modifies this
      ensures var e := JsonResult(OnCard(o, localUrn, old(Value()), env, env.commands && env.serializes, apdu), env);
              Value() == e.server && r == e.reply
    {
      hide Trim, KeyOf;
      if !o.check(apdu) { return Failed; }
      var body := o.body(apdu);
      if body.None? { return Failed; }
      if keyInfo.None? { return Panicked; }
      var response := o.respond(body.value, keyInfo.value.key, env.rnd);
      if response.None? { return Panicked; }
      authInfo := Some(AuthInfo(env.rnd, response.value.rndB, response.value.iv));
      r := Ask(Authenticate2, AesResponse(response.value.cmd), env);
    }

    /** `Step::Authenticate2`: the final verification. */
    method OnProof(o: Oracle, env: Env, apdu: Bytes) returns (r: Reply)
      requires step == Authenticate2
      modifies this
      ensures var e := JsonResult(OnCard(o, localUrn, old(Value()), env, env.commands && env.serializes, apdu), env);
              Value() == e.server && r == e.reply
    {
      hide Trim, KeyOf, Validated;
      if !o.check(apdu) { return Failed; }
      var body := o.body(apdu);
      if body.None? || authInfo.None? { return Failed; }
      if keyInfo.None? { return Panicked; }
      var a := authInfo.value;
      if o.verify(body.value, a.rndA, a.rndB, keyInfo.value.key, a.iv) {
        if !env.serializes { return Failed; }
        step := Authenticate1;
        if !env.writes { return Failed; }
        return Finished(Validated(env.users, keyInfo.value.authid));
      }
      return Finished(None);
    }

    method Step(o: Oracle, env: Env, input: Option<Bytes>) returns (r: Reply)
      modifies this
      ensures input.None? ==> Value() == old(Value()) && r == Failed
      ensures input.Some? ==>
                var e := JsonStep(o, localUrn, old(Value()), env, input.value);
                Value() == e.server && r == e.reply
    {
      hide Trim, KeyOf, Validated;
      if input.None? { return Failed; }
      if step == New {
        if !o.cardInfo(input.value) { return Failed; }
        cardInfo := Some(input.value);
        r := Ask(SelectApp, SelectApplication(APP_ID), env);
        return;
      }
      var message := o.json(input.value);
      if message.None? || message.value.OtherMessage? { return Failed; }
      var apdu := message.value.data;
      match step
      case New =>
      case SelectApp =>
        if !o.check(apdu) { return Failed; }
        r := Ask(VerifyMagic, ReadData(1, 0, |MAGIC|), env);
      case VerifyMagic =>
        if !o.check(apdu) { return Failed; }
        var body := o.body(apdu);
        if body.None? || body.value != MAGIC { return Failed; }
        r := Ask(GetURN, ReadData(2, 0, |localUrn|), env);
      case GetURN =>
        if !o.check(apdu) { return Failed; }
        var body := o.body(apdu);
        if body.None? { return Failed; }
        if !o.utf8(body.value) { return Panicked; }
        if body.value != localUrn { return Failed; }
        r := Ask(GetToken, ReadData(3, 0, o.maxRead), env);
      case GetToken => r := OnToken(o, env, apdu);
      case Authenticate1 => r := OnChallenge(o, env, apdu);
      case Authenticate2 => r := OnProof(o, env, apdu);
    }
  }

  // ----- trimming

  lemma {:induction false} TrimInfix(s: Bytes)
    ensures exists i, j :: 0 <= i <= j <= |s| && Trim(s) == s[i..j]
                           && (forall k :: 0 <= k < i ==> s[k] == 0) && (forall k :: j <= k < |s| ==> s[k] == 0)
                           && (i < j ==> s[i] != 0 && s[j - 1] != 0)
  {
    var i := LeadingEnd(s);
    var t := s[i..];
    var n := TrailingStart(t);
    assert Trim(s) == s[i..i + n];
    assert forall k :: i + n <= k < |s| ==> s[k] == t[k - i];
    if n > 0 {
      assert t[n - 1] == s[i + n - 1] && t[0] == s[i];
    }
  }

  lemma {:induction false} LeadingEnd(s: Bytes) returns (i: nat)
    ensures i <= |s| && DropLeading(s) == s[i..]
    ensures (forall k :: 0 <= k < i ==> s[k] == 0) && (i < |s| ==> s[i] != 0)
  {
    if s != [] && s[0] == 0 {
      var j := LeadingEnd(s[1..]);
      i := j + 1;
      forall k | 0 <= k < i ensures s[k] == 0 {
        assert k > 0 ==> s[k] == s[1..][k - 1];
      }
    } else {
      i := 0;
    }
  }

  lemma {:induction false} TrailingStart(s: Bytes) returns (n: nat)
    ensures n <= |s| && DropTrailing(s) == s[..n]
    ensures (forall k :: n <= k < |s| ==> s[k] == 0) && (n > 0 ==> s[n - 1] != 0)
  {
    if s != [] && s[|s| - 1] == 0 {
      n := TrailingStart(s[..|s| - 1]);
    } else {
      n := |s|;
    }
  }
}
