/** Permissions and permission rules: bffhd/authorization/permissions.rs. A string is the list of
    its UTF-8 octets. */
module Permissions {
  import opened Bits
  import opened Wrappers
  import opened Text

  type Permission = seq<Byte>

  const DOT: Byte := 0x2E
  const PLUS: Byte := 0x2B
  const STAR: Byte := 0x2A

  // ----- the order

  datatype Ordering = Less | Equal | Greater

  /** `q` lies below `p` in the tree of dotted paths. */
  predicate Above(p: Permission, q: Permission) {
    |p| < |q| && q[..|p|] == p && q[|p|] == DOT
  }

  /** The order, on the text. */
  function Compare(p: Permission, q: Permission): Option<Ordering> {
    if p == q then Some(Equal)
    else if Above(p, q) then Some(Greater)
    else if Above(q, p) then Some(Less)
    else None
  }

  /** `partial_cmp`: walks the parts between the dots of both sides together. */
  method PartialCmp(p: Permission, q: Permission) returns (r: Option<Ordering>)
    ensures r == Compare(p, q)
  {
    var ps, qs := Split(p, DOT), Split(q, DOT);
    hide Split;
    var k := 0;
    while k < |ps| && k < |qs|
      invariant 0 <= k <= |ps| && k <= |qs| && ps[..k] == qs[..k]
    {
      if ps[k] != qs[k] {
        Diverge(p, q, k);
        return None;
      }
      assert ps[..k + 1] == qs[..k + 1];
      k := k + 1;
    }
    assert |ps| == k ==> ps[..k] == ps;
    assert |qs| == k ==> qs[..k] == qs;
    if k == |ps| && k == |qs| {
      JoinSplit(p, DOT);
      JoinSplit(q, DOT);
      return Some(Equal);
    } else if k == |qs| {
      PrefixIsAbove(q, p);
      AboveExcludes(q, p);
      return Some(Less);
    } else {
      PrefixIsAbove(p, q);
      return Some(Greater);
    }
  }

  lemma AboveSplits(p: Permission, q: Permission)
    requires Above(p, q)
    ensures Split(q, DOT) == Split(p, DOT) + Split(q[|p| + 1..], DOT)
  {
    hide Split;
    SplitAppend(p, q[|p| + 1..], DOT);
    assert p + [DOT] + q[|p| + 1..] == q;
  }

  lemma PrefixIsAbove(p: Permission, q: Permission)
    requires |Split(p, DOT)| < |Split(q, DOT)| && Split(q, DOT)[..|Split(p, DOT)|] == Split(p, DOT)
    ensures Above(p, q)
  {
    hide Split, Join;
    var ps, qs := Split(p, DOT), Split(q, DOT);
    var rest := qs[|ps|..];
    JoinSplit(p, DOT);
    JoinSplit(q, DOT);
    assert qs == ps + rest;
    JoinAppend(ps, rest, DOT);
    assert q == p + [DOT] + Join(rest, DOT);
  }

  lemma Diverge(p: Permission, q: Permission, k: nat)
    requires k < |Split(p, DOT)| && k < |Split(q, DOT)| && Split(p, DOT)[k] != Split(q, DOT)[k]
    ensures Compare(p, q) == None
  {
    hide Split;
    if Above(p, q) {
      AboveSplits(p, q);
    }
    if Above(q, p) {
      AboveSplits(q, p);
    }
  }

  lemma AboveExcludes(p: Permission, q: Permission)
    requires Above(p, q)
    ensures p != q && !Above(q, p)
  {
  }

  /** The order is a strict partial order, and the two ways of asking agree. */
  lemma PartialOrder(p: Permission, q: Permission, r: Permission)
    ensures Compare(p, q) == Some(Equal) <==> p == q
    ensures Compare(p, q) == Some(Greater) <==> Compare(q, p) == Some(Less)
    ensures Compare(p, q) == Some(Greater) && Compare(q, r) == Some(Greater) ==> Compare(p, r) == Some(Greater)
  {
    if Above(p, q) && Above(q, r) {
      assert r[..|p|] == r[..|q|][..|p|];
      assert r[|p|] == r[..|q|][|p|];
    }
  }

  /** It is a tree: whatever lies above the same permission is comparable. */
  lemma AboveIsChain(p: Permission, q: Permission, r: Permission)
    requires Above(p, r) && Above(q, r)
    ensures Compare(p, q).Some?
  {
    if |p| < |q| {
      assert q == r[..|q|];
      assert Above(p, q);
    } else if |q| < |p| {
      assert p == r[..|p|];
      assert Above(q, p);
    }
  }

  // ----- rules

  datatype PermRule = Base(perm: Permission) | Children(parent: Permission) | Subtree(parent: Permission)

  function MatchPerm(rule: PermRule, perm: Permission): bool {
    match rule
    case Base(base) => base == perm
    case Children(parent) => Compare(parent, perm) == Some(Greater)
    case Subtree(parent) => Compare(parent, perm) == Some(Greater) || Compare(parent, perm) == Some(Equal)
  }

  /** What the three kinds of rule grant, as texts. */
  lemma Grants(p: Permission, q: Permission)
    ensures MatchPerm(Children(p), q) <==> exists t: seq<Byte> :: q == p + [DOT] + t
    ensures MatchPerm(Subtree(p), q) <==> MatchPerm(Base(p), q) || MatchPerm(Children(p), q)
    ensures !(MatchPerm(Base(p), q) && MatchPerm(Children(p), q))
  {
    if Above(p, q) {
      assert q == p + [DOT] + q[|p| + 1..];
    }
    forall t: seq<Byte> | q == p + [DOT] + t ensures Above(p, q) && p != q {
    }
  }

  /** Grants compose down the tree: what `Subtree(q)` grants, a rule granting `q` with its children
      grants too, and a `Children` rule above `q` never loses anything below `q`. */
  lemma GrantsCompose(p: Permission, q: Permission, r: Permission)
    requires MatchPerm(Subtree(q), r)
    ensures MatchPerm(Subtree(p), q) ==> MatchPerm(Subtree(p), r)
    ensures MatchPerm(Children(p), q) ==> MatchPerm(Children(p), r)
  {
    PartialOrder(p, q, r);
    PartialOrder(p, q, q);
    PartialOrder(q, r, r);
  }

  // ----- rules as text

  datatype Outcome = Parsed(rule: PermRule) | TooShort | Panics

  /** An index where a character begins. */
  predicate CharBoundary(s: seq<Byte>, i: nat)
    requires i < |s|
  {
    !(128 <= s[i] < 192)
  }

  /** `try_from`: slicing off a character boundary panics. */
  function TryFromString(input: seq<Byte>): Outcome {
    var len := |input|;
    if len <= 2 then TooShort
    else if !CharBoundary(input, len - 2) then Panics
    else if input[len - 2..] == [DOT, PLUS] then Parsed(Children(input[..len - 2]))
    else if input[len - 2..] == [DOT, STAR] then Parsed(Subtree(input[..len - 2]))
    else Parsed(Base(input))
  }

  /** `Display`. */
  function Display(rule: PermRule): seq<Byte> {
    match rule
    case Base(perm) => perm
    case Children(parent) => parent + [DOT, PLUS]
    case Subtree(parent) => parent + [DOT, STAR]
  }

  /** A string parses exactly when it is longer than two octets and its last two begin on a
      character boundary; whatever it parses to displays as the string. */
  lemma ParseThenDisplay(input: seq<Byte>)
    ensures TryFromString(input).Parsed? <==> |input| > 2 && CharBoundary(input, |input| - 2)
    ensures TryFromString(input) == TooShort <==> |input| <= 2
    ensures TryFromString(input).Parsed? ==> Display(TryFromString(input).rule) == input
  {
    if |input| > 2 {
      assert input == input[..|input| - 2] + input[|input| - 2..];
    }
  }

  predicate EndsInMark(s: seq<Byte>) {
    |s| >= 2 && s[|s| - 2] == DOT && (s[|s| - 1] == PLUS || s[|s| - 1] == STAR)
  }

  /** A rule displays as a string that parses back to it exactly when its path is not empty; a `Base`
      rule moreover must be long enough, have a boundary, and not look like another kind. */
  lemma DisplayThenParse(rule: PermRule)
    ensures TryFromString(Display(rule)) == Parsed(rule) <==>
            match rule
            case Base(perm) => |perm| > 2 && CharBoundary(perm, |perm| - 2) && !EndsInMark(perm)
            case Children(parent) => parent != []
            case Subtree(parent) => parent != []
  {
    var text := Display(rule);
    match rule
    case Base(perm) =>
      if |perm| > 2 {
        assert perm[|perm| - 2..] == [perm[|perm| - 2], perm[|perm| - 1]];
      }
    case Children(parent) =>
      assert text[..|parent|] == parent && text[|parent|..] == [DOT, PLUS];
    case Subtree(parent) =>
      assert text[..|parent|] == parent && text[|parent|..] == [DOT, STAR];
  }

  /** So displaying a `Children` or `Subtree` rule and reading it back keeps what it grants. */
  lemma DisplayKeepsGrants(rule: PermRule, perm: Permission)
    requires !rule.Base? && rule.parent != []
    ensures var read := TryFromString(Display(rule));
            read.Parsed? && (MatchPerm(read.rule, perm) <==> MatchPerm(rule, perm))
  {
    DisplayThenParse(rule);
  }

  // ----- rules as stored

  /** The path with one more part. */
  function Pushed(path: seq<Byte>, part: seq<Byte>): seq<Byte> {
    if path != [] && path[|path| - 1] != DOT then path + [DOT] + part else path + part
  }

  class PermissionBuf {
    var inner: seq<Byte>

    constructor (s: seq<Byte>)
      ensures inner == s
    {
      inner := s;
    }

    /** `_push`: a separator goes in unless the path is empty or ends in one. Whatever lay above or
        was the path still lies above the longer path, unless the path was empty or ended in a dot. */
    method Push(perm: Permission)
      modifies this
      ensures inner == Pushed(old(inner), perm)
      ensures old(inner) != [] && old(inner)[|old(inner)| - 1] != DOT ==> Above(old(inner), inner)
    {
      var needSep := inner != [] && inner[|inner| - 1] != DOT;
      if needSep {
        inner := inner + [DOT];
      }
      inner := inner + perm;
    }
  }

  /** `Into<String>`: a `Subtree` is written with a plus, like `Children`. */
  method IntoString(rule: PermRule) returns (s: seq<Byte>)
    ensures s == Stored(rule)
  {
    match rule
    case Base(perm) => s := perm;
    case Children(parent) =>
      var buf := new PermissionBuf(parent);
      buf.Push([PLUS]);
      s := buf.inner;
    case Subtree(parent) =>
      var buf := new PermissionBuf(parent);
      buf.Push([PLUS]);
      s := buf.inner;
  }

  function Stored(rule: PermRule): seq<Byte> {
    match rule
    case Base(perm) => perm
    case Children(parent) => Pushed(parent, [PLUS])
    case Subtree(parent) => Pushed(parent, [PLUS])
  }

  predicate EndsInDot(path: Permission) { path != [] && path[|path| - 1] == DOT }

  /** The path without one dot at its end. */
  function Trunk(path: Permission): Permission { if EndsInDot(path) then path[..|path| - 1] else path }

  /** What is read back for every stored `Children` or `Subtree` rule: nothing for the empty path and
      the single dot, otherwise a `Children` rule, for the path without a dot at its end. */
  lemma StoredReads(rule: PermRule)
    requires !rule.Base?
    ensures TryFromString(Stored(rule)) ==
            if Trunk(rule.parent) == [] then TooShort else Parsed(Children(Trunk(rule.parent)))
  {
    var path, text := rule.parent, Stored(rule);
    if EndsInDot(path) {
      assert text == Trunk(path) + [DOT, PLUS];
    } else {
      assert path != [] ==> text == path + [DOT, PLUS];
    }
    assert Trunk(path) != [] ==> text[..|text| - 2] == Trunk(path) && text[|text| - 2..] == [DOT, PLUS];
  }

  /** A `Subtree` rule never survives being stored and read back; a `Children` rule does exactly when
      its path is not empty and does not end in a dot. */
  lemma StoredRoundTrip(rule: PermRule)
    requires !rule.Base?
    ensures TryFromString(Stored(rule)) == Parsed(rule) <==>
            rule.Children? && rule.parent != [] && !EndsInDot(rule.parent)
  {
    StoredReads(rule);
  }

  /** `perm` begins with the path and does not go on with a dot. */
  predicate ContinuesWithoutDot(path: Permission, perm: Permission) {
    |path| <= |perm| && perm[..|path|] == path && (|perm| > |path| ==> perm[|path|] != DOT)
  }

  /** Exactly what a stored rule that reads back loses and gains. A `Subtree` rule loses the permission
      it names. A rule whose path ends in a dot loses nothing and gains every permission that begins
      with the path, so a rule for "a." grants everything below "a". */
  lemma StoredChanges(rule: PermRule, perm: Permission)
    requires !rule.Base? && Trunk(rule.parent) != []
    ensures var read := TryFromString(Stored(rule));
            && read.Parsed?
            && (MatchPerm(rule, perm) && !MatchPerm(read.rule, perm) <==>
                rule.Subtree? && !EndsInDot(rule.parent) && perm == rule.parent)
            && (MatchPerm(read.rule, perm) && !MatchPerm(rule, perm) <==>
                EndsInDot(rule.parent) && ContinuesWithoutDot(rule.parent, perm) && !(rule.Subtree? && perm == rule.parent))
  {
    StoredReads(rule);
    var path := rule.parent;
    var trunk := Trunk(path);
    if EndsInDot(path) {
      assert path == trunk + [DOT];
      if |perm| >= |path| {
        assert perm[..|path|] == perm[..|trunk|] + [perm[|trunk|]];
      }
    }
  }

  /** What a rule grants once it was stored and read back, against what it granted. */
  ghost predicate StoredWidens(rule: PermRule) {
    var read := TryFromString(Stored(rule));
    read.Parsed? && exists perm :: MatchPerm(read.rule, perm) && !MatchPerm(rule, perm)
  }

  ghost predicate StoredNarrows(rule: PermRule) {
    var read := TryFromString(Stored(rule));
    read.Parsed? && exists perm :: MatchPerm(rule, perm) && !MatchPerm(read.rule, perm)
  }

  /** Storing widens a rule that reads back if and only if its path ends in a dot, or, for a `Base`
      rule, its text looks like another kind; it narrows just the `Subtree` rules on other paths. */
  lemma StoredExactly(rule: PermRule)
    requires TryFromString(Stored(rule)).Parsed?
    ensures StoredWidens(rule) <==> if rule.Base? then EndsInMark(rule.perm) else EndsInDot(rule.parent)
    ensures StoredNarrows(rule) <==> rule.Subtree? && !EndsInDot(rule.parent)
  {
    if rule.Base? {
      StoredBase(rule.perm);
    } else {
      StoredReads(rule);
      var path := rule.parent;
      if EndsInDot(path) {
        StoredChanges(rule, path + [PLUS]);
        assert ContinuesWithoutDot(path, path + [PLUS]);
      }
      if rule.Subtree? && !EndsInDot(path) {
        StoredChanges(rule, path);
      }
      forall perm ensures MatchPerm(TryFromString(Stored(rule)).rule, perm) && !MatchPerm(rule, perm) ==> EndsInDot(path)
        ensures MatchPerm(rule, perm) && !MatchPerm(TryFromString(Stored(rule)).rule, perm) ==> rule.Subtree? && !EndsInDot(path)
      {
        StoredChanges(rule, perm);
      }
    }
  }

  /** A `Base` rule that looks like another kind reads back as that kind and grants more, its own
      permission included. */
  lemma StoredBase(perm: Permission)
    requires TryFromString(Stored(Base(perm))).Parsed?
    ensures StoredWidens(Base(perm)) <==> EndsInMark(perm)
    ensures !StoredNarrows(Base(perm))
  {
    DisplayThenParse(Base(perm));
    if EndsInMark(perm) {
      var n := |perm| - 2;
      var read := TryFromString(perm).rule;
      assert perm[n..] == [perm[n], perm[n + 1]];
      assert Above(perm[..n], perm);
      var other := perm + [PLUS];
      assert other[..n] == perm[..n] && other[n] == DOT;
      assert Above(perm[..n], other);
      assert MatchPerm(read, other) && !MatchPerm(Base(perm), other);
    }
  }
}
