/** Object identifiers: bffhd/utils/oid.rs. */
module Oid {
  import opened Wrappers
  import opened Bits
  import opened Text
  import opened Varint

  const MAX_NODE: nat := 0xFFFF_FFFF_FFFF_FFFF_FFFF_FFFF_FFFF_FFFF

  /** The smallest arc the printer refuses, 2^128 - 128. */
  const TOO_BIG: nat := 0xFFFF_FFFF_FFFF_FFFF_FFFF_FFFF_FFFF_FF80

  type Node = n: nat | n <= MAX_NODE

  datatype OidError = IllegalRootNode | IllegalFirstChildNode | IllegalChildNodeValue

  type Bytes = seq<Byte>

  // ----- octets as numbers: groups ending in an unmarked octet, and what is left over

  datatype Groups = Groups(complete: seq<Bytes>, rest: Bytes)

  function GroupsOf(s: Bytes): Groups {
    if s == [] then Groups([], [])
    else
      var g, b := GroupsOf(s[..|s| - 1]), s[|s| - 1];
      if b >= 128 then Groups(g.complete, g.rest + [b])
      else Groups(g.complete + [g.rest + [b]], [])
  }

  /** Every group, finished or not, is below the bound. */
  predicate Printable(s: Bytes) {
    var g := GroupsOf(s);
    Number(g.rest) < TOO_BIG && forall i :: 0 <= i < |g.complete| ==> Number(g.complete[i]) < TOO_BIG
  }

  /** The arcs shown: the groups' numbers, except that a zero written with more than one octet
      disappears. */
  function Shown(groups: seq<Bytes>): seq<nat> {
    if groups == [] then []
    else
      var last := groups[|groups| - 1];
      var shown := Shown(groups[..|groups| - 1]);
      if |last| > 1 && Number(last) == 0 then shown else shown + [Number(last)]
  }

  function Decimals(ns: seq<nat>): (parts: seq<string>)
    ensures |parts| == |ns|
    ensures forall i :: 0 <= i < |ns| ==> parts[i] == Decimal(ns[i])
  {
    seq(|ns|, i requires 0 <= i < |ns| => Decimal(ns[i]))
  }

  /** The dotted form of root, first node and arcs. */
  function Dotted(root: nat, first: nat, arcs: seq<nat>): string {
    Join(Decimals([root, first] + arcs), '.')
  }

  /** The printer. */
  function Print(nodes: Bytes): Result<string, OidError>
    requires |nodes| > 0
  {
    if Printable(nodes[1..]) then
      Ok(Dotted(nodes[0] / 40, nodes[0] % 40, Shown(GroupsOf(nodes[1..]).complete)))
    else
      Err(IllegalChildNodeValue)
  }

  lemma GroupsSnoc(s: Bytes, b: Byte)
    ensures var g := GroupsOf(s);
            GroupsOf(s + [b]) == if b >= 128 then Groups(g.complete, g.rest + [b])
                                 else Groups(g.complete + [g.rest + [b]], [])
  {
    assert (s + [b])[..|s|] == s;
  }

  lemma ShownSnoc(groups: seq<Bytes>, last: Bytes)
    ensures Shown(groups + [last])
         == if |last| > 1 && Number(last) == 0 then Shown(groups) else Shown(groups) + [Number(last)]
  {
    assert (groups + [last])[..|groups|] == groups;
  }

  /** One more octet: the longer list is printable exactly when the shorter one is and the group
      in progress stays below the bound. */
  lemma PrintableSnoc(s: Bytes, b: Byte)
    ensures Printable(s + [b]) <==> Printable(s) && Number(GroupsOf(s).rest + [b]) < TOO_BIG
  {
    hide Number, GroupsOf;
    GroupsSnoc(s, b);
    EmptyNumber();
    var g, g' := GroupsOf(s), GroupsOf(s + [b]);
    NumberSnoc(g.rest, b);
    if b < 128 {
      assert g'.complete[|g.complete|] == g.rest + [b];
      assert forall i :: 0 <= i < |g.complete| ==> g'.complete[i] == g.complete[i];
    }
  }

  lemma {:induction false} PrintablePrefix(s: Bytes, i: nat)
    requires i <= |s| && Printable(s)
    ensures Printable(s[..i])
    decreases |s| - i
  {
    hide Printable;
    if i == |s| {
      assert s[..i] == s;
    } else {
      PrintablePrefix(s, i + 1);
      assert s[..i + 1] == s[..i] + [s[i]];
      PrintableSnoc(s[..i], s[i]);
    }
  }

  /** What the variables of either loop hold after the octets `s`. */
  ghost predicate Progress(s: Bytes, big: nat, parsing: bool) {
    Printable(s) && big == Number(GroupsOf(s).rest) && (parsing <==> GroupsOf(s).rest != [])
  }

  /** One round of either loop. */
  lemma ProgressStep(s: Bytes, b: Byte, big: nat, parsing: bool)
    requires Progress(s, big, parsing)
    ensures !parsing ==> big == 0
    ensures !Printable(s + [b]) <==> big >= MAX_NODE / 128
    ensures big < MAX_NODE / 128 ==>
              && big * 128 + b % 128 <= MAX_NODE
              && Progress(s + [b], if b >= 128 then big * 128 + b % 128 else 0, b >= 128)
    ensures Number(GroupsOf(s).rest + [b]) == 128 * big + b % 128
  {
    hide Number, GroupsOf, Printable;
    PrintableSnoc(s, b);
    NumberSnoc(GroupsOf(s).rest, b);
    GroupsSnoc(s, b);
    EmptyNumber();
  }

  // ----- the loops

  /** `big_int <<= 7` in 128 bits. */
  function Shl7(big: nat): nat { (big * 128) % (MAX_NODE + 1) }

  lemma Shl7Exact(big: nat)
    requires big < TOO_BIG / 128
    ensures Shl7(big) == big * 128
  {
  }

  /** `|=` of seven bits just shifted in is an addition. */
  lemma OrSeven(big: nat, lo: nat)
    requires lo < 128
    ensures Or(big * 128, lo) == big * 128 + lo
  {
    hide Or;
    Pow2Small();
    hide Pow2;
    SplitAt(7, big, 0, 0, lo);
    OrZero(big);
    OrZero(lo);
  }

  lemma PrintOk(nodes: Bytes)
    requires |nodes| > 0
    ensures Print(nodes).Ok? <==> Printable(nodes[1..])
  {
    hide Printable, Shown, Dotted, GroupsOf;
  }

  method FromBox(nodes: Bytes) returns (r: Result<Bytes, OidError>)
    ensures r == if |nodes| == 0 || nodes[0] / 40 > 2 then Err(IllegalRootNode)
                 else if Print(nodes).Ok? then Ok(nodes)
                 else Err(IllegalChildNodeValue)
  {
    hide Print, Number, GroupsOf, Printable, Progress, Or, Shl7;
    if |nodes| < 1 { return Err(IllegalRootNode); }
    if nodes[0] / 40 > 2 { return Err(IllegalRootNode); }
    ghost var tail := nodes[1..];
    PrintOk(nodes);
    var parsing := false;
    var big: nat := 0;
    NothingYet();
    assert tail[..0] == [];
    for i := 1 to |nodes|
      invariant Progress(tail[..i - 1], big, parsing)
    {
      assert tail[..i] == tail[..i - 1] + [nodes[i]];
      ProgressStep(tail[..i - 1], nodes[i], big, parsing);
      ghost var was := big;
      if !parsing && nodes[i] < 128 {
      } else {
        if big > 0 {
          if big >= MAX_NODE / 128 {
            NotPrefix(tail, i);
            return Err(IllegalChildNodeValue);
          }
          Shl7Exact(big);
          big := Shl7(big);
        }
        assert big == was * 128;
        OrSeven(was, nodes[i] % 128);
        big := Or(big, nodes[i] % 128);
        parsing := nodes[i] >= 128;
      }
      if big > 0 && !parsing {
        big := 0;
      }
    }
    assert Printable(tail[..|tail|]) by { ProgressPrints(tail[..|tail|], big, parsing); }
    assert tail[..|tail|] == tail;
    return Ok(nodes);
  }

  method ConvertToString(nodes: Bytes) returns (r: Result<string, OidError>)
    requires |nodes| > 0
    ensures r == Print(nodes)
  {
    hide Number, GroupsOf, Printable, Progress, Shl7, Dotted, Shown, Decimal;
    var out := Decimal(nodes[0] / 40);
    out := out + ['.'];
    out := out + Decimal(nodes[0] % 40);
    ghost var root, first := nodes[0] / 40, nodes[0] % 40;
    var parsing := false;
    var big: nat := 0;
    ghost var tail := nodes[1..];
    NothingYet();
    DottedTwo(root, first);
    assert tail[..0] == [];
    for i := 1 to |nodes|
      invariant Progress(tail[..i - 1], big, parsing)
      invariant out == Dotted(root, first, Shown(GroupsOf(tail[..i - 1]).complete))
    {
      ghost var s, b := tail[..i - 1], nodes[i];
      assert tail[..i] == s + [b];
      ghost var g := GroupsOf(s);
      ProgressStep(s, b, big, parsing);
      ProgressPrints(s, big, parsing);
      GroupsSnoc(s, b);
      ShownSnoc(g.complete, g.rest + [b]);
      DottedSnoc(root, first, Shown(g.complete), 128 * big + b % 128);
      assert |g.rest + [b]| == |g.rest| + 1;
      if !parsing && nodes[i] < 128 {
        out := out + ['.'] + Decimal(nodes[i]);
      } else {
        if big > 0 {
          if big >= MAX_NODE / 128 {
            NotPrefix(tail, i);
            return Err(IllegalChildNodeValue);
          }
          Shl7Exact(big);
          big := Shl7(big);
        }
        big := big + nodes[i] % 128;
        parsing := nodes[i] >= 128;
      }
      if big > 0 && !parsing {
        out := out + ['.'] + Decimal(big);
        big := 0;
      }
    }
    ProgressPrints(tail[..|tail|], big, parsing);
    assert tail[..|tail|] == tail;
    return Ok(out);
  }

  lemma ProgressPrints(s: Bytes, big: nat, parsing: bool)
    requires Progress(s, big, parsing)
    ensures Printable(s) && (parsing <==> GroupsOf(s).rest != [])
  {
  }

  lemma NotPrefix(s: Bytes, i: nat)
    requires i <= |s| && !Printable(s[..i])
    ensures !Printable(s)
  {
    if Printable(s) {
      PrintablePrefix(s, i);
    }
  }

  lemma NothingYet()
    ensures Progress([], 0, false) && Printable([]) && GroupsOf([]) == Groups([], []) && Number([]) == 0 && Shown([]) == []
  {
  }

  lemma DottedTwo(root: nat, first: nat)
    ensures Dotted(root, first, []) == Decimal(root) + ['.'] + Decimal(first)
  {
    assert [root, first] + [] == [root, first];
    var parts := Decimals([root, first]);
    assert parts[1..] == [Decimal(first)];
    assert Join(parts, '.') == Decimal(root) + ['.'] + Join([Decimal(first)], '.');
  }

  lemma DottedSnoc(root: nat, first: nat, arcs: seq<nat>, n: nat)
    ensures Dotted(root, first, arcs + [n]) == Dotted(root, first, arcs) + ['.'] + Decimal(n)
  {
    var ns := [root, first] + arcs;
    assert [root, first] + (arcs + [n]) == ns + [n];
    assert Decimals(ns + [n]) == Decimals(ns) + [Decimal(n)];
    JoinSnoc(Decimals(ns), Decimal(n), '.');
  }

  method Build(root: nat, first: Byte, children: seq<Node>) returns (r: Result<Bytes, OidError>)
    requires root <= 2
    ensures r == if first > 40 then Err(IllegalFirstChildNode) else Ok([root * 40 + first] + EncAll(children))
  {
    if first > 40 { return Err(IllegalFirstChildNode); }
    hide EncAll, Enc, Pow2;
    var vec: Bytes := [root * 40 + first];
    EncAllEmpty();
    assert children[..0] == [];
    for i := 0 to |children|
      invariant vec == [root * 40 + first] + EncAll(children[..i])
    {
      NodeFits(children[i]);
      var v := new VarUInt.Encode(U128, children[i]);
      vec := vec + v.AsBytes();
      EncAllSnoc(children[..i], children[i]);
      assert children[..i + 1] == children[..i] + [children[i]];
    }
    assert children[..|children|] == children;
    return Ok(vec);
  }

  lemma NodeFits(n: Node)
    ensures U128.Holds(n)
  {
    Pow2Values();
  }

  lemma EncAllEmpty()
    ensures EncAll([]) == []
  {
  }

  lemma EncAllCons(n: nat, ns: seq<nat>)
    ensures EncAll([n] + ns) == Enc(n) + EncAll(ns)
  {
    hide Enc;
    assert ([n] + ns)[1..] == ns;
  }

  lemma {:induction false} EncAllSnoc(ns: seq<nat>, n: nat)
    ensures EncAll(ns + [n]) == EncAll(ns) + Enc(n)
    decreases |ns|
  {
    hide EncAll, Enc;
    if ns == [] {
      EncAllCons(n, []);
      EncAllEmpty();
      assert ns + [n] == [n] + [];
    } else {
      EncAllSnoc(ns[1..], n);
      EncAllCons(ns[0], ns[1..]);
      EncAllCons(ns[0], ns[1..] + [n]);
      assert ns + [n] == [ns[0]] + (ns[1..] + [n]) && [ns[0]] + ns[1..] == ns;
    }
  }

  // ----- parsing

  predicate AllNodes(parts: seq<string>) {
    forall i :: 0 <= i < |parts| ==> ParseUnsigned(parts[i], MAX_NODE).Some?
  }

  function NodesOf(parts: seq<string>): (ns: seq<Node>)
    requires AllNodes(parts)
    ensures |ns| == |parts| && forall i :: 0 <= i < |ns| ==> Some(ns[i]) == ParseUnsigned(parts[i], MAX_NODE)
  {
    seq(|parts|, i requires 0 <= i < |parts| => ParseUnsigned(parts[i], MAX_NODE).value)
  }

  predicate RootText(part: string) { ParseUnsigned(part, 255).Some? && ParseUnsigned(part, 255).value <= 2 }

  predicate FirstText(part: string) { ParseUnsigned(part, 255).Some? && ParseUnsigned(part, 255).value <= 39 }

  /** The parser, on the parts between the dots. */
  function ParseParts(parts: seq<string>): Result<Bytes, OidError>
    requires |parts| > 0
  {
    if !RootText(parts[0]) then Err(IllegalRootNode)
    else if |parts| < 2 || !FirstText(parts[1]) then Err(IllegalFirstChildNode)
    else if !AllNodes(parts[2..]) then Err(IllegalChildNodeValue)
    else Ok([RootOctet(parts[0], parts[1])] + EncAll(NodesOf(parts[2..])))
  }

  function RootOctet(root: string, first: string): Byte
    requires RootText(root) && FirstText(first)
  {
    ParseUnsigned(root, 255).value * 40 + ParseUnsigned(first, 255).value
  }

  function Parse(value: string): Result<Bytes, OidError> { ParseParts(Split(value, '.')) }

  method FromStr(value: string) returns (r: Result<Bytes, OidError>)
    ensures r == Parse(value)
  {
    hide ParseUnsigned, EncAll;
    var parts := Split(value, '.');
    var root := ParseUnsigned(parts[0], 255);
    if root.None? || root.value > 2 { return Err(IllegalRootNode); }
    if |parts| < 2 { return Err(IllegalFirstChildNode); }
    var first := ParseUnsigned(parts[1], 255);
    if first.None? || first.value > 39 { return Err(IllegalFirstChildNode); }
    var children: seq<Node> := [];
    for i := 2 to |parts|
      invariant |children| == i - 2
      invariant forall k :: 0 <= k < i - 2 ==> ParseUnsigned(parts[2..][k], MAX_NODE) == Some(children[k])
    {
      var child := ParseUnsigned(parts[i], MAX_NODE);
      assert parts[2..][i - 2] == parts[i];
      if child.None? { return Err(IllegalChildNodeValue); }
      InRange(parts[i], MAX_NODE);
      children := children + [child.value];
    }
    assert children == NodesOf(parts[2..]);
    r := Build(root.value, first.value, children);
  }

  lemma InRange(part: string, max: nat)
    ensures ParseUnsigned(part, max).Some? ==> ParseUnsigned(part, max).value <= max
  {
  }

  // ----- what printing makes of built octets

  function Encs(ns: seq<nat>): (groups: seq<Bytes>)
    ensures |groups| == |ns|
    ensures forall i :: 0 <= i < |ns| ==> groups[i] == Enc(ns[i])
  {
    seq(|ns|, i requires 0 <= i < |ns| => Enc(ns[i]))
  }

  lemma {:induction false} MarkedJoinsRest(s: Bytes, h: Bytes)
    requires GroupsOf(s).rest == [] && forall i :: 0 <= i < |h| ==> h[i] >= 128
    ensures GroupsOf(s + h) == Groups(GroupsOf(s).complete, h)
    decreases |h|
  {
    hide GroupsOf;
    if h == [] {
      assert s + h == s;
    } else {
      var front, last := h[..|h| - 1], h[|h| - 1];
      MarkedJoinsRest(s, front);
      GroupsSnoc(s + front, last);
      assert s + h == s + front + [last] && front + [last] == h;
    }
  }

  lemma DelimitedIsGroup(s: Bytes, c: Bytes)
    requires GroupsOf(s).rest == [] && Delimited(c)
    ensures GroupsOf(s + c) == Groups(GroupsOf(s).complete + [c], [])
  {
    hide GroupsOf;
    var front, last := c[..|c| - 1], c[|c| - 1];
    MarkedJoinsRest(s, front);
    GroupsSnoc(s + front, last);
    assert front + [last] == c;
    assert s + front + [last] == s + c;
    hide Delimited;
  }

  /** The groups of a concatenation of encodings are the encodings. */
  lemma {:induction false} GroupsOfEncAll(ns: seq<nat>)
    ensures GroupsOf(EncAll(ns)) == Groups(Encs(ns), [])
    decreases |ns|
  {
    hide GroupsOf, EncAll, Enc;
    if ns == [] {
      NothingYet();
      EncAllEmpty();
    } else {
      var front, last := ns[..|ns| - 1], ns[|ns| - 1];
      assert front + [last] == ns;
      GroupsOfEncAll(front);
      EncAllSnoc(front, last);
      EncShape(last);
      DelimitedIsGroup(EncAll(front), Enc(last));
      assert Encs(ns) == Encs(front) + [Enc(last)];
    }
  }

  lemma {:induction false} ShownEncs(ns: seq<nat>)
    ensures Shown(Encs(ns)) == ns
    decreases |ns|
  {
    hide Shown, Enc;
    if ns == [] {
      NothingYet();
      assert Encs(ns) == [];
    } else {
      var front, last := ns[..|ns| - 1], ns[|ns| - 1];
      assert front + [last] == ns;
      ShownEncs(front);
      assert Encs(ns) == Encs(front) + [Enc(last)];
      ShownSnoc(Encs(front), Enc(last));
      EncShape(last);
      ZeroIsShort(last);
    }
  }

  lemma ZeroIsShort(n: nat)
    ensures |Enc(n)| > 1 ==> n > 0
  {
    HighShape(n / 128);
  }

  /** Built octets print exactly when every arc is below the bound, and then as their arcs. */
  lemma PrintBuilt(b: Byte, arcs: seq<nat>)
    ensures Print([b] + EncAll(arcs)) ==
            if forall i :: 0 <= i < |arcs| ==> arcs[i] < TOO_BIG then Ok(Dotted(b / 40, b % 40, arcs))
            else Err(IllegalChildNodeValue)
  {
    hide GroupsOf, EncAll, Enc, Shown, Dotted, Number;
    var nodes := [b] + EncAll(arcs);
    assert nodes[1..] == EncAll(arcs);
    GroupsOfEncAll(arcs);
    ShownEncs(arcs);
    EmptyNumber();
    forall i | 0 <= i < |arcs| ensures Number(Encs(arcs)[i]) == arcs[i] {
      EncShape(arcs[i]);
    }
  }

  // ----- round trips

  lemma {:induction false} DottedSplits(root: nat, first: nat, arcs: seq<nat>)
    ensures Split(Dotted(root, first, arcs), '.') == Decimals([root, first] + arcs)
  {
    var parts := Decimals([root, first] + arcs);
    forall i | 0 <= i < |parts| ensures Free(parts[i], '.') {
      assert AllDigits(parts[i]);
    }
    SplitJoin(parts, '.');
  }

  /** Parsing a dotted form gives its octets. */
  lemma ParseDotted(root: nat, first: nat, arcs: seq<nat>)
    requires root <= 2 && first <= 39 && forall i :: 0 <= i < |arcs| ==> arcs[i] <= MAX_NODE
    ensures Parse(Dotted(root, first, arcs)) == Ok([root * 40 + first] + EncAll(arcs))
  {
    hide ParseParts, EncAll, Dotted, Split, Decimals;
    DottedSplits(root, first, arcs);
    ParsePartsDecimals(root, first, arcs);
  }

  lemma ParsePartsDecimals(root: nat, first: nat, arcs: seq<nat>)
    requires root <= 2 && first <= 39 && forall i :: 0 <= i < |arcs| ==> arcs[i] <= MAX_NODE
    ensures ParseParts(Decimals([root, first] + arcs)) == Ok([root * 40 + first] + EncAll(arcs))
  {
    var parts := Decimals([root, first] + arcs);
    hide *;
    ParseDecimal(root, 255);
    ParseDecimal(first, 255);
    forall i | 0 <= i < |arcs| ensures parts[2..][i] == Decimal(arcs[i]) {
    }
    NodesOfDecimals(parts[2..], arcs);
    ParsePartsOf(parts, root, first, arcs);
  }

  lemma NodesOfDecimals(parts: seq<string>, arcs: seq<nat>)
    requires |parts| == |arcs| && forall i :: 0 <= i < |arcs| ==> arcs[i] <= MAX_NODE && parts[i] == Decimal(arcs[i])
    ensures AllNodes(parts) && NodesOf(parts) == arcs
  {
    hide ParseUnsigned, Decimal, NodesOf;
    forall i | 0 <= i < |arcs| ensures ParseUnsigned(parts[i], MAX_NODE) == Some(arcs[i]) {
      ParseDecimal(arcs[i], MAX_NODE);
    }
  }

  lemma ParsePartsOf(parts: seq<string>, root: nat, first: nat, arcs: seq<nat>)
    requires |parts| >= 2 && root <= 2 && first <= 39
    requires ParseUnsigned(parts[0], 255) == Some(root) && ParseUnsigned(parts[1], 255) == Some(first)
    requires AllNodes(parts[2..]) && NodesOf(parts[2..]) == arcs
    ensures ParseParts(parts) == Ok([root * 40 + first] + EncAll(arcs))
  {
    hide ParseUnsigned, EncAll, NodesOf, AllNodes;
  }

  lemma OctetParts(root: string, first: string)
    requires RootText(root) && FirstText(first) && Canonical(root) && Canonical(first)
    ensures var b := RootOctet(root, first); Decimal(b / 40) == root && Decimal(b % 40) == first
  {
    hide ParseUnsigned, Canonical, Decimal;
    CanonicalParse(root, 255);
    CanonicalParse(first, 255);
  }

  lemma NodesAreDecimals(parts: seq<string>)
    requires AllNodes(parts) && forall i :: 0 <= i < |parts| ==> Canonical(parts[i])
    ensures Decimals(NodesOf(parts)) == parts
  {
    hide ParseUnsigned, Canonical, Decimals, Decimal, NodesOf;
    forall i | 0 <= i < |parts| ensures Decimal(NodesOf(parts)[i]) == parts[i] {
      CanonicalParse(parts[i], MAX_NODE);
    }
  }

  lemma PartsAreDecimals(parts: seq<string>)
    requires |parts| >= 2 && RootText(parts[0]) && FirstText(parts[1]) && AllNodes(parts[2..])
    requires forall i :: 0 <= i < |parts| ==> Canonical(parts[i])
    ensures var b := RootOctet(parts[0], parts[1]);
            parts == Decimals([b / 40, b % 40] + NodesOf(parts[2..]))
  {
    hide RootText, FirstText, AllNodes, Canonical, Decimals, Decimal, NodesOf, RootOctet;
    OctetParts(parts[0], parts[1]);
    NodesAreDecimals(parts[2..]);
    var b, arcs := RootOctet(parts[0], parts[1]), NodesOf(parts[2..]);
    assert Decimals([b / 40, b % 40] + arcs) == [Decimal(b / 40), Decimal(b % 40)] + Decimals(arcs);
  }

  /** The arcs of a text that parses. */
  function ArcsOf(value: string): (arcs: seq<Node>)
    requires Parse(value).Ok?
  {
    NodesOf(Split(value, '.')[2..])
  }

  /** For a text that parses: its octets print, and `from_box` takes them, exactly when every arc
      is below 2^128 - 128; and then the printed text parses back to the same octets. */
  lemma PrintThenParse(value: string)
    requires Parse(value).Ok?
    ensures var nodes := Parse(value).value;
            && |nodes| > 0 && nodes[0] / 40 <= 2
            && (Print(nodes).Ok? <==> forall i :: 0 <= i < |ArcsOf(value)| ==> ArcsOf(value)[i] < TOO_BIG)
            && (Print(nodes).Ok? ==> Parse(Print(nodes).value) == Ok(nodes))
  {
    var parts := Split(value, '.');
    hide EncAll, Dotted, Split, Print;
    var b, arcs := RootOctet(parts[0], parts[1]), ArcsOf(value);
    PrintBuilt(b, arcs);
    hide ParseParts;
    ParseDotted(b / 40, b % 40, arcs);
  }

  /** A text that parses prints back unchanged if and only if its parts are canonical decimals and its
      arcs are below the bound. */
  lemma ParseThenPrint(value: string)
    requires Parse(value).Ok?
    ensures Print(Parse(value).value) == Ok(value) <==>
            && (forall i :: 0 <= i < |ArcsOf(value)| ==> ArcsOf(value)[i] < TOO_BIG)
            && (forall i :: 0 <= i < |Split(value, '.')| ==> Canonical(Split(value, '.')[i]))
  {
    var parts := Split(value, '.');
    hide EncAll, Print, Canonical, Split, ParseUnsigned, Dotted;
    var b, arcs := RootOctet(parts[0], parts[1]), ArcsOf(value);
    PrintBuilt(b, arcs);
    if forall i :: 0 <= i < |parts| ==> Canonical(parts[i]) {
      CanonicalIsDotted(value);
    }
    if value == Dotted(b / 40, b % 40, arcs) {
      DottedIsCanonical(b / 40, b % 40, arcs);
    }
  }

  lemma CanonicalIsDotted(value: string)
    requires Parse(value).Ok? && forall i :: 0 <= i < |Split(value, '.')| ==> Canonical(Split(value, '.')[i])
    ensures var parts := Split(value, '.');
            && |parts| >= 2 && RootText(parts[0]) && FirstText(parts[1])
            && var b := RootOctet(parts[0], parts[1]);
               value == Dotted(b / 40, b % 40, ArcsOf(value))
  {
    hide EncAll, Canonical, Split, ParseUnsigned, Decimals, Decimal;
    PartsAreDecimals(Split(value, '.'));
    JoinSplit(value, '.');
  }

  lemma DottedIsCanonical(root: nat, first: nat, arcs: seq<nat>)
    ensures var parts := Split(Dotted(root, first, arcs), '.');
            forall i :: 0 <= i < |parts| ==> Canonical(parts[i])
  {
    hide Canonical, Split, Decimals, Decimal, Dotted;
    DottedSplits(root, first, arcs);
    var parts, ns := Decimals([root, first] + arcs), [root, first] + arcs;
    forall i | 0 <= i < |parts| ensures Canonical(parts[i]) {
      ValueOfDecimal(ns[i]);
    }
  }

  /** Which error a text that does not parse gives: that of its first bad part, in order. */
  lemma ParseErrors(value: string)
    ensures var parts := Split(value, '.');
            && (Parse(value) == Err(IllegalRootNode) <==> !RootText(parts[0]))
            && (Parse(value) == Err(IllegalFirstChildNode) <==>
                RootText(parts[0]) && (|parts| == 1 || !FirstText(parts[1])))
            && (Parse(value) == Err(IllegalChildNodeValue) <==>
                |parts| > 1 && RootText(parts[0]) && FirstText(parts[1]) && !AllNodes(parts[2..]))
  {
    hide Split, ParseUnsigned, EncAll;
  }

  lemma CanonicalParse(part: string, max: nat)
    requires Canonical(part) && ParseUnsigned(part, max).Some?
    ensures Decimal(ParseUnsigned(part, max).value) == part
  {
    assert IsDigit(part[0]);
    DecimalOfValue(part);
  }

  // ----- octets from outside

  /** Octets with nothing left over and no group that begins with 0x80. */
  predicate Minimal(s: Bytes) {
    var g := GroupsOf(s);
    g.rest == [] && forall i :: 0 <= i < |g.complete| ==> g.complete[i] != [] && g.complete[i][0] != 128
  }

  function Numbers(groups: seq<Bytes>): (ns: seq<nat>)
    ensures |ns| == |groups| && forall i :: 0 <= i < |ns| ==> ns[i] == Number(groups[i])
  {
    seq(|groups|, i requires 0 <= i < |groups| => Number(groups[i]))
  }

  /** Groups are delimited, and together they are the octets. */
  lemma {:induction false} GroupsCover(s: Bytes)
    ensures var g := GroupsOf(s);
            && s == Concat(g.complete) + g.rest
            && (forall i :: 0 <= i < |g.rest| ==> g.rest[i] >= 128)
            && forall i :: 0 <= i < |g.complete| ==> Delimited(g.complete[i])
    decreases |s|
  {
    hide Concat, GroupsOf;
    if s == [] {
      ConcatEmpty();
      NothingYet();
    } else {
      var front, last := s[..|s| - 1], s[|s| - 1];
      GroupsCover(front);
      assert s == front + [last];
      GroupsSnoc(front, last);
      var g := GroupsOf(front);
      if last < 128 {
        ConcatSnoc(g.complete, g.rest + [last]);
        assert Delimited(g.rest + [last]);
        assert Concat(g.complete) + (g.rest + [last]) == s;
        assert Concat(g.complete + [g.rest + [last]]) + [] == s;
      } else {
        assert Concat(g.complete) + (g.rest + [last]) == s;
      }
    }
  }

  function Concat(groups: seq<Bytes>): Bytes {
    if groups == [] then [] else Concat(groups[..|groups| - 1]) + groups[|groups| - 1]
  }

  lemma ConcatEmpty()
    ensures Concat([]) == []
  {
  }

  lemma ConcatSnoc(groups: seq<Bytes>, last: Bytes)
    ensures Concat(groups + [last]) == Concat(groups) + last
  {
    assert (groups + [last])[..|groups|] == groups;
  }

  lemma {:induction false} ConcatIsEncAll(groups: seq<Bytes>)
    requires forall i :: 0 <= i < |groups| ==> Delimited(groups[i]) && groups[i][0] != 128
    ensures Concat(groups) == EncAll(Numbers(groups))
    decreases |groups|
  {
    hide Concat, EncAll, Number, Enc;
    if groups == [] {
      ConcatEmpty();
      EncAllEmpty();
      assert Numbers(groups) == [];
    } else {
      var front, last := groups[..|groups| - 1], groups[|groups| - 1];
      assert front + [last] == groups;
      ConcatIsEncAll(front);
      ConcatSnoc(front, last);
      OnlyForm(last);
      EncAllSnoc(Numbers(front), Number(last));
      assert Numbers(groups) == Numbers(front) + [Number(last)];
    }
  }

  /** Octets are minimal exactly when they are encodings one after another. */
  lemma MinimalExactly(s: Bytes)
    ensures Minimal(s) ==> s == EncAll(Numbers(GroupsOf(s).complete))
    ensures forall ns: seq<nat> :: s == EncAll(ns) ==> Minimal(s)
  {
    hide GroupsOf, EncAll, Enc, Number, Concat;
    GroupsCover(s);
    if Minimal(s) {
      ConcatIsEncAll(GroupsOf(s).complete);
    }
    forall ns: seq<nat> | s == EncAll(ns) ensures Minimal(s) {
      GroupsOfEncAll(ns);
      forall i | 0 <= i < |ns| ensures Encs(ns)[i] != [] && Encs(ns)[i][0] != 128 {
        EncShape(ns[i]);
      }
    }
  }

  /** For octets that `from_box` accepts: printing and parsing gives them back exactly when they
      are minimal. */
  lemma BoxRoundTrip(nodes: Bytes)
    requires |nodes| > 0 && nodes[0] / 40 <= 2 && Print(nodes).Ok?
    ensures Parse(Print(nodes).value) == Ok(nodes) <==> Minimal(nodes[1..])
  {
    var tail, b := nodes[1..], nodes[0];
    assert nodes == [b] + tail;
    hide Print, Parse, Minimal, Printable;
    PrintOk(nodes);
    if Minimal(tail) {
      MinimalParsesBack(b, tail);
    }
    if Parse(Print(nodes).value) == Ok(nodes) {
      ParsedIsMinimal(Print(nodes).value, nodes);
    }
  }

  lemma MinimalParsesBack(b: Byte, tail: Bytes)
    requires b / 40 <= 2 && Printable(tail) && Minimal(tail)
    ensures Print([b] + tail).Ok? && Parse(Print([b] + tail).value) == Ok([b] + tail)
  {
    hide Print, Parse, Minimal, Printable, Dotted, EncAll, GroupsOf, Numbers;
    MinimalPrint(b, tail);
    ParseDotted(b / 40, b % 40, Numbers(GroupsOf(tail).complete));
  }

  lemma ParsedIsMinimal(text: string, nodes: Bytes)
    requires Parse(text) == Ok(nodes)
    ensures |nodes| > 0 && Minimal(nodes[1..])
  {
    hide Split, EncAll, Minimal;
    assert nodes[1..] == EncAll(ArcsOf(text));
    MinimalExactly(nodes[1..]);
  }

  lemma MinimalPrint(b: Byte, tail: Bytes)
    requires Printable(tail) && Minimal(tail)
    ensures var arcs := Numbers(GroupsOf(tail).complete);
            && tail == EncAll(arcs)
            && (forall i :: 0 <= i < |arcs| ==> arcs[i] < TOO_BIG)
            && Print([b] + tail) == Ok(Dotted(b / 40, b % 40, arcs))
  {
    hide EncAll, Print, Dotted, GroupsOf, Number;
    MinimalExactly(tail);
    var arcs := Numbers(GroupsOf(tail).complete);
    PrintBuilt(b, arcs);
  }

  lemma DottedInjective(root: nat, first: nat, arcs: seq<nat>, root': nat, first': nat, arcs': seq<nat>)
    requires Dotted(root, first, arcs) == Dotted(root', first', arcs')
    ensures root == root' && first == first'
  {
    hide Dotted, Split, Decimals, Decimal;
    DottedSplits(root, first, arcs);
    DottedSplits(root', first', arcs');
    var parts, parts' := Decimals([root, first] + arcs), Decimals([root', first'] + arcs');
    assert parts[0] == Decimal(root) && parts[1] == Decimal(first);
    assert parts'[0] == Decimal(root') && parts'[1] == Decimal(first');
    ValueOfDecimal(root);
    ValueOfDecimal(root');
    ValueOfDecimal(first);
    ValueOfDecimal(first');
  }

  /** `build` lets a first node of 40 through. Built octets print as the nodes they were built from
      exactly when the first node is below 40; at 40 they print as another node. */
  lemma BuiltPrintsItsNodes(root: nat, first: Byte, arcs: seq<nat>)
    requires root <= 2 && first <= 40 && forall i :: 0 <= i < |arcs| ==> arcs[i] < TOO_BIG
    ensures var text := Print([root * 40 + first] + EncAll(arcs));
            && (text == Ok(Dotted(root, first, arcs)) <==> first < 40)
            && (first == 40 ==> text == Ok(Dotted(root + 1, 0, arcs)))
  {
    hide Print, EncAll, Dotted;
    var b: Byte := root * 40 + first;
    PrintBuilt(b, arcs);
    if first == 40 {
      assert b / 40 == root + 1 && b % 40 == 0;
      if Dotted(root + 1, 0, arcs) == Dotted(root, 40, arcs) {
        DottedInjective(root + 1, 0, arcs, root, 40, arcs);
      }
    } else {
      assert b / 40 == root && b % 40 == first;
    }
  }
}
