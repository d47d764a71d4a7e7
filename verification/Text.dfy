/** Splitting, joining and decimal numbers, as Rust's `str::split`, `to_string` and `parse` do them. */
module Text {
  import opened Wrappers

  // ----- split and join

  /** `s.split(sep)`: the empty text has one empty part. */
  function Split<T(==)>(s: seq<T>, sep: T): (parts: seq<seq<T>>)
    ensures |parts| > 0
  {
    if s == [] then [[]]
    else
      var rest := Split(s[1..], sep);
      if s[0] == sep then [[]] + rest else [[s[0]] + rest[0]] + rest[1..]
  }

  function Join<T>(parts: seq<seq<T>>, sep: T): seq<T>
    requires |parts| > 0
  {
    if |parts| == 1 then parts[0] else parts[0] + [sep] + Join(parts[1..], sep)
  }

  predicate Free<T(==)>(part: seq<T>, sep: T) { forall i :: 0 <= i < |part| ==> part[i] != sep }

  predicate AllFree<T(==)>(parts: seq<seq<T>>, sep: T) {
    forall i :: 0 <= i < |parts| ==> Free(parts[i], sep)
  }

  lemma {:induction false} JoinSplit<T>(s: seq<T>, sep: T)
    ensures Join(Split(s, sep), sep) == s && AllFree(Split(s, sep), sep)
  {
    if s == [] {
    } else {
      JoinSplit(s[1..], sep);
      var rest := Split(s[1..], sep);
      var parts := Split(s, sep);
      if s[0] == sep {
        assert parts[1..] == rest;
        assert Join(parts, sep) == [] + [sep] + s[1..];
      } else {
        assert parts[1..] == rest[1..];
        assert Free(parts[0], sep) by { assert Free(rest[0], sep); }
        assert Join(parts, sep) == [s[0]] + Join(rest, sep);
      }
    }
  }

  lemma {:induction false} SplitPrefix<T>(part: seq<T>, rest: seq<T>, sep: T)
    requires Free(part, sep)
    ensures Split(part + [sep] + rest, sep) == [part] + Split(rest, sep)
  {
    var s := part + [sep] + rest;
    if part == [] {
      assert s[1..] == rest;
    } else {
      assert s[1..] == part[1..] + [sep] + rest;
      SplitPrefix(part[1..], rest, sep);
      assert part == [part[0]] + part[1..];
    }
  }

  lemma {:induction false} SplitFree<T>(part: seq<T>, sep: T)
    requires Free(part, sep)
    ensures Split(part, sep) == [part]
  {
    if part == [] {
    } else {
      SplitFree(part[1..], sep);
      assert part == [part[0]] + part[1..];
    }
  }

  lemma {:induction false} SplitJoin<T>(parts: seq<seq<T>>, sep: T)
    requires |parts| > 0 && AllFree(parts, sep)
    ensures Split(Join(parts, sep), sep) == parts
  {
    assert Free(parts[0], sep);
    if |parts| == 1 {
      SplitFree(parts[0], sep);
    } else {
      forall i | 0 <= i < |parts[1..]| ensures Free(parts[1..][i], sep) {
        assert parts[1..][i] == parts[i + 1];
      }
      SplitJoin(parts[1..], sep);
      SplitPrefix(parts[0], Join(parts[1..], sep), sep);
    }
  }

  lemma {:induction false} JoinSnoc<T>(parts: seq<seq<T>>, part: seq<T>, sep: T)
    requires |parts| > 0
    ensures Join(parts + [part], sep) == Join(parts, sep) + [sep] + part
  {
    var all := parts + [part];
    assert all[1..] == parts[1..] + [part];
    if |parts| > 1 {
      JoinSnoc(parts[1..], part, sep);
    } else {
      assert Join(all[1..], sep) == part;
    }
  }

  lemma {:induction false} JoinAppend<T>(a: seq<seq<T>>, b: seq<seq<T>>, sep: T)
    requires |a| > 0 && |b| > 0
    ensures Join(a + b, sep) == Join(a, sep) + [sep] + Join(b, sep)
    decreases |a|
  {
    assert (a + b)[1..] == a[1..] + b;
    if |a| > 1 {
      JoinAppend(a[1..], b, sep);
    } else {
      assert a[1..] + b == b;
    }
  }

  lemma {:induction false} SplitAppend<T>(a: seq<T>, b: seq<T>, sep: T)
    ensures Split(a + [sep] + b, sep) == Split(a, sep) + Split(b, sep)
    decreases |a|
  {
    JoinSplit(a, sep);
    JoinSplit(b, sep);
    var pa, pb := Split(a, sep), Split(b, sep);
    JoinAppend(pa, pb, sep);
    forall i | 0 <= i < |pa + pb| ensures Free((pa + pb)[i], sep) {
      assert (pa + pb)[i] == if i < |pa| then pa[i] else pb[i - |pa|];
    }
    SplitJoin(pa + pb, sep);
  }

  // ----- decimal numbers

  predicate IsDigit(c: char) { '0' <= c <= '9' }

  predicate AllDigits(s: string) { forall i :: 0 <= i < |s| ==> IsDigit(s[i]) }

  function DigitChar(d: nat): (c: char)
    requires d < 10
    ensures IsDigit(c) && DigitOf(c) == d
  {
    '0' + d as char
  }

  function DigitOf(c: char): nat { if IsDigit(c) then (c - '0') as nat else 0 }

  /** `n.to_string()`. */
  function Decimal(n: nat): (s: string)
    ensures |s| > 0 && AllDigits(s)
  {
    if n < 10 then [DigitChar(n)] else Decimal(n / 10) + [DigitChar(n % 10)]
  }

  function Value(s: string): nat {
    if s == [] then 0 else 10 * Value(s[..|s| - 1]) + DigitOf(s[|s| - 1])
  }

  /** `s.parse()` for an unsigned integer type with largest value `max`: a leading plus sign and
      leading zeros are accepted. */
  function ParseUnsigned(s: string, max: nat): Option<nat> {
    var digits := if |s| > 1 && s[0] == '+' then s[1..] else s;
    if digits != [] && AllDigits(digits) && Value(digits) <= max then Some(Value(digits)) else None
  }

  /** Digits without sign and without leading zeros. */
  predicate Canonical(s: string) { |s| > 0 && AllDigits(s) && (s[0] == '0' ==> |s| == 1) }

  lemma {:induction false} ValueOfDecimal(n: nat)
    ensures Value(Decimal(n)) == n && Canonical(Decimal(n)) && (Decimal(n)[0] == '0' <==> n == 0)
  {
    if n < 10 {
      assert Value([DigitChar(n)]) == DigitOf(DigitChar(n));
    } else {
      ValueOfDecimal(n / 10);
      var s := Decimal(n);
      assert s[..|s| - 1] == Decimal(n / 10);
    }
  }

  lemma {:induction false} DecimalOfValue(s: string)
    requires Canonical(s)
    ensures Decimal(Value(s)) == s && (s[0] == '0' <==> Value(s) == 0)
  {
    var last := s[|s| - 1];
    assert IsDigit(last) && s == s[..|s| - 1] + [last];
    if |s| == 1 {
      assert s[..0] == [];
      assert DigitChar(DigitOf(last)) == last;
    } else {
      var front := s[..|s| - 1];
      assert AllDigits(front) && front[0] == s[0];
      DecimalOfValue(front);
      assert Value(s) / 10 == Value(front) && Value(s) % 10 == DigitOf(last);
      assert DigitChar(DigitOf(last)) == last;
    }
  }

  /** Printing and parsing are inverse, within the type's range. */
  lemma ParseDecimal(n: nat, max: nat)
    requires n <= max
    ensures ParseUnsigned(Decimal(n), max) == Some(n)
  {
    ValueOfDecimal(n);
    assert IsDigit(Decimal(n)[0]);
  }

  lemma {:induction false} LeadingZero(s: string)
    requires AllDigits(s)
    ensures Value(['0'] + s) == Value(s)
    decreases |s|
  {
    var t := ['0'] + s;
    if s == [] {
      assert t[..0] == [];
    } else {
      assert t[..|t| - 1] == ['0'] + s[..|s| - 1];
      LeadingZero(s[..|s| - 1]);
    }
  }

  /** A plus sign and leading zeros before digits change nothing. */
  lemma SignAndZeros(s: string, max: nat)
    requires s != [] && AllDigits(s)
    ensures ParseUnsigned(['+'] + s, max) == ParseUnsigned(s, max)
    ensures ParseUnsigned(['0'] + s, max) == ParseUnsigned(s, max)
  {
    LeadingZero(s);
    assert (['+'] + s)[1..] == s && s[0] != '+';
    assert AllDigits(['0'] + s);
  }
}
