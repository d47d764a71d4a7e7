/** Variable-length unsigned integers: bffhd/utils/varint.rs, the base-128 form of section 8.19 of
    ITU-T X.690. */
module Varint {
  import opened Bits

  // ----- the encoding, from the number down

  /** Seven-bit digits, most significant first, each marked as having more to come. */
  function High(n: nat): (bytes: seq<Byte>)
    ensures n == 0 ==> bytes == []
  {
    if n == 0 then [] else High(n / 128) + [n % 128 + 128]
  }

  /** The encoding of `n`: only the last octet is unmarked. */
  function Enc(n: nat): (bytes: seq<Byte>)
    ensures |bytes| > 0
  {
    High(n / 128) + [n % 128]
  }

  /** The number a list of octets stands for, marks ignored. */
  function Number(bytes: seq<Byte>): nat {
    if bytes == [] then 0 else 128 * Number(bytes[..|bytes| - 1]) + bytes[|bytes| - 1] % 128
  }

  /** A well-formed number: every octet but the last is marked, the last one is not. */
  predicate Delimited(bytes: seq<Byte>) {
    |bytes| > 0 && bytes[|bytes| - 1] < 128 && forall i :: 0 <= i < |bytes| - 1 ==> bytes[i] >= 128
  }

  // ----- what the encoding is

  lemma {:induction false} HighShape(n: nat)
    ensures forall i :: 0 <= i < |High(n)| ==> High(n)[i] >= 128
    ensures n > 0 ==> |High(n)| > 0 && High(n)[0] > 128
  {
    if n > 0 {
      HighShape(n / 128);
      assert High(n) == High(n / 128) + [n % 128 + 128];
    }
  }

  lemma NumberSnoc(front: seq<Byte>, last: Byte)
    ensures Number(front + [last]) == 128 * Number(front) + last % 128
  {
    assert (front + [last])[..|front|] == front;
  }

  lemma {:induction false} NumberOfHigh(n: nat)
    ensures Number(High(n)) == n
  {
    hide Number;
    if n > 0 {
      NumberOfHigh(n / 128);
      NumberSnoc(High(n / 128), n % 128 + 128);
    } else {
      EmptyNumber();
    }
  }

  lemma EmptyNumber()
    ensures Number([]) == 0
  {
  }

  /** Decoding gives the number back; the marks delimit it; the first octet is never 0x80. */
  lemma EncShape(n: nat)
    ensures Number(Enc(n)) == n && Delimited(Enc(n)) && Enc(n)[0] != 128
  {
    hide Number, High;
    HighShape(n / 128);
    NumberOfHigh(n / 128);
    NumberSnoc(High(n / 128), n % 128);
  }

  lemma {:induction false} NumberBound(bytes: seq<Byte>)
    ensures Number(bytes) < Pow2(7 * |bytes|)
    decreases |bytes|
  {
    if bytes != [] {
      NumberBound(bytes[..|bytes| - 1]);
      SevenMore(|bytes| - 1);
    }
  }

  lemma SevenMore(k: nat)
    ensures Pow2(7 * (k + 1)) == 128 * Pow2(7 * k)
  {
    Pow2Add(7, 7 * k);
    Pow2Small();
  }

  lemma {:induction false} HighLength(n: nat, k: nat)
    requires n < Pow2(7 * k)
    ensures |High(n)| <= k
    decreases k
  {
    if n > 0 {
      assert Pow2(0) == 1;
      SevenMore(k - 1);
      HighLength(n / 128, k - 1);
    }
  }

  /** No list of octets that stands for `n` is shorter. */
  lemma {:induction false} Shortest(n: nat, bytes: seq<Byte>)
    requires bytes != [] && Number(bytes) == n
    ensures |Enc(n)| <= |bytes|
  {
    NumberBound(bytes);
    SevenMore(|bytes| - 1);
    HighLength(n / 128, |bytes| - 1);
  }

  /** The encoding is the only delimited list that stands for `n` and does not begin with 0x80. */
  lemma {:induction false} OnlyForm(bytes: seq<Byte>)
    requires Delimited(bytes) && bytes[0] != 128
    ensures bytes == Enc(Number(bytes))
  {
    var front, last := bytes[..|bytes| - 1], bytes[|bytes| - 1];
    OnlyHigh(front);
    assert bytes == front + [last];
    assert Number(bytes) / 128 == Number(front) && Number(bytes) % 128 == last;
  }

  lemma {:induction false} OnlyHigh(bytes: seq<Byte>)
    requires forall i :: 0 <= i < |bytes| ==> bytes[i] >= 128
    requires bytes != [] ==> bytes[0] != 128
    ensures bytes == High(Number(bytes)) && (bytes != [] ==> Number(bytes) > 0)
    decreases |bytes|
  {
    if bytes != [] {
      var front, last := bytes[..|bytes| - 1], bytes[|bytes| - 1];
      OnlyHigh(front);
      assert bytes == front + [last];
      assert Number(bytes) / 128 == Number(front) && Number(bytes) % 128 == last - 128;
    }
  }

  // ----- concatenations

  function EncAll(ns: seq<nat>): seq<Byte> {
    if ns == [] then [] else Enc(ns[0]) + EncAll(ns[1..])
  }

  /** Two delimited lists at the front of the same octets are the same. */
  lemma DelimitedPrefix(a: seq<Byte>, x: seq<Byte>, b: seq<Byte>, y: seq<Byte>)
    requires Delimited(a) && Delimited(b) && a + x == b + y
    ensures a == b && x == y
  {
    var s := a + x;
    assert s[..|a|] == a && s[|a|..] == x && s[..|b|] == b && s[|b|..] == y;
    assert s[|a| - 1] < 128 && s[|b| - 1] < 128;
    assert |a| <= |b| ==> b[|a| - 1] == s[|a| - 1];
    assert |b| <= |a| ==> a[|b| - 1] == s[|b| - 1];
  }

  /** A concatenation of encodings is the encoding of one list only. */
  lemma {:induction false} UniquelyDecodable(ns: seq<nat>, ms: seq<nat>)
    requires EncAll(ns) == EncAll(ms)
    ensures ns == ms
    decreases |ns|
  {
    if ns != [] && ms != [] {
      EncShape(ns[0]);
      EncShape(ms[0]);
      DelimitedPrefix(Enc(ns[0]), EncAll(ns[1..]), Enc(ms[0]), EncAll(ms[1..]));
      UniquelyDecodable(ns[1..], ms[1..]);
      assert ns == [ns[0]] + ns[1..] && ms == [ms[0]] + ms[1..];
    }
  }

  // ----- the five widths

  datatype Width = U8 | U16 | U32 | U64 | U128 {
    function Bits(): nat {
      match this case U8 => 8 case U16 => 16 case U32 => 32 case U64 => 64 case U128 => 128
    }
    /** The length of the fixed buffer. */
    function Octets(): nat {
      match this case U8 => 2 case U16 => 3 case U32 => 5 case U64 => 10 case U128 => 19
    }
    predicate Holds(n: nat) { n < Pow2(Bits()) }
  }

  lemma Pow2Mono(a: nat, b: nat)
    requires a <= b
    ensures Pow2(a) <= Pow2(b)
  {
    Pow2Add(a, b - a);
    assert Pow2(a) * Pow2(b - a) >= Pow2(a);
  }

  lemma {:induction false} HighFits(n: nat, k: nat)
    requires n < Pow2(7 * k) && n > 127
    ensures k > 1 && n / 128 < Pow2(7 * (k - 1))
  {
    assert Pow2(0) == 1;
    SevenMore(if k == 0 then 0 else k - 1);
  }

  /** The octets still to be written for `num`, given the mark of the next one. */
  ghost function Pending(num: nat, more: Byte): seq<Byte> { if more == 0 then Enc(num) else High(num) }

  lemma PendingFirst(num: nat)
    ensures Pending(num, 0) == Enc(num)
  {
  }

  lemma PendingStep(num: nat, more: Byte)
    requires num > 0x7f && (more == 0 || more == 128)
    ensures Pending(num, more) == Pending(num / 128, 0x80) + [num % 128 + more]
  {
  }

  lemma PendingLast(num: nat, more: Byte)
    requires num <= 0x7f && (more == 0 || (more == 128 && num > 0))
    ensures Pending(num, more) == [num + more]
  {
    assert num / 128 == 0 && High(0) == [];
  }

  /** The loop of `convert_from!`: no index leaves the buffer. */
  method Fill(buffer: array<Byte>, inp: nat) returns (idx: nat)
    requires buffer.Length > 0 && inp < Pow2(7 * buffer.Length)
    modifies buffer
    ensures idx < buffer.Length && buffer[idx..] == Enc(inp)
  {
    hide Pow2, High, Enc, Pending;
    PendingFirst(inp);
    var num: nat := inp;
    var more: Byte := 0;
    idx := buffer.Length - 1;
    assert buffer[idx + 1..] == [];
    while num > 0x7f
      invariant idx < buffer.Length && num < Pow2(7 * (idx + 1))
      invariant more == 0 || (more == 128 && num > 0)
      invariant Pending(num, more) + buffer[idx + 1..] == Enc(inp)
    {
      HighFits(num, idx + 1);
      PendingStep(num, more);
      ghost var written := buffer[idx + 1..];
      var octet: Byte := num % 128 + more;
      buffer[idx] := octet;
      assert buffer[idx..] == [octet] + written;
      num := num / 128;
      more := 0x80;
      idx := idx - 1;
    }
    PendingLast(num, more);
    ghost var written := buffer[idx + 1..];
    buffer[idx] := num + more;
    assert buffer[idx..] == [num + more] + written;
  }

  /** `offset` and `bytes` of `VarUInt`. */
  class VarUInt {
    const bytes: array<Byte>
    var offset: nat

    ghost predicate Valid() reads this { offset <= bytes.Length }

    /** `as_bytes`. */
    function AsBytes(): seq<Byte>
      requires Valid()
      reads this, bytes
    {
      bytes[offset..]
    }

    /** `convert_from!`: fills a buffer long enough for the type from the back. */
    constructor Encode(width: Width, inp: nat)
      requires width.Holds(inp)
      ensures Valid() && fresh(bytes) && bytes.Length == width.Octets()
      ensures AsBytes() == Enc(inp)
    {
      hide Pow2, Enc;
      var buffer := new Byte[width.Octets()];
      Pow2Mono(width.Bits(), 7 * width.Octets());
      var idx := Fill(buffer, inp);
      bytes := buffer;
      offset := idx;
    }

    /** `convert_into!`, for the octets of an encoding or any other octets. */
    method Decode(width: Width) returns (out: nat)
      requires Valid() && bytes.Length == width.Octets()
      ensures out == Number(AsBytes()) % Pow2(width.Bits())
    {
      hide Pow2, Number;
      out := Gather(AsBytes(), width.Bits());
    }
  }

  /** The loop of `convert_into!`, on a type of `bits` bits: no shift reaches the width of the type. */
  method Gather(octets: seq<Byte>, bits: nat) returns (out: nat)
    requires 7 * (|octets| - 1) < bits
    ensures out == Number(octets) % Pow2(bits)
  {
    hide Pow2, Or, Number;
    var len := |octets|;
    var shift := 0;
    out := 0;
    assert octets[len..] == [];
    EmptyNumber();
    for neg := 1 to len + 1
      invariant shift == 7 * (neg - 1)
      invariant out == Number(octets[len - (neg - 1)..]) % Pow2(bits)
    {
      var idx := len - neg;
      var val := octets[idx] % 128;
      ghost var rest := octets[idx + 1..];
      assert [octets[idx]] + rest == octets[idx..];
      assert shift < bits;
      OrDigit(rest, octets[idx], shift, bits);
      var shifted := (val * Pow2(shift)) % Pow2(bits);
      out := Or(out, shifted);
      shift := shift + 7;
    }
    assert octets[0..] == octets;
  }

  /** A digit in front of a number. */
  lemma {:induction false} NumberFront(b: Byte, bytes: seq<Byte>)
    ensures Number([b] + bytes) == (b % 128) * Pow2(7 * |bytes|) + Number(bytes)
    decreases |bytes|
  {
    var s := [b] + bytes;
    if bytes == [] {
      assert s[..0] == [] && Pow2(0) == 1;
    } else {
      var front, last := bytes[..|bytes| - 1], bytes[|bytes| - 1];
      assert s[..|s| - 1] == [b] + front;
      NumberFront(b, front);
      SevenMore(|front|);
      var d, p := b % 128, Pow2(7 * |front|);
      assert 128 * (d * p) == d * (128 * p);
    }
  }

  /** Or-ing the next digit in, both sides cut to `bits` bits. */
  lemma OrDigit(rest: seq<Byte>, b: Byte, shift: nat, bits: nat)
    requires shift == 7 * |rest| && shift < bits
    ensures Or(Number(rest) % Pow2(bits), ((b % 128) * Pow2(shift)) % Pow2(bits))
         == Number([b] + rest) % Pow2(bits)
  {
    hide Pow2, Or, Number;
    var p, q := Pow2(shift), Pow2(bits - shift);
    Pow2Add(shift, bits - shift);
    NumberBound(rest);
    NumberFront(b, rest);
    OrScaled(shift, bits, Number(rest), b % 128);
  }

  lemma OrScaled(shift: nat, bits: nat, n: nat, d: nat)
    requires shift < bits && n < Pow2(shift)
    ensures Or(n % Pow2(bits), (d * Pow2(shift)) % Pow2(bits)) == (d * Pow2(shift) + n) % Pow2(bits)
  {
    hide Pow2, Or;
    var p, q := Pow2(shift), Pow2(bits - shift);
    Pow2Add(shift, bits - shift);
    ModScale(d, p, q, n);
    ModScale(d, p, q, 0);
    ModScale(0, p, q, n);
    assert 0 % q == 0;
    SplitAt(shift, 0, n, d % q, 0);
    OrZero(d % q);
    OrZero(n);
  }

  lemma ModScale(d: nat, p: nat, q: nat, n: nat)
    requires p > 0 && q > 0 && n < p
    ensures p * q > 0 && (d * p + n) % (p * q) == (d % q) * p + n
  {
    var e, r := d / q, d % q;
    assert d == e * q + r;
    assert (e * q + r) * p == e * (p * q) + r * p;
    assert r * p + n < p * q by {
      assert r * p + n < (r + 1) * p;
      assert (r + 1) * p <= q * p;
    }
    MulDiv(e, p * q, r * p + n);
  }

  /** Encoding a value and decoding it again gives the value back, in every width. */
  method Through(width: Width, n: nat) returns (m: nat)
    requires width.Holds(n)
    ensures m == n
  {
    hide Pow2, Number, Enc;
    var v := new VarUInt.Encode(width, n);
    EncShape(n);
    m := v.Decode(width);
    assert n % Pow2(width.Bits()) == n;
  }
}
