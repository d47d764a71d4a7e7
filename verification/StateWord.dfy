/** The packed proc state of runtime/lightproc/src/state.rs: seven flags and a
    32-bit reference count in one 64-bit word, on either byte order. */
module StateWord {
  import opened Bits

  const TWO32: nat := 0x1_0000_0000
  const TWO64: nat := 0x1_0000_0000_0000_0000

  datatype ByteOrder = Little | Big

  /** The record that the packed word stands for. */
  datatype Word = Word(
    scheduled: bool, running: bool, completed: bool, closed: bool,
    handle: bool, awaiter: bool, locked: bool, refs: nat)

  predicate InRange(w: Word) { w.refs < TWO32 }

  /** The flags as a number, SCHEDULED in the lowest bit. */
  function FlagBits(w: Word): nat {
    Bit(w.scheduled, Bit(w.running, Bit(w.completed, Bit(w.closed, HighFlags(w)))))
  }

  function HighFlags(w: Word): nat { Bit(w.handle, Bit(w.awaiter, Bit(w.locked, 0))) }

  /** `to_ne_bytes` for an integer of `len` bytes. */
  function ToBytes(order: ByteOrder, n: nat, len: nat): (bs: seq<nat>)
    ensures |bs| == len
    decreases len
  {
    if len == 0 then []
    else if order.Little? then [n % 256] + ToBytes(order, n / 256, len - 1)
    else ToBytes(order, n / 256, len - 1) + [n % 256]
  }

  /** `from_ne_bytes`. */
  function FromBytes(order: ByteOrder, bs: seq<nat>): nat {
    if bs == [] then 0
    else if order.Little? then bs[0] + 256 * FromBytes(order, bs[1..])
    else 256 * FromBytes(order, bs[..|bs| - 1]) + bs[|bs| - 1]
  }

  /** `State::new(flags, references).into_u64()`: count bytes first, then flag bytes. */
  function Pack(order: ByteOrder, flags: nat, refs: nat): nat {
    FromBytes(order, ToBytes(order, refs, 4) + ToBytes(order, flags, 4))
  }

  function Encode(order: ByteOrder, w: Word): nat { Pack(order, FlagBits(w), w.refs) }

  /** `State::from_u64(u).parts()`. */
  function CountPart(order: ByteOrder, u: nat): nat { FromBytes(order, ToBytes(order, u, 8)[..4]) }
  function FlagsPart(order: ByteOrder, u: nat): nat { FromBytes(order, ToBytes(order, u, 8)[4..]) }

  function Decode(order: ByteOrder, u: nat): Word {
    var f0 := FlagsPart(order, u);
    var f1 := f0 / 2;
    var f2 := f1 / 2;
    var f3 := f2 / 2;
    var f4 := f3 / 2;
    var f5 := f4 / 2;
    var f6 := f5 / 2;
    Word(f0 % 2 == 1, f1 % 2 == 1, f2 % 2 == 1, f3 % 2 == 1, f4 % 2 == 1, f5 % 2 == 1, f6 % 2 == 1,
         CountPart(order, u))
  }

  // ----- the operations of AtomicState on the raw 64-bit word

  function FetchAdd(order: ByteOrder, u: nat, val: nat): nat {
    (u + FromBytes(order, ToBytes(order, val, 4) + [0, 0, 0, 0])) % TWO64
  }

  function FetchSub(order: ByteOrder, u: nat, val: nat): nat {
    (u - FromBytes(order, ToBytes(order, val, 4) + [0, 0, 0, 0])) % TWO64
  }

  function FetchOr(order: ByteOrder, u: nat, flags: nat): nat {
    Or(u, FromBytes(order, [0, 0, 0, 0] + ToBytes(order, flags, 4)))
  }

  function FetchAnd(order: ByteOrder, u: nat, flags: nat): nat {
    And(u, FromBytes(order, [255, 255, 255, 255] + ToBytes(order, flags, 4)))
  }

  // ----- byte lists

  lemma {:induction false} FourBytes(order: ByteOrder, bs: seq<nat>)
    requires |bs| == 4
    ensures order.Little? ==> FromBytes(order, bs) == bs[0] + 256 * (bs[1] + 256 * (bs[2] + 256 * bs[3]))
    ensures order.Big? ==> FromBytes(order, bs) == bs[3] + 256 * (bs[2] + 256 * (bs[1] + 256 * bs[0]))
  {
    if order.Little? {
      assert bs[1..][1..] == bs[2..] && bs[2..][1..] == bs[3..] && bs[3..][1..] == [];
      assert FromBytes(order, bs[3..]) == bs[3];
      assert FromBytes(order, bs[2..]) == bs[2] + 256 * bs[3];
      assert FromBytes(order, bs[1..]) == bs[1] + 256 * (bs[2] + 256 * bs[3]);
    } else {
      assert bs[..3][..2] == bs[..2] && bs[..2][..1] == bs[..1] && bs[..1][..0] == [];
      assert FromBytes(order, bs[..1]) == bs[0];
      assert FromBytes(order, bs[..2]) == 256 * bs[0] + bs[1];
      assert FromBytes(order, bs[..3]) == 256 * (256 * bs[0] + bs[1]) + bs[2];
    }
  }

  /** Two halves of four bytes: which half is the high one depends on the byte order. */
  lemma {:induction false} Halves(order: ByteOrder, a: seq<nat>, b: seq<nat>)
    requires |a| == |b| == 4
    ensures order.Little? ==> FromBytes(order, a + b) == FromBytes(order, b) * TWO32 + FromBytes(order, a)
    ensures order.Big? ==> FromBytes(order, a + b) == FromBytes(order, a) * TWO32 + FromBytes(order, b)
  {
    var s := a + b;
    FourBytes(order, a);
    FourBytes(order, b);
    if order.Little? {
      assert s[1..][1..] == s[2..] && s[2..][1..] == s[3..] && s[3..][1..] == b;
      assert FromBytes(order, s[3..]) == a[3] + 256 * FromBytes(order, b);
      assert FromBytes(order, s[2..]) == a[2] + 256 * FromBytes(order, s[3..]);
      assert FromBytes(order, s[1..]) == a[1] + 256 * FromBytes(order, s[2..]);
    } else {
      assert s[..7][..6] == s[..6] && s[..6][..5] == s[..5] && s[..5][..4] == a;
      assert FromBytes(order, s[..5]) == 256 * FromBytes(order, a) + b[0];
      assert FromBytes(order, s[..6]) == 256 * FromBytes(order, s[..5]) + b[1];
      assert FromBytes(order, s[..7]) == 256 * FromBytes(order, s[..6]) + b[2];
    }
  }

  /** Little- and big-endian byte lists of a number give the number back. */
  lemma {:induction false} BytesRoundTrip(order: ByteOrder, n: nat, len: nat)
    requires n < Pow2(8 * len)
    ensures FromBytes(order, ToBytes(order, n, len)) == n
    decreases len
  {
    if len == 0 {
    } else {
      Pow2Add(8, 8 * (len - 1));
      assert n / 256 < Pow2(8 * (len - 1));
      BytesRoundTrip(order, n / 256, len - 1);
      var bs := ToBytes(order, n, len);
      if order.Little? {
        assert bs[1..] == ToBytes(order, n / 256, len - 1);
      } else {
        assert bs[..|bs| - 1] == ToBytes(order, n / 256, len - 1);
      }
    }
  }

  lemma Four(order: ByteOrder, n: nat)
    requires n < TWO32
    ensures FromBytes(order, ToBytes(order, n, 4)) == n
  {
    Pow2Values();
    BytesRoundTrip(order, n, 4);
  }

  /** Where the two fields of a packed word sit. */
  lemma PackShape(order: ByteOrder, flags: nat, refs: nat)
    requires flags < TWO32 && refs < TWO32
    ensures order.Little? ==> Pack(order, flags, refs) == flags * TWO32 + refs
    ensures order.Big? ==> Pack(order, flags, refs) == refs * TWO32 + flags
  {
    Four(order, flags);
    Four(order, refs);
    Halves(order, ToBytes(order, refs, 4), ToBytes(order, flags, 4));
  }

  /** Unpacking a word gives the fields it was packed from. */
  lemma PartsOfPack(order: ByteOrder, flags: nat, refs: nat)
    requires flags < TWO32 && refs < TWO32
    ensures Pack(order, flags, refs) < TWO64
    ensures CountPart(order, Pack(order, flags, refs)) == refs
    ensures FlagsPart(order, Pack(order, flags, refs)) == flags
  {
    hide FromBytes, ToBytes;
    PackShape(order, flags, refs);
    FieldsOf(order, Pack(order, flags, refs));
  }

  /** Every 64-bit word is the packing of its two parts. */
  lemma FieldsOf(order: ByteOrder, u: nat)
    requires u < TWO64
    ensures CountPart(order, u) < TWO32 && FlagsPart(order, u) < TWO32
    ensures order.Little? ==> u == FlagsPart(order, u) * TWO32 + CountPart(order, u)
    ensures order.Big? ==> u == CountPart(order, u) * TWO32 + FlagsPart(order, u)
  {
    Pow2Values();
    BytesRoundTrip(order, u, 8);
    FieldBound(order, u, 8);
    var bs := ToBytes(order, u, 8);
    JoinHalves(order, bs, u);
  }

  lemma JoinHalves(order: ByteOrder, bs: seq<nat>, u: nat)
    requires |bs| == 8 && forall i :: 0 <= i < 8 ==> bs[i] < 256
    requires FromBytes(order, bs) == u
    ensures FromBytes(order, bs[..4]) < TWO32 && FromBytes(order, bs[4..]) < TWO32
    ensures order.Little? ==> u == FromBytes(order, bs[4..]) * TWO32 + FromBytes(order, bs[..4])
    ensures order.Big? ==> u == FromBytes(order, bs[..4]) * TWO32 + FromBytes(order, bs[4..])
  {
    assert bs == bs[..4] + bs[4..];
    Halves(order, bs[..4], bs[4..]);
    FourBytes(order, bs[..4]);
    FourBytes(order, bs[4..]);
  }

  lemma {:induction false} FieldBound(order: ByteOrder, n: nat, len: nat)
    ensures forall i :: 0 <= i < len ==> ToBytes(order, n, len)[i] < 256
    decreases len
  {
    if len == 0 {
    } else {
      FieldBound(order, n / 256, len - 1);
    }
  }

  /** Each flag has its own power of two. */
  lemma FlagValues(w: Word)
    ensures FlagBits(w) == (if w.scheduled then 0x01 else 0) + (if w.running then 0x02 else 0)
                           + (if w.completed then 0x04 else 0) + (if w.closed then 0x08 else 0)
                           + (if w.handle then 0x10 else 0) + (if w.awaiter then 0x20 else 0)
                           + (if w.locked then 0x40 else 0)
  {
  }

  lemma FlagBitsBound(w: Word)
    ensures FlagBits(w) < 128
  {
  }

  /** `State::new` and `State::parts` are inverse on every word, on either byte order. */
  lemma DecodeEncode(order: ByteOrder, w: Word)
    requires InRange(w)
    ensures Encode(order, w) < TWO64
    ensures Decode(order, Encode(order, w)) == w
  {
    hide FromBytes, ToBytes, CountPart, FlagsPart, Bit;
    FlagBitsBound(w);
    PartsOfPack(order, FlagBits(w), w.refs);
    BitParts(w.locked, 0);
    BitParts(w.awaiter, Bit(w.locked, 0));
    BitParts(w.handle, Bit(w.awaiter, Bit(w.locked, 0)));
    BitParts(w.closed, HighFlags(w));
    BitParts(w.completed, Bit(w.closed, HighFlags(w)));
    BitParts(w.running, Bit(w.completed, Bit(w.closed, HighFlags(w))));
    BitParts(w.scheduled, Bit(w.running, Bit(w.completed, Bit(w.closed, HighFlags(w)))));
  }

  lemma One(order: ByteOrder)
    ensures FromBytes(order, ToBytes(order, 1, 4) + [0, 0, 0, 0]) == Place(order, 0, 1)
  {
    Four(order, 1);
    Halves(order, ToBytes(order, 1, 4), [0, 0, 0, 0]);
    FourBytes(order, [0, 0, 0, 0]);
  }

  /** The word with the given fields, as an arithmetic expression. */
  function Place(order: ByteOrder, flags: nat, refs: nat): nat {
    if order.Little? then flags * TWO32 + refs else refs * TWO32 + flags
  }

  lemma EncodeShape(order: ByteOrder, w: Word)
    requires InRange(w)
    ensures FlagBits(w) < 128 && Encode(order, w) == Place(order, FlagBits(w), w.refs)
  {
    FlagBitsBound(w);
    PackShape(order, FlagBits(w), w.refs);
  }

  lemma PartsOfPlace(order: ByteOrder, flags: nat, refs: nat)
    requires flags < TWO32 && refs < TWO32
    ensures FlagsPart(order, Place(order, flags, refs)) == flags
  {
    PackShape(order, flags, refs);
    PartsOfPack(order, flags, refs);
  }

  lemma AddPlace(order: ByteOrder, flags: nat, refs: nat)
    requires flags < 128 && refs < TWO32
    ensures (Place(order, flags, refs) + Place(order, 0, 1)) % TWO64
            == if refs + 1 < TWO32 then Place(order, flags, refs + 1)
               else Place(order, if order.Little? then flags + 1 else flags, 0)
  {
  }

  lemma SubPlace(order: ByteOrder, flags: nat, refs: nat)
    requires flags < 128 && refs < TWO32
    ensures (Place(order, flags, refs) - Place(order, 0, 1)) % TWO64
            == if refs > 0 then Place(order, flags, refs - 1)
               else Place(order, if order.Big? then flags else if flags > 0 then flags - 1 else TWO32 - 1, TWO32 - 1)
  {
  }

  /** `fetch_add(1)` increments the count field and touches no flag, exactly while
      the count has room (in the big-endian layout the carry falls off the top). */
  lemma FetchAddExact(order: ByteOrder, w: Word)
    requires InRange(w)
    ensures w.refs + 1 < TWO32 ==> FetchAdd(order, Encode(order, w), 1) == Encode(order, w.(refs := w.refs + 1))
    ensures FlagsPart(order, FetchAdd(order, Encode(order, w), 1)) == FlagBits(w)
            <==> w.refs + 1 < TWO32 || order.Big?
  {
    hide FromBytes, ToBytes, Encode, FlagsPart, Bit, Place;
    var f, r := FlagBits(w), w.refs;
    EncodeShape(order, w);
    One(order);
    AddPlace(order, f, r);
    if r + 1 < TWO32 {
      EncodeShape(order, w.(refs := r + 1));
      PartsOfPlace(order, f, r + 1);
    } else {
      PartsOfPlace(order, if order.Little? then f + 1 else f, 0);
    }
  }

  lemma FetchSubTakes(order: ByteOrder, w: Word)
    requires InRange(w) && w.refs > 0
    ensures FetchSub(order, Encode(order, w), 1) == Encode(order, w.(refs := w.refs - 1))
    ensures FlagsPart(order, FetchSub(order, Encode(order, w), 1)) == FlagBits(w)
  {
    hide FromBytes, ToBytes, Encode, FlagsPart, Bit, Place;
    EncodeShape(order, w);
    One(order);
    SubPlace(order, FlagBits(w), w.refs);
    EncodeShape(order, w.(refs := w.refs - 1));
    PartsOfPlace(order, FlagBits(w), w.refs - 1);
  }

  lemma FetchSubBorrows(order: ByteOrder, w: Word)
    requires InRange(w) && w.refs == 0
    ensures FlagsPart(order, FetchSub(order, Encode(order, w), 1)) == FlagBits(w) <==> order.Big?
  {
    hide FromBytes, ToBytes, Encode, FlagsPart, Bit, Place;
    var f := FlagBits(w);
    EncodeShape(order, w);
    One(order);
    SubPlace(order, f, 0);
    PartsOfPlace(order, if order.Big? then f else if f > 0 then f - 1 else TWO32 - 1, TWO32 - 1);
  }

  /** `fetch_sub(1)` decrements the count field and touches no flag, exactly when the
      count is not zero; below zero the little-endian layout borrows from the flags. */
  lemma FetchSubExact(order: ByteOrder, w: Word)
    requires InRange(w)
    ensures w.refs > 0 ==> FetchSub(order, Encode(order, w), 1) == Encode(order, w.(refs := w.refs - 1))
    ensures FlagsPart(order, FetchSub(order, Encode(order, w), 1)) == FlagBits(w)
            <==> w.refs > 0 || order.Big?
  {
    hide Encode, FlagsPart, FetchSub, FlagBits;
    if w.refs > 0 {
      FetchSubTakes(order, w);
    } else {
      FetchSubBorrows(order, w);
    }
  }

  /** `w` with the flags of `m` set as well. */
  function Union(w: Word, m: Word): Word {
    Word(w.scheduled || m.scheduled, w.running || m.running, w.completed || m.completed, w.closed || m.closed,
         w.handle || m.handle, w.awaiter || m.awaiter, w.locked || m.locked, w.refs)
  }

  /** `w` with only those flags kept that `m` has. */
  function Meet(w: Word, m: Word): Word {
    Word(w.scheduled && m.scheduled, w.running && m.running, w.completed && m.completed, w.closed && m.closed,
         w.handle && m.handle, w.awaiter && m.awaiter, w.locked && m.locked, w.refs)
  }

  lemma HighUnion(w: Word, m: Word, r: Word)
    requires r == Union(w, m)
    ensures Or(HighFlags(w), HighFlags(m)) == HighFlags(r)
  {
    OrZero(0);
    hide Or, And, Bit;
    BitOr(w.locked, 0, m.locked, 0, r.locked);
    BitOr(w.awaiter, Bit(w.locked, 0), m.awaiter, Bit(m.locked, 0), r.awaiter);
    BitOr(w.handle, Bit(w.awaiter, Bit(w.locked, 0)), m.handle, Bit(m.awaiter, Bit(m.locked, 0)), r.handle);
  }

  lemma FlagUnion(w: Word, m: Word, r: Word)
    requires r == Union(w, m)
    ensures Or(FlagBits(w), FlagBits(m)) == FlagBits(r)
  {
    hide Or, And, Bit;
    HighUnion(w, m, r);
    var w1, m1 := HighFlags(w), HighFlags(m);
    BitOr(w.closed, w1, m.closed, m1, r.closed);
    var w2, m2 := Bit(w.closed, w1), Bit(m.closed, m1);
    BitOr(w.completed, w2, m.completed, m2, r.completed);
    var w3, m3 := Bit(w.completed, w2), Bit(m.completed, m2);
    BitOr(w.running, w3, m.running, m3, r.running);
    BitOr(w.scheduled, Bit(w.running, w3), m.scheduled, Bit(m.running, m3), r.scheduled);
  }

  lemma HighMeet(w: Word, m: Word, r: Word)
    requires r == Meet(w, m)
    ensures And(HighFlags(w), HighFlags(m)) == HighFlags(r)
  {
    OrAndStep(0, 0);
    hide Or, And, Bit;
    BitAnd(w.locked, 0, m.locked, 0, r.locked);
    BitAnd(w.awaiter, Bit(w.locked, 0), m.awaiter, Bit(m.locked, 0), r.awaiter);
    BitAnd(w.handle, Bit(w.awaiter, Bit(w.locked, 0)), m.handle, Bit(m.awaiter, Bit(m.locked, 0)), r.handle);
  }

  lemma FlagMeet(w: Word, m: Word, r: Word)
    requires r == Meet(w, m)
    ensures And(FlagBits(w), FlagBits(m)) == FlagBits(r)
  {
    hide Or, And, Bit;
    HighMeet(w, m, r);
    var w1, m1 := HighFlags(w), HighFlags(m);
    BitAnd(w.closed, w1, m.closed, m1, r.closed);
    var w2, m2 := Bit(w.closed, w1), Bit(m.closed, m1);
    BitAnd(w.completed, w2, m.completed, m2, r.completed);
    var w3, m3 := Bit(w.completed, w2), Bit(m.completed, m2);
    BitAnd(w.running, w3, m.running, m3, r.running);
    BitAnd(w.scheduled, Bit(w.running, w3), m.scheduled, Bit(m.running, m3), r.scheduled);
  }

  lemma OrPlace(order: ByteOrder, f: nat, r: nat, m: nat)
    requires f < TWO32 && r < TWO32 && m < TWO32
    ensures Or(Place(order, f, r), Place(order, m, 0)) == Place(order, Or(f, m), r)
  {
    hide And, Or, Pow2;
    Pow2Values();
    OrZero(r);
    if order.Little? {
      SplitAt(32, f, r, m, 0);
    } else {
      SplitAt(32, r, f, 0, m);
    }
  }

  lemma AndPlace(order: ByteOrder, f: nat, r: nat, m: nat)
    requires f < TWO32 && r < TWO32 && m < TWO32
    ensures And(Place(order, f, r), Place(order, m, TWO32 - 1)) == Place(order, And(f, m), r)
  {
    hide And, Or, Pow2;
    Pow2Values();
    AndOnes(32, r);
    if order.Little? {
      SplitAt(32, f, r, m, TWO32 - 1);
    } else {
      SplitAt(32, r, f, TWO32 - 1, m);
    }
  }

  lemma MaskPlace(order: ByteOrder, m: nat)
    requires m < TWO32
    ensures FromBytes(order, [0, 0, 0, 0] + ToBytes(order, m, 4)) == Place(order, m, 0)
    ensures FromBytes(order, [255, 255, 255, 255] + ToBytes(order, m, 4)) == Place(order, m, TWO32 - 1)
  {
    Four(order, m);
    Halves(order, [0, 0, 0, 0], ToBytes(order, m, 4));
    FourBytes(order, [0, 0, 0, 0]);
    Halves(order, [255, 255, 255, 255], ToBytes(order, m, 4));
    FourBytes(order, [255, 255, 255, 255]);
  }

  /** `fetch_or(flags)` sets exactly the given flags and keeps the count. */
  lemma FetchOrExact(order: ByteOrder, w: Word, m: Word)
    requires InRange(w)
    ensures FetchOr(order, Encode(order, w), FlagBits(m)) == Encode(order, Union(w, m))
  {
    hide FromBytes, ToBytes, Encode, FlagBits, Place, Or;
    var r := Union(w, m);
    EncodeShape(order, w);
    EncodeShape(order, r);
    FlagBitsBound(m);
    MaskPlace(order, FlagBits(m));
    OrPlace(order, FlagBits(w), w.refs, FlagBits(m));
    FlagUnion(w, m, r);
  }

  /** `fetch_and(flags)` keeps exactly the given flags and the count. */
  lemma FetchAndExact(order: ByteOrder, w: Word, m: Word)
    requires InRange(w)
    ensures FetchAnd(order, Encode(order, w), FlagBits(m)) == Encode(order, Meet(w, m))
  {
    hide FromBytes, ToBytes, Encode, FlagBits, Place, And;
    var r := Meet(w, m);
    EncodeShape(order, w);
    EncodeShape(order, r);
    FlagBitsBound(m);
    MaskPlace(order, FlagBits(m));
    AndPlace(order, FlagBits(w), w.refs, FlagBits(m));
    FlagMeet(w, m, r);
  }
}
