/** Memory layout of a proc: runtime/lightproc/src/layout_helpers.rs and `RawProc::proc_layout`. */
module ProcLayout {
  import opened Bits
  import opened Wrappers

  const USIZE: nat := 0x1_0000_0000_0000_0000
  const ISIZE_MAX: nat := 0x7fff_ffff_ffff_ffff

  /** A size and a power-of-two alignment, given by its exponent. */
  datatype Layout = Layout(size: nat, alignLog: nat)

  function Align(l: Layout): nat { Pow2(l.alignLog) }

  /** The condition under which `Layout::from_size_align` succeeds. */
  predicate IsLayout(l: Layout) { l.alignLog <= 63 && l.size + Align(l) - 1 <= ISIZE_MAX }

  function Max(a: nat, b: nat): nat { if a > b then a else b }

  /** `padding_needed_for`, in wrapping `usize` arithmetic. */
  function PaddingNeededFor(size: nat, align: nat): nat {
    var mask: nat := (USIZE - 1 - (align - 1) % USIZE) % USIZE;
    var sum: nat := ((size + align) % USIZE - 1) % USIZE;
    (And(sum, mask) - size) % USIZE
  }

  /** `extend`; None where the source panics. */
  function Extend(l: Layout, next: Layout): Option<(Layout, nat)> {
    var offset := l.size + PaddingNeededFor(l.size, Align(next));
    if offset >= USIZE || offset + next.size >= USIZE then None
    else
      var r := Layout(offset + next.size, Max(l.alignLog, next.alignLog));
      if IsLayout(r) then Some((r, offset)) else None
  }

  datatype ProcLayout = ProcLayout(layout: Layout, offsetSchedule: nat, offsetUnion: nat)

  function UnionLayout(future: Layout, output: Layout): Layout {
    Layout(Max(future.size, output.size), Max(future.alignLog, output.alignLog))
  }

  /** `proc_layout`: header, schedule function, then the union of future and output. */
  function LayoutOfProc(pdata: Layout, schedule: Layout, future: Layout, output: Layout): Option<ProcLayout> {
    match Extend(pdata, schedule)
    case None => None
    case Some((l, offsetSchedule)) =>
      match Extend(l, UnionLayout(future, output))
      case None => None
      case Some((r, offsetUnion)) => Some(ProcLayout(r, offsetSchedule, offsetUnion))
  }

  // ----- the mask formula

  predicate Aligned(n: nat, p: nat)
    requires p > 0
  {
    n % p == 0
  }

  /** The mask clears the low `k` bits: it rounds down to a multiple of 2^k. */
  lemma MaskRoundsDown(x: nat, k: nat)
    requires x < USIZE && k <= 64
    ensures Pow2(k) <= USIZE
    ensures And(x, USIZE - Pow2(k)) == x - x % Pow2(k)
  {
    hide And, Pow2;
    Pow2Values();
    Pow2Add(64 - k, k);
    MaskSplit(x, k, Pow2(k), Pow2(64 - k), x / Pow2(k), x % Pow2(k));
  }

  lemma MaskSplit(x: nat, k: nat, p: nat, h: nat, q: nat, r: nat)
    requires k <= 64 && p == Pow2(k) && h == Pow2(64 - k)
    requires x == q * p + r && r < p && x < h * p && USIZE == h * p
    ensures p <= USIZE && And(x, USIZE - p) == q * p
  {
    hide And, Pow2;
    if q >= h {
      MulMono(h, q, p);
      assert false;
    }
    MulMono(1, h, p);
    assert (h - 1) * p == h * p - p;
    SplitAt(k, q, r, h - 1, 0);
    AndOnes(64 - k, q);
    AndZero(r);
  }

  lemma AndZero(x: nat)
    ensures And(x, 0) == 0
  {
  }

  /** Rounding `size` up to a multiple of `p` gives the least multiple at or above it. */
  lemma RoundUp(size: nat, p: nat, q: nat, r: nat)
    requires p > 0 && size + p - 1 == q * p + r && r < p
    ensures size <= q * p < size + p && Aligned(q * p, p)
    ensures forall n: nat :: size <= n && Aligned(n, p) ==> q * p <= n
  {
    MulDiv(q, p, 0);
    forall n: nat | size <= n && Aligned(n, p)
      ensures q * p <= n
    {
      var m := n / p;
      assert n == m * p;
      assert (m + 1) * p == m * p + p;
      if m < q {
        MulMono(m + 1, q, p);
        assert false;
      }
      MulMono(q, m, p);
    }
  }

  /** The padding is the least one that aligns, and no operation of the formula wraps. */
  lemma PaddingIsLeast(size: nat, k: nat)
    requires size <= ISIZE_MAX && k <= 63
    ensures var pad := PaddingNeededFor(size, Pow2(k));
            && pad < Pow2(k)
            && Aligned(size + pad, Pow2(k))
            && forall n: nat :: size <= n && Aligned(n, Pow2(k)) ==> size + pad <= n
  {
    hide And, Pow2;
    PowerBound(k);
    var p := Pow2(k);
    var s := size + p - 1;
    MaskRoundsDown(s, k);
    var q, r := s / p, s % p;
    RoundUp(size, p, q, r);
    NoWrap(size, p, q * p);
  }

  lemma NoWrap(size: nat, p: nat, up: nat)
    requires 0 < p <= ISIZE_MAX + 1 && size <= ISIZE_MAX
    requires And(size + p - 1, USIZE - p) == up && size <= up < size + p
    ensures PaddingNeededFor(size, p) == up - size
  {
    hide And;
    assert (size + p) % USIZE == size + p;
    assert (p - 1) % USIZE == p - 1;
    assert (USIZE - p) % USIZE == USIZE - p;
    assert (size + p - 1) % USIZE == size + p - 1;
  }

  lemma PowerBound(k: nat)
    requires k <= 63
    ensures Pow2(k) <= ISIZE_MAX + 1
  {
    hide Pow2;
    Pow2Values();
    Pow2Add(1, 63);
    Pow2One();
    Pow2Add(63 - k, k);
    assert Pow2(63 - k) * Pow2(k) >= Pow2(k);
  }

  lemma Pow2One()
    ensures Pow2(1) == 2
  {
  }

  /** A multiple of a larger power of two is a multiple of every smaller one. */
  lemma AlignedForBoth(n: nat, a: nat, b: nat)
    requires a <= b && Aligned(n, Pow2(b))
    ensures Aligned(n, Pow2(a)) && Aligned(Pow2(b), Pow2(a))
  {
    hide Pow2;
    Pow2Add(b - a, a);
    var c, p := Pow2(b - a), Pow2(a);
    var q := n / Pow2(b);
    assert n == q * (c * p) == (q * c) * p;
    MulDiv(q * c, p, 0);
    MulDiv(c, p, 0);
  }

  /** `extend` fails exactly when the extended layout would not be one; otherwise the new part
      is aligned, starts after the old one with less than an alignment of padding, and fits. */
  lemma ExtendCorrect(l: Layout, next: Layout)
    requires l.size <= ISIZE_MAX && next.alignLog <= 63
    ensures var pad := PaddingNeededFor(l.size, Align(next));
            var r := Layout(l.size + pad + next.size, Max(l.alignLog, next.alignLog));
            && (Extend(l, next).None? <==> !IsLayout(r))
            && (IsLayout(r) ==> Extend(l, next) == Some((r, l.size + pad)))
            && pad < Align(next) && Aligned(l.size + pad, Align(next))
  {
    hide Pow2, PaddingNeededFor;
    PaddingIsLeast(l.size, next.alignLog);
  }

  /** In every proc layout that `proc_layout` returns, header, schedule function and union are
      aligned, disjoint and inside the allocation. */
  lemma ProcLayoutCorrect(pdata: Layout, schedule: Layout, future: Layout, output: Layout)
    requires IsLayout(pdata) && IsLayout(schedule) && IsLayout(future) && IsLayout(output)
    requires LayoutOfProc(pdata, schedule, future, output).Some?
    ensures var p := LayoutOfProc(pdata, schedule, future, output).value;
            && IsLayout(p.layout)
            && Aligned(p.offsetSchedule, Align(schedule))
            && Aligned(p.offsetUnion, Align(future)) && Aligned(p.offsetUnion, Align(output))
            && pdata.size <= p.offsetSchedule
            && p.offsetSchedule + schedule.size <= p.offsetUnion
            && p.offsetUnion + future.size <= p.layout.size && p.offsetUnion + output.size <= p.layout.size
            && Aligned(Align(p.layout), Align(pdata)) && Aligned(Align(p.layout), Align(schedule))
            && Aligned(Align(p.layout), Align(future)) && Aligned(Align(p.layout), Align(output))
  {
    hide Pow2, PaddingNeededFor;
    var u := UnionLayout(future, output);
    ExtendCorrect(pdata, schedule);
    var (l, _) := Extend(pdata, schedule).value;
    ExtendCorrect(l, u);
    var p := LayoutOfProc(pdata, schedule, future, output).value;
    AlignedForBoth(p.offsetUnion, future.alignLog, u.alignLog);
    AlignedForBoth(p.offsetUnion, output.alignLog, u.alignLog);
    AlignedForBoth(0, pdata.alignLog, p.layout.alignLog);
    AlignedForBoth(0, schedule.alignLog, p.layout.alignLog);
    AlignedForBoth(0, future.alignLog, p.layout.alignLog);
    AlignedForBoth(0, output.alignLog, p.layout.alignLog);
  }

  /** No offset that is aligned and lies behind `size` is smaller. */
  predicate LeastOffset(offset: nat, size: nat, align: nat)
    requires align > 0
  {
    forall n: nat :: size <= n && Aligned(n, align) ==> offset <= n
  }

  /** And nothing is wasted: each part comes at the least offset that suits it, the allocation ends with
      the larger of future and output, and its alignment is the largest of the four. */
  lemma ProcLayoutTight(pdata: Layout, schedule: Layout, future: Layout, output: Layout)
    requires IsLayout(pdata) && IsLayout(schedule) && IsLayout(future) && IsLayout(output)
    requires LayoutOfProc(pdata, schedule, future, output).Some?
    ensures var p := LayoutOfProc(pdata, schedule, future, output).value;
            && LeastOffset(p.offsetSchedule, pdata.size, Align(schedule))
            && LeastOffset(p.offsetUnion, p.offsetSchedule + schedule.size, Pow2(Max(future.alignLog, output.alignLog)))
            && p.layout.size == p.offsetUnion + Max(future.size, output.size)
            && p.layout.alignLog == Max(Max(pdata.alignLog, schedule.alignLog), Max(future.alignLog, output.alignLog))
  {
    hide Pow2, PaddingNeededFor, Aligned;
    var u := UnionLayout(future, output);
    ExtendCorrect(pdata, schedule);
    PaddingIsLeast(pdata.size, schedule.alignLog);
    var (l, _) := Extend(pdata, schedule).value;
    ExtendCorrect(l, u);
    PaddingIsLeast(l.size, u.alignLog);
  }
}
