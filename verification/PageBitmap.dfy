/** The bitmap of physmem.c: 32 pages to a word, a set bit for a reserved page. */
module PageBitmap {
  import opened Sequences
  import FrameAccounting

  const WORDS := 0x8000
  const FULL: bv32 := 0xFFFF_FFFF

  /** A small number as a machine word; six bits are enough for a shift amount. */
  function W(k: nat): bv6
    requires k <= 32
  {
    if k == 0 then 0 else W(k - 1) + 1
  }

  lemma {:induction false} WordIs(k: nat)
    requires k <= 32
    ensures W(k) as int == k
  {
    if k > 0 {
      WordIs(k - 1);
    }
  }

  function One(s: bv6): bv32
    requires s < 32
  {
    (1 as bv32) << s
  }

  /** Bit s of a word. */
  predicate At(w: bv32, s: bv6)
    requires s < 32
  {
    w & One(s) != 0
  }

  predicate Bit(w: bv32, k: nat)
    requires k < 32
  {
    SmallIs(k);
    At(w, W(k))
  }

  lemma SmallIs(k: nat)
    requires k <= 32
    ensures W(k) <= 32 && (k < 32 ==> W(k) < 32)
  {
    if k < 32 {
      WordOrder(k, 32);
    }
    WordIs(32);
    assert W(32) == 32;
  }

  lemma {:induction false} WordOrder(j: nat, k: nat)
    requires j < k <= 32
    ensures W(j) < W(k) && W(k) - W(j) == W(k - j)
    decreases k
  {
    WordIs(k - 1);
    assert W(k - 1) != 63;
    if j < k - 1 {
      WordOrder(j, k - 1);
    }
  }

  // ----- single words -----

  /** The test of the source. */
  lemma ShiftTest(w: bv32, s: bv6)
    requires s < 32
    ensures (w >> s) & 1 == 1 <==> At(w, s)
  {
  }

  lemma OrShift(w: bv32, m: bv32, s: bv6)
    requires s < 32
    ensures ((w | m) >> s) & 1 == 1 <==> (w >> s) & 1 == 1 || (m >> s) & 1 == 1
  {
  }

  lemma OrAt(w: bv32, m: bv32, s: bv6)
    requires s < 32
    ensures At(w | m, s) <==> At(w, s) || At(m, s)
  {
    OrShift(w, m, s);
    ShiftTest(w, s);
    ShiftTest(m, s);
    ShiftTest(w | m, s);
  }

  lemma AndNotOne(w: bv32, m: bv32, s: bv6)
    requires s < 32
    ensures w & !m & One(s) != 0 <==> w & One(s) != 0 && m & One(s) == 0
  {
  }

  lemma AndNotAt(w: bv32, m: bv32, s: bv6)
    requires s < 32
    ensures At(w & !m, s) <==> At(w, s) && !At(m, s)
  {
    AndNotOne(w, m, s);
  }

  lemma HighAt(o: bv6, s: bv6)
    requires o < 32 && s < 32
    ensures At(FULL << o, s) <==> s >= o
  {
  }

  lemma MidAt(n: bv6, o: bv6, s: bv6)
    requires n < 32 && o < 32 && s < 32
    ensures At(Mid(n, o), s) <==> s >= o && s - o < n
  {
  }

  /** n bits from o on. */
  function Mid(n: bv6, o: bv6): bv32
    requires n < 32 && o < 32
  {
    (One(n) - 1) << o
  }

  lemma FillAt(w: bv32, o: bv6)
    requires o < 32 && (w | (FULL << o)) == FULL && At(w, o)
    ensures o < 31 ==> (w | (FULL << (o + 1))) == FULL
    ensures o == 31 ==> w == FULL
  {
  }

  lemma FullAt(s: bv6)
    requires s < 32
    ensures At(FULL, s)
  {
  }

  // ----- masks -----

  /** The mask has exactly the bits from lo to hi (exclusive). */
  ghost predicate IsMask(m: bv32, lo: nat, hi: nat) {
    forall k {:trigger Bit(m, k)} :: 0 <= k < 32 ==> (Bit(m, k) <==> lo <= k < hi)
  }

  lemma Compare(j: nat, k: nat)
    requires j < 32 && k < 32
    ensures W(j) < 32 && W(k) < 32 && (W(j) < W(k) <==> j < k) && (W(j) == W(k) <==> j == k)
  {
    SmallIs(j);
    SmallIs(k);
    if j < k { WordOrder(j, k); } else if k < j { WordOrder(k, j); }
  }

  lemma HighBit(o: nat, k: nat)
    requires o < 32 && k < 32
    ensures W(o) < 32 && (Bit(FULL << W(o), k) <==> o <= k)
  {
    Compare(k, o);
    HighAt(W(o), W(k));
  }

  lemma HighMask(o: nat)
    requires o < 32
    ensures W(o) < 32 && IsMask(FULL << W(o), o, 32)
  {
    HighBit(o, 0);
    var m := FULL << W(o);
    forall k | 0 <= k < 32
      ensures Bit(m, k) <==> o <= k < 32
    {
      HighBit(o, k);
    }
  }

  lemma MidBit(n: nat, o: nat, k: nat)
    requires n < 32 && o < 32 && k < 32 && o + n <= 32
    ensures W(n) < 32 && W(o) < 32 && (Bit(Mid(W(n), W(o)), k) <==> o <= k < o + n)
  {
    SmallIs(n);
    SmallIs(o);
    SmallIs(k);
    var a, b, c := W(n), W(o), W(k);
    MidAt(a, b, c);
    MidWhen(n, o, k);
  }

  lemma MidWhen(n: nat, o: nat, k: nat)
    requires n < 32 && o < 32 && k < 32 && o + n <= 32
    ensures W(k) >= W(o) && W(k) - W(o) < W(n) <==> o <= k < o + n
  {
    Compare(k, o);
    if o <= k {
      Compare(k - o, n);
      Difference(o, k);
    }
  }

  lemma Difference(j: nat, k: nat)
    requires j <= k <= 32
    ensures W(k) - W(j) == W(k - j)
  {
    if j < k { WordOrder(j, k); }
  }

  lemma MidMask(n: nat, o: nat)
    requires n < 32 && o < 32 && o + n <= 32
    ensures W(n) < 32 && W(o) < 32 && IsMask(Mid(W(n), W(o)), o, o + n)
  {
    MidBit(n, o, 0);
    var m := Mid(W(n), W(o));
    forall k | 0 <= k < 32
      ensures Bit(m, k) <==> o <= k < o + n
    {
      MidBit(n, o, k);
    }
  }

  function Put(w: bv32, mask: bv32, reserved: bool): bv32 { if reserved then w | mask else w & !mask }

  lemma PutBit(w: bv32, mask: bv32, reserved: bool, k: nat)
    requires k < 32
    ensures Bit(Put(w, mask, reserved), k) == if Bit(mask, k) then reserved else Bit(w, k)
  {
    SmallIs(k);
    if reserved {
      OrAt(w, mask, W(k));
    } else {
      AndNotAt(w, mask, W(k));
    }
  }

  // ----- the bitmap as a set of pages -----

  predicate Reserved(s: seq<bv32>, p: nat)
    requires p < 32 * |s|
  {
    Bit(s[p / 32], p % 32)
  }

  /** Exactly the pages from a to b (exclusive) have been set to `reserved`. */
  ghost predicate Span(s: seq<bv32>, t: seq<bv32>, a: nat, b: nat, reserved: bool) {
    && |t| == |s|
    && forall p {:trigger Reserved(t, p)} ::
       0 <= p < 32 * |s| ==> Reserved(t, p) == if a <= p < b then reserved else Reserved(s, p)
  }

  lemma SpanPut(s: seq<bv32>, i: nat, mask: bv32, lo: nat, hi: nat, reserved: bool)
    requires i < |s| && IsMask(mask, lo, hi) && hi <= 32
    ensures Span(s, s[i := Put(s[i], mask, reserved)], 32 * i + lo, 32 * i + hi, reserved)
  {
    var w := Put(s[i], mask, reserved);
    var t := s[i := w];
    forall p | 0 <= p < 32 * |s|
      ensures Reserved(t, p) == if 32 * i + lo <= p < 32 * i + hi then reserved else Reserved(s, p)
    {
      var j, k := p / 32, p % 32;
      if j == i {
        PutBit(s[i], mask, reserved, k);
        assert Bit(mask, k) <==> lo <= k < hi;
      } else {
        assert t[j] == s[j];
      }
    }
  }

  lemma SpanWord(s: seq<bv32>, i: nat, reserved: bool)
    requires i < |s|
    ensures Span(s, s[i := if reserved then FULL else 0], 32 * i, 32 * i + 32, reserved)
  {
    var t := s[i := if reserved then FULL else 0];
    forall p | 0 <= p < 32 * |s|
      ensures Reserved(t, p) == if 32 * i <= p < 32 * i + 32 then reserved else Reserved(s, p)
    {
      SmallIs(p % 32);
      FullAt(W(p % 32));
    }
  }

  lemma SpanJoin(s: seq<bv32>, t: seq<bv32>, u: seq<bv32>, a: nat, b: nat, c: nat, reserved: bool)
    requires Span(s, t, a, b, reserved) && Span(t, u, b, c, reserved) && a <= b <= c
    ensures Span(s, u, a, c, reserved)
  {
    forall p | 0 <= p < 32 * |s|
      ensures Reserved(u, p) == if a <= p < c then reserved else Reserved(s, p)
    {
      assert Reserved(t, p) == if a <= p < b then reserved else Reserved(s, p);
    }
  }

  /** The set of pages that a bitmap stands for. */
  ghost function ReservedPages(s: seq<bv32>): set<nat> { set p: nat | p < 32 * |s| && Reserved(s, p) }

  predicate Between(a: nat, b: nat, p: nat) { a <= p < b }

  ghost function Pages(a: nat, b: nat): set<nat> { set p {:trigger Between(a, b, p)} | a <= p < b && Between(a, b, p) }

  /** Changing a span of bits adds these pages to the set, or takes them away. */
  lemma SpanPages(s: seq<bv32>, t: seq<bv32>, a: nat, b: nat, reserved: bool)
    requires Span(s, t, a, b, reserved) && b <= 32 * |s|
    ensures ReservedPages(t) == if reserved then ReservedPages(s) + Pages(a, b) else ReservedPages(s) - Pages(a, b)
  {
    forall p: nat | p < 32 * |s|
      ensures p in ReservedPages(t) <==> if a <= p < b then reserved else p in ReservedPages(s)
    {
      assert Reserved(t, p) == if a <= p < b then reserved else Reserved(s, p);
    }
  }

  class PhysMap {
    const words: array<bv32>   // physMemMap

    constructor ()
      ensures words.Length == WORDS
    {
      words := new bv32[WORDS];
    }

    /** physMemSetMemoryBits: exactly the bits of the given pages change, whatever the alignment. */
    method SetMemoryBits(start: nat, length: nat, reserved: bool)
      requires words.Length == WORDS && length < FrameAccounting.PAGE_COUNT
               && start < FrameAccounting.PAGE_COUNT - length
      modifies words
      ensures Span(old(words[..]), words[..], start, start + length, reserved)
    {
      ghost var was := words[..];
      var i, n := SetHead(start, length, reserved);
      while n >= 32
        invariant Span(was, words[..], start, start + length - n, reserved)
        invariant 0 <= n <= length && (n > 0 ==> 32 * i + n == start + length)
      {
        SetFull(i, reserved, was, start, start + length - n);
        i, n := i + 1, n - 32;
      }
      if n > 0 {
        SetTail(i, n, reserved, was, start);
      }
    }

    /** The bits up to the next word boundary; i is the next word and n the number of bits left. */
    method SetHead(start: nat, length: nat, reserved: bool) returns (i: nat, n: nat)
      requires words.Length == WORDS && length < FrameAccounting.PAGE_COUNT
               && start < FrameAccounting.PAGE_COUNT - length
      modifies words
      ensures n <= length && (n > 0 ==> 32 * i + n == start + length)
      ensures Span(old(words[..]), words[..], start, start + length - n, reserved)
    {
      i, n := start / 32, length;
      var o := start % 32;
      if o != 0 {
        if length > 32 - o {
          HighMask(o);
          SpanPut(words[..], i, FULL << W(o), o, 32, reserved);
          Apply(i, FULL << W(o), reserved);
          n := length - (32 - o);
        } else {
          MidMask(length, o);
          SpanPut(words[..], i, Mid(W(length), W(o)), o, o + length, reserved);
          Apply(i, (One(W(length)) - 1) << W(o), reserved);
          n := 0;
        }
        i := i + 1;
      }
    }

    method Apply(i: nat, mask: bv32, reserved: bool)
      requires i < words.Length
      modifies words
      ensures words[..] == old(words[..])[i := Put(old(words[i]), mask, reserved)]
    {
      if reserved {
        words[i] := words[i] | mask;
      } else {
        words[i] := words[i] & !mask;
      }
    }

    method SetFull(i: nat, reserved: bool, ghost was: seq<bv32>, ghost a: nat, ghost b: nat)
      requires i < words.Length && Span(was, words[..], a, b, reserved) && b == 32 * i && a <= b
      modifies words
      ensures Span(was, words[..], a, b + 32, reserved)
    {
      ghost var t := words[..];
      SpanWord(t, i, reserved);
      words[i] := if reserved then FULL else 0;
      assert words[..] == t[i := if reserved then FULL else 0];
      SpanJoin(was, t, words[..], a, b, b + 32, reserved);
    }

    method SetTail(i: nat, n: nat, reserved: bool, ghost was: seq<bv32>, ghost a: nat)
      requires i < words.Length && 0 < n < 32 && Span(was, words[..], a, 32 * i, reserved) && a <= 32 * i
      modifies words
      ensures Span(was, words[..], a, 32 * i + n, reserved)
    {
      ghost var t := words[..];
      MidMask(n, 0);
      SmallIs(0);
      NoShift(One(W(n)) - 1);
      assert Mid(W(n), W(0)) == One(W(n)) - 1;
      SpanPut(t, i, One(W(n)) - 1, 0, n, reserved);
      Apply(i, One(W(n)) - 1, reserved);
      SpanJoin(was, t, words[..], a, 32 * i, 32 * i + n, reserved);
    }

    /** The end of physMemReleasePage: the bit of one page is cleared. */
    method ClearPage(p: nat)
      requires words.Length == WORDS && p < FrameAccounting.PAGE_COUNT
      modifies words
      ensures Span(old(words[..]), words[..], p, p + 1, false)
    {
      OneMask(p % 32);
      SpanPut(words[..], p / 32, One(W(p % 32)), p % 32, p % 32 + 1, false);
      Apply(p / 32, One(W(p % 32)), false);
    }

    /** physMemAllocPage: the lowest free page, above 1 MB unless low memory will do; None once memory is used up. */
    method AllocPage(lowmem: bool) returns (r: Option<nat>)
      requires words.Length == WORDS
      modifies words
      ensures var from := if lowmem then 0 else 256;
              if r.Some? then
                && from <= r.value < FrameAccounting.PAGE_COUNT && !Reserved(old(words[..]), r.value)
                && (forall p {:trigger Reserved(old(words[..]), p)} ::
                   from <= p < r.value ==> Reserved(old(words[..]), p))
                && Span(old(words[..]), words[..], r.value, r.value + 1, true)
              else
                && words[..] == old(words[..])
                && (forall p {:trigger Reserved(words[..], p)} ::
                   from <= p < FrameAccounting.PAGE_COUNT ==> Reserved(words[..], p))
    {
      ghost var was := words[..];
      var from := if lowmem then 0 else 8;
      var i := from;
      while i < WORDS && words[i] == FULL
        invariant from <= i <= WORDS && forall j :: from <= j < i ==> was[j] == FULL
      {
        i := i + 1;
      }
      AllFull(was, from, i);
      if i == WORDS {
        return None;
      }
      var o := FirstClear(words[i]);
      OneMask(o);
      SpanPut(was, i, One(W(o)), o, o + 1, true);
      Apply(i, One(W(o)), true);
      LowestAt(was, from, i, o);
      return Some(32 * i + o);
    }
  }

  lemma NoShift(w: bv32)
    ensures w << W(0) == w
  {
  }

  lemma OneMask(o: nat)
    requires o < 32
    ensures W(o) < 32 && IsMask(One(W(o)), o, o + 1)
  {
    SmallIs(o);
    var m := One(W(o));
    forall k | 0 <= k < 32
      ensures Bit(m, k) <==> k == o
    {
      Compare(o, k);
      OneAt(W(o), W(k));
    }
  }

  lemma OneAt(o: bv6, s: bv6)
    requires o < 32 && s < 32
    ensures At(One(o), s) <==> o == s
  {
  }

  lemma AllFull(s: seq<bv32>, from: nat, i: nat)
    requires from <= i <= |s| && forall j :: from <= j < i ==> s[j] == FULL
    ensures forall p {:trigger Reserved(s, p)} :: 32 * from <= p < 32 * i ==> Reserved(s, p)
  {
    forall p | 32 * from <= p < 32 * i
      ensures Reserved(s, p)
    {
      SmallIs(p % 32);
      FullAt(W(p % 32));
    }
  }

  /** All bits below o are set. */
  predicate LowFull(w: bv32, o: nat)
    requires o < 32
  {
    SmallIs(o);
    (w | (FULL << W(o))) == FULL
  }

  lemma LowFullNone(w: bv32)
    ensures LowFull(w, 0)
  {
  }

  lemma LowFullNext(w: bv32, o: nat)
    requires o < 32 && LowFull(w, o) && Bit(w, o) && w != FULL
    ensures o < 31 && LowFull(w, o + 1)
  {
    SmallIs(o);
    FillAt(w, W(o));
    NotLast(o);
  }

  lemma BitTest(w: bv32, o: nat)
    requires o < 32
    ensures W(o) < 32 && ((w >> W(o)) & 1 == 1 <==> Bit(w, o))
  {
    SmallIs(o);
    ShiftTest(w, W(o));
  }

  /** The first clear bit of a word that has one. */
  method FirstClear(w: bv32) returns (o: nat)
    requires w != FULL
    ensures o < 32 && !Bit(w, o) && forall k :: 0 <= k < o ==> Bit(w, k)
  {
    o := 0;
    LowFullNone(w);
    BitTest(w, 0);
    while (w >> W(o)) & 1 == 1
      invariant o < 32 && W(o) < 32 && LowFull(w, o) && forall k :: 0 <= k < o ==> Bit(w, k)
      invariant (w >> W(o)) & 1 == 1 <==> Bit(w, o)
      decreases 32 - o
    {
      LowFullNext(w, o);
      o := o + 1;
      BitTest(w, o);
    }
  }

  lemma NotLast(o: nat)
    requires o < 32
    ensures W(o) < 32 && (W(o) < 31 <==> o < 31)
  {
    WordIs(31);
    assert W(31) == 31;
    Compare(o, 31);
  }

  lemma LowestAt(s: seq<bv32>, from: nat, i: nat, o: nat)
    requires from <= i < |s| && o < 32 && !Bit(s[i], o) && forall k :: 0 <= k < o ==> Bit(s[i], k)
    requires forall p {:trigger Reserved(s, p)} :: 32 * from <= p < 32 * i ==> Reserved(s, p)
    ensures !Reserved(s, 32 * i + o)
    ensures forall p {:trigger Reserved(s, p)} :: 32 * from <= p < 32 * i + o ==> Reserved(s, p)
  {
    assert (32 * i + o) / 32 == i && (32 * i + o) % 32 == o;
    forall p | 32 * i <= p < 32 * i + o
      ensures Reserved(s, p)
    {
      assert p / 32 == i && p % 32 < o;
    }
  }
}
