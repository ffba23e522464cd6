/** Sets of pages as lists of ranges: the boot map of paging.c and the page list of elf.c. */
module Intervals {
  import opened Sequences
  import FrameAccounting

  /** Pages from start up to, not including, stop. */
  datatype Range = Range(start: int, stop: int)

  function Min(a: int, b: int): int { if a < b then a else b }

  function Max(a: int, b: int): int { if a > b then a else b }

  /** What both loops compute, whatever the list looks like. */
  function Insert(rs: seq<Range>, a: int, b: int): seq<Range> {
    if rs == [] || b < rs[0].start then [Range(a, b)] + rs
    else if rs[0].stop < a then [rs[0]] + Insert(rs[1..], a, b)
    else if a >= rs[0].start && b <= rs[0].stop then rs
    else Insert(rs[1..], Min(a, rs[0].start), Max(b, rs[0].stop))
  }

  predicate Covers(rs: seq<Range>, p: int) { exists i :: 0 <= i < |rs| && rs[i].start <= p < rs[i].stop }

  /** Non-empty ranges in order, with a gap between neighbours. */
  predicate Canonical(rs: seq<Range>) {
    && (forall i :: 0 <= i < |rs| ==> rs[i].start < rs[i].stop)
    && (forall i, j :: 0 <= i < j < |rs| ==> rs[i].stop < rs[j].start)
  }

  // ----- canonical lists -----

  lemma CoversCons(r: Range, rs: seq<Range>, p: int)
    ensures Covers([r] + rs, p) <==> r.start <= p < r.stop || Covers(rs, p)
  {
    var all := [r] + rs;
    if Covers(rs, p) {
      var i :| 0 <= i < |rs| && rs[i].start <= p < rs[i].stop;
      assert all[i + 1] == rs[i];
    }
    if r.start <= p < r.stop { assert all[0] == r; }
    if Covers(all, p) {
      var i :| 0 <= i < |all| && all[i].start <= p < all[i].stop;
      assert i > 0 ==> all[i] == rs[i - 1];
    }
  }

  lemma CanonicalCons(r: Range, rs: seq<Range>)
    requires r.start < r.stop && Canonical(rs) && (rs != [] ==> r.stop < rs[0].start)
    ensures Canonical([r] + rs)
  {
    var all := [r] + rs;
    forall i, j | 0 <= i < j < |all|
      ensures all[i].stop < all[j].start
    {
      assert all[j] == rs[j - 1];
      assert i > 0 ==> all[i] == rs[i - 1];
    }
  }

  lemma CanonicalTail(rs: seq<Range>)
    requires rs != [] && Canonical(rs)
    ensures Canonical(rs[1..]) && (rs[1..] != [] ==> rs[0].stop < rs[1..][0].start) && rs == [rs[0]] + rs[1..]
  {
    var t := rs[1..];
    assert forall i :: 0 <= i < |t| ==> t[i] == rs[i + 1];
  }

  /** In a canonical list nothing below the first start is covered. */
  lemma CoversFrom(rs: seq<Range>, p: int)
    requires Canonical(rs) && Covers(rs, p)
    ensures rs != [] && rs[0].start <= p
  {
    var i :| 0 <= i < |rs| && rs[i].start <= p < rs[i].stop;
    if i > 0 { assert rs[0].start < rs[0].stop < rs[i].start; }
  }

  lemma {:induction false} InsertAbove(rs: seq<Range>, a: int, b: int, x: int)
    requires Canonical(rs) && x < a && (rs != [] ==> x < rs[0].start)
    ensures Insert(rs, a, b) != [] && x < Insert(rs, a, b)[0].start
    decreases |rs|
  {
    if rs != [] && b >= rs[0].start && rs[0].stop >= a && !(a >= rs[0].start && b <= rs[0].stop) {
      CanonicalTail(rs);
      InsertAbove(rs[1..], Min(a, rs[0].start), Max(b, rs[0].stop), x);
    }
  }

  /** A new range is added: the list stays canonical and the union is exactly the old one and the new range. */
  lemma {:induction false} InsertUnion(rs: seq<Range>, a: int, b: int, p: int)
    requires Canonical(rs) && a < b
    ensures Canonical(Insert(rs, a, b)) && (Covers(Insert(rs, a, b), p) <==> Covers(rs, p) || a <= p < b)
    decreases |rs|
  {
    if rs == [] || b < rs[0].start {
      CanonicalCons(Range(a, b), rs);
      CoversCons(Range(a, b), rs, p);
    } else {
      CanonicalTail(rs);
      CoversCons(rs[0], rs[1..], p);
      if rs[0].stop < a {
        var rest := Insert(rs[1..], a, b);
        InsertUnion(rs[1..], a, b, p);
        InsertAbove(rs[1..], a, b, rs[0].stop);
        CanonicalCons(rs[0], rest);
        CoversCons(rs[0], rest, p);
      } else if !(a >= rs[0].start && b <= rs[0].stop) {
        InsertUnion(rs[1..], Min(a, rs[0].start), Max(b, rs[0].stop), p);
      }
    }
  }

  lemma FirstCovered(rs: seq<Range>)
    requires Canonical(rs)
    ensures rs == [] || exists p :: Covers(rs, p)
  {
    if rs != [] {
      assert rs[0].start < rs[0].stop;
      assert Covers(rs, rs[0].start);
    }
  }

  /** A canonical list is determined by the set it stands for. */
  lemma {:induction false} Unique(xs: seq<Range>, ys: seq<Range>)
    requires Canonical(xs) && Canonical(ys) && forall p :: Covers(xs, p) <==> Covers(ys, p)
    ensures xs == ys
    decreases |xs|
  {
    if xs == [] {
      FirstCovered(ys);
    } else {
      assert Covers(xs, xs[0].start);
      CoversFrom(ys, xs[0].start);
      assert Covers(ys, ys[0].start);
      CoversFrom(xs, ys[0].start);
      CanonicalTail(xs);
      CanonicalTail(ys);
      SameEnd(xs, ys);
      SameEnd(ys, xs);
      forall p
        ensures Covers(xs[1..], p) <==> Covers(ys[1..], p)
      {
        CoversCons(xs[0], xs[1..], p);
        CoversCons(ys[0], ys[1..], p);
        if Covers(xs[1..], p) { CoversFrom(xs[1..], p); }
        if Covers(ys[1..], p) { CoversFrom(ys[1..], p); }
        assert Covers(xs, p) <==> Covers(ys, p);
      }
      Unique(xs[1..], ys[1..]);
    }
  }

  lemma SameEnd(xs: seq<Range>, ys: seq<Range>)
    requires Canonical(xs) && Canonical(ys) && xs != [] && ys != [] && xs[0].start == ys[0].start
    requires forall p :: Covers(xs, p) ==> Covers(ys, p)
    ensures xs[0].stop <= ys[0].stop
  {
    var p := ys[0].stop;
    forall i | 0 <= i < |ys|
      ensures !(ys[i].start <= p < ys[i].stop)
    {
      assert i > 0 ==> ys[0].stop < ys[i].start;
    }
    assert xs[0].start <= p < xs[0].stop ==> Covers(xs, p);
  }

  // ----- empty insertions -----

  /** The range lies inside, or at the edge of, one that is there. */
  ghost predicate Touches(rs: seq<Range>, a: int, b: int) {
    exists i :: 0 <= i < |rs| && rs[i].start <= b && a <= rs[i].stop
  }

  lemma TouchesCons(r: Range, rs: seq<Range>, a: int, b: int)
    ensures Touches([r] + rs, a, b) <==> (r.start <= b && a <= r.stop) || Touches(rs, a, b)
  {
    var all := [r] + rs;
    if Touches(rs, a, b) {
      var i :| 0 <= i < |rs| && rs[i].start <= b && a <= rs[i].stop;
      assert all[i + 1] == rs[i];
    }
    if r.start <= b && a <= r.stop { assert all[0] == r; }
    if Touches(all, a, b) {
      var i :| 0 <= i < |all| && all[i].start <= b && a <= all[i].stop;
      assert i > 0 ==> all[i] == rs[i - 1];
    }
  }

  /** The loop itself also accepts an empty range.  It then does no harm exactly if the range touches one
      that is there; otherwise an empty entry is left behind. */
  lemma {:induction false} InsertEmpty(rs: seq<Range>, a: int, b: int)
    requires Canonical(rs) && a >= b
    ensures if Touches(rs, a, b) then Insert(rs, a, b) == rs else Range(a, b) in Insert(rs, a, b)
    decreases |rs|
  {
    if rs != [] {
      CanonicalTail(rs);
      TouchesCons(rs[0], rs[1..], a, b);
      if b < rs[0].start {
        assert !Touches(rs, a, b) by {
          assert forall i :: 0 < i < |rs| ==> rs[0].stop < rs[i].start;
        }
      } else if rs[0].stop < a {
        InsertEmpty(rs[1..], a, b);
      }
    }
  }

  lemma EmptyEntry(rs: seq<Range>, a: int, b: int)
    requires Canonical(rs) && a >= b
    ensures Canonical(Insert(rs, a, b)) <==> Touches(rs, a, b)
  {
    InsertEmpty(rs, a, b);
    if !Touches(rs, a, b) {
      var i :| 0 <= i < |Insert(rs, a, b)| && Insert(rs, a, b)[i] == Range(a, b);
    }
  }

  /** An empty range in an empty boot map, as an empty list of boot modules at a page boundary gives. */
  lemma EmptyEntryExample()
    ensures Insert([], 5, 5) == [Range(5, 5)] && !Canonical(Insert([], 5, 5))
  {
    EmptyEntry([], 5, 5);
  }

  // ----- many insertions -----

  /** The list form ignores empty ranges. */
  function Added(rs: seq<Range>, r: Range): seq<Range> { if r.stop <= r.start then rs else Insert(rs, r.start, r.stop) }

  function InsertAll(rs: seq<Range>, added: seq<Range>): seq<Range> {
    if added == [] then rs else Added(InsertAll(rs, added[..|added| - 1]), added[|added| - 1])
  }

  /** After any insertions: canonical, and covering exactly the pages of the ranges inserted. */
  lemma {:induction false} InsertAllUnion(added: seq<Range>, p: int)
    ensures Canonical(InsertAll([], added)) && (Covers(InsertAll([], added), p) <==> Covers(added, p))
  {
    if added != [] {
      var n := |added| - 1;
      InsertAllUnion(added[..n], p);
      var r := added[n];
      if r.start < r.stop { InsertUnion(InsertAll([], added[..n]), r.start, r.stop, p); }
      assert forall i :: 0 <= i < n ==> added[..n][i] == added[i];
    }
  }

  /** The order of insertions does not matter, nor how the pages are cut into ranges. */
  lemma OrderIrrelevant(xs: seq<Range>, ys: seq<Range>)
    requires forall p :: Covers(xs, p) <==> Covers(ys, p)
    ensures InsertAll([], xs) == InsertAll([], ys)
  {
    forall p
      ensures Covers(InsertAll([], xs), p) <==> Covers(InsertAll([], ys), p)
    {
      InsertAllUnion(xs, p);
      InsertAllUnion(ys, p);
    }
    InsertAllUnion(xs, 0);
    InsertAllUnion(ys, 0);
    Unique(InsertAll([], xs), InsertAll([], ys));
  }

  /** What the result will be when the first m ranges have been passed and a range [a, b) is in hand. */
  function Partly(rs: seq<Range>, m: nat, a: int, b: int): seq<Range>
    requires m <= |rs|
  {
    rs[..m] + Insert(rs[m..], a, b)
  }

  lemma PartlyStep(rs: seq<Range>, m: nat, a: int, b: int)
    requires m < |rs| && b >= rs[m].start
    ensures Partly(rs, m, a, b) ==
            if rs[m].stop < a then Partly(rs, m + 1, a, b)
            else if a >= rs[m].start && b <= rs[m].stop then rs
            else Partly(rs[..m] + rs[m + 1..], m, Min(a, rs[m].start), Max(b, rs[m].stop))
  {
    assert rs[m..][0] == rs[m] && rs[m..][1..] == rs[m + 1..];
    var less := rs[..m] + rs[m + 1..];
    assert less[..m] == rs[..m] && less[m..] == rs[m + 1..];
    assert rs[..m + 1] == rs[..m] + [rs[m]];
    assert rs == rs[..m] + rs[m..];
  }

  lemma PartlyDone(rs: seq<Range>, m: nat, a: int, b: int)
    requires m <= |rs| && (m < |rs| ==> b < rs[m].start)
    ensures Partly(rs, m, a, b) == rs[..m] + [Range(a, b)] + rs[m..]
  {
    assert m < |rs| ==> rs[m..][0] == rs[m];
  }

  // ----- the array form -----

  /** Slot k while the entries behind m move down and i is the next to move. */
  function Lowered(s: seq<Range>, m: nat, i: nat, k: nat): Range
    requires k < |s| && i <= |s|
  {
    if m <= k < i - 1 then s[k + 1] else s[k]
  }

  /** Slot k while the entries move up and slot i is free. */
  function Raised(s: seq<Range>, i: nat, k: nat): Range
    requires k <= |s| && k != i && i <= |s|
  {
    if i < k then s[k - 1] else s[k]
  }

  const MAX_BOOT_ENTRIES := 1024

  class BootMap {
    const entries: array<Range>   // pagingBootMap
    var count: nat                // pagingNumBootMaps

    ghost predicate Valid()
      reads this, entries
    {
      entries.Length == MAX_BOOT_ENTRIES && count <= MAX_BOOT_ENTRIES
    }

    ghost function Ranges(): seq<Range>
      reads this, entries
      requires count <= entries.Length
    {
      entries[..count]
    }

    constructor ()
      ensures Valid() && Ranges() == [] && fresh(entries)
    {
      entries := new Range[MAX_BOOT_ENTRIES](_ => Range(0, 0));
      count := 0;
    }

    /** The entries behind m move down. */
    method RemoveAt(m: nat)
      requires Valid() && m < count
      modifies this`count, entries
      ensures Valid() && count == old(count) - 1 && Ranges() == old(Ranges())[..m] + old(Ranges())[m + 1..]
    {
      ghost var was := entries[..];
      var i, n := m + 1, count;
      while i < n
        invariant m + 1 <= i <= n == count && Valid()
        invariant forall k :: 0 <= k < n ==> entries[k] == Lowered(was[..n], m, i, k)
      {
        entries[i - 1] := entries[i];
        i := i + 1;
      }
      count := count - 1;
    }

    /** The entries from m on move up to make room. */
    method InsertAt(m: nat, r: Range)
      requires Valid() && m <= count < MAX_BOOT_ENTRIES
      modifies this`count, entries
      ensures Valid() && count == old(count) + 1 && Ranges() == old(Ranges())[..m] + [r] + old(Ranges())[m..]
    {
      ghost var was := entries[..];
      var i, n := count, count;
      while i > m
        invariant m <= i <= n == count && Valid()
        invariant forall k :: 0 <= k <= n && k != i ==> entries[k] == Raised(was[..n], i, k)
      {
        entries[i] := entries[i - 1];
        i := i - 1;
      }
      count := count + 1;
      entries[m] := r;
    }

    /** pagingInsertBootMap: false stands for the assertion on the number of entries. */
    method InsertBootMap(startIndex: int, stopIndex: int) returns (ok: bool)
      requires Valid()
      modifies this, entries
      ensures Valid() && (ok <==> |Insert(old(Ranges()), startIndex, stopIndex)| <= MAX_BOOT_ENTRIES)
      ensures Ranges() == if ok then Insert(old(Ranges()), startIndex, stopIndex) else old(Ranges())
    {
      ghost var was := Ranges();
      var a, b, m := startIndex, stopIndex, 0;
      while m < count && b >= entries[m].start
        invariant Valid() && m <= count && Insert(was, startIndex, stopIndex) == Partly(Ranges(), m, a, b)
        invariant count <= |was| && (count == |was| ==> Ranges() == was)
        decreases count, count - m
      {
        PartlyStep(Ranges(), m, a, b);
        if entries[m].stop < a {
          m := m + 1;
        } else if a >= entries[m].start && b <= entries[m].stop {
          return true;
        } else {
          a, b := Min(a, entries[m].start), Max(b, entries[m].stop);
          RemoveAt(m);
        }
      }
      ok := Place(m, a, b);
    }

    /** A new entry, if there is room for one. */
    method Place(m: nat, a: int, b: int) returns (ok: bool)
      requires Valid() && m <= count && (m < count ==> b < entries[m].start)
      modifies this, entries
      ensures Valid() && (ok <==> |Partly(old(Ranges()), m, a, b)| <= MAX_BOOT_ENTRIES)
      ensures ok <==> old(count) < MAX_BOOT_ENTRIES
      ensures Ranges() == if ok then Partly(old(Ranges()), m, a, b) else old(Ranges())
    {
      PartlyDone(Ranges(), m, a, b);
      if count == MAX_BOOT_ENTRIES {
        return false;
      }
      InsertAt(m, Range(a, b));
      return true;
    }
  }

  // ----- the list form -----

  /** __insertRequiredPage on the list of an ELF file. */
  class PageList {
    var pages: seq<Range>

    constructor ()
      ensures pages == []
    {
      pages := [];
    }

    method InsertRequiredPage(startIndex: int, stopIndex: int)
      modifies this
      ensures pages == Added(old(pages), Range(startIndex, stopIndex))
    {
      if stopIndex <= startIndex {
        return;
      }
      var a, b, m := startIndex, stopIndex, 0;
      while m < |pages| && b >= pages[m].start
        invariant m <= |pages| && Insert(old(pages), startIndex, stopIndex) == Partly(pages, m, a, b)
        decreases |pages| - m
      {
        PartlyStep(pages, m, a, b);
        if pages[m].stop < a {
          m := m + 1;
        } else if a >= pages[m].start && b <= pages[m].stop {
          return;
        } else {
          a, b := Min(a, pages[m].start), Max(b, pages[m].stop);
          pages := pages[..m] + pages[m + 1..];
        }
      }
      PartlyDone(pages, m, a, b);
      pages := pages[..m] + [Range(a, b)] + pages[m..];
    }
  }

  /** No step needs more entries than the array has. */
  ghost predicate Roomy(added: seq<Range>, n: nat)
    requires n <= |added|
  {
    forall i {:trigger added[..i]} :: 0 <= i <= n ==> |InsertAll([], added[..i])| <= MAX_BOOT_ENTRIES
  }

  /** The same ranges, none of them empty, through both loops: the two lists agree if the array has room, and the
      array form refuses an entry exactly if it has not. */
  method BothForms(added: seq<Range>) returns (boot: BootMap, list: PageList, ok: bool)
    requires forall i :: 0 <= i < |added| ==> added[i].start < added[i].stop
    ensures boot.Valid() && list.pages == InsertAll([], added) && (ok ==> boot.Ranges() == list.pages)
    ensures ok <==> Roomy(added, |added|)
  {
    boot := new BootMap();
    list := new PageList();
    ok := true;
    for i := 0 to |added|
      invariant fresh(boot) && fresh(boot.entries) && fresh(list) && boot.Valid()
      invariant list.pages == InsertAll([], added[..i]) && (ok ==> boot.Ranges() == list.pages)
                && (ok <==> Roomy(added, i))
    {
      NextRoomy(added, i);
      ok := InsertBoth(boot, list, added[i], ok);
    }
    assert added[..|added|] == added;
  }

  lemma NextRoomy(added: seq<Range>, i: nat)
    requires i < |added|
    ensures InsertAll([], added[..i + 1]) == Added(InsertAll([], added[..i]), added[i])
    ensures Roomy(added, i + 1) <==> Roomy(added, i) && |InsertAll([], added[..i + 1])| <= MAX_BOOT_ENTRIES
  {
    assert added[..i + 1] == added[..i] + [added[i]];
    InsertAllNext(added[..i], added[i]);
  }

  method InsertBoth(boot: BootMap, list: PageList, r: Range, ok: bool) returns (ok': bool)
    requires boot.Valid() && r.start < r.stop && (ok ==> boot.Ranges() == list.pages)
    modifies boot, boot.entries, list
    ensures boot.Valid() && list.pages == Added(old(list.pages), r) && (ok' ==> boot.Ranges() == list.pages)
    ensures ok' <==> ok && |list.pages| <= MAX_BOOT_ENTRIES
  {
    ok' := false;
    if ok {
      ok' := boot.InsertBootMap(r.start, r.stop);
    }
    list.InsertRequiredPage(r.start, r.stop);
  }

  // ----- the first pass of the ELF loader -----

  /** Address and size of a section; both are 32-bit numbers. */
  datatype Section = Section(addr: nat, size: nat)

  predicate SectionOk(x: Section) { x.addr < WORD && x.size < WORD }

  /** The pages a section needs; the last page of the address space is never among them. */
  function SectionPages(x: Section): (r: Range)
    ensures SectionOk(x) ==> 0 <= r.start <= r.stop < FrameAccounting.PAGE_COUNT
  {
    Range(x.addr / 4096, Min((x.addr + x.size + 4095) / 4096, FrameAccounting.PAGE_COUNT - 1))
  }

  const LAST := FrameAccounting.PAGE_COUNT - 1

  predicate InPage(b: int, p: int) { p * 4096 <= b < p * 4096 + 4096 }

  /** The section has a byte in the page, or it has none but an address inside the page.  A section with address 0
      is not loaded. */
  ghost predicate Needs(x: Section, p: int) {
    && x.addr != 0
    && if x.size == 0 then x.addr % 4096 != 0 && InPage(x.addr, p)
       else exists b :: x.addr <= b < x.addr + x.size && InPage(b, p)
  }

  ghost predicate Needed(sections: seq<Section>, p: int) { exists i :: 0 <= i < |sections| && Needs(sections[i], p) }

  /** The range of a section is the pages it needs, but for the last page of the address space. */
  lemma SectionExact(x: Section, p: int)
    requires x.addr != 0
    ensures SectionPages(x).start <= p < SectionPages(x).stop <==> Needs(x, p) && p < LAST
  {
    var first, end := x.addr / 4096, (x.addr + x.size + 4095) / 4096;
    if x.size == 0 {
      assert end == if x.addr % 4096 == 0 then first else first + 1;
    } else {
      assert end == (x.addr + x.size - 1) / 4096 + 1;
      if first <= p < end {
        var b := Max(x.addr, p * 4096);
        assert x.addr <= b < x.addr + x.size && InPage(b, p);
      }
    }
  }

  lemma {:induction false} WantedExact(sections: seq<Section>, p: int)
    ensures Covers(Wanted(sections), p) <==> Needed(sections, p) && p < LAST
  {
    if sections != [] {
      var n := |sections| - 1;
      var front, x := sections[..n], sections[n];
      WantedExact(front, p);
      assert Needed(sections, p) <==> Needed(front, p) || Needs(x, p) by {
        assert forall i :: 0 <= i < n ==> front[i] == sections[i];
      }
      if x.addr != 0 {
        SectionExact(x, p);
        CoversSnoc(Wanted(front), SectionPages(x), p);
      } else {
        assert Wanted(front) + [] == Wanted(front);
      }
    }
  }

  /** The section lies below the last page. */
  predicate EndsBelow(x: Section) { x.addr == 0 || x.addr + x.size <= LAST * 4096 }

  lemma ReachesLast(x: Section)
    requires SectionOk(x)
    ensures EndsBelow(x) <==> forall p :: Needs(x, p) ==> p < LAST
  {
    if EndsBelow(x) {
      forall p | Needs(x, p)
        ensures p < LAST
      {
        if x.size > 0 { var b :| x.addr <= b < x.addr + x.size && InPage(b, p); }
      }
    } else {
      var b := if x.size == 0 then x.addr else x.addr + x.size - 1;
      assert InPage(b, b / 4096);
      assert Needs(x, b / 4096);
    }
  }

  /** Sixteen bytes at the start of the last page: the page is needed and not allocated. */
  lemma LastPageExample()
    ensures var x := Section(0xFFFF_F000, 16); SectionOk(x) && Needed([x], LAST) && !Covers(Wanted([x]), LAST)
  {
    var x := Section(0xFFFF_F000, 16);
    assert InPage(0xFFFF_F000, LAST);
    assert Needs([x][0], LAST);
    WantedExact([x], LAST);
  }

  function Wanted(sections: seq<Section>): seq<Range> {
    if sections == [] then []
    else
      var x := sections[|sections| - 1];
      Wanted(sections[..|sections| - 1]) + (if x.addr == 0 then [] else [SectionPages(x)])
  }

  /** The pages of a list of ranges, in order. */
  function Pages(rs: seq<Range>): seq<int> {
    if rs == [] then [] else Pages(rs[..|rs| - 1]) + Run(rs[|rs| - 1].start, rs[|rs| - 1].stop)
  }

  function Run(a: int, b: int): (s: seq<int>)
    ensures |s| == (if a < b then b - a else 0) && forall i :: 0 <= i < |s| ==> s[i] == a + i
    decreases b - a
  {
    if b <= a then [] else Run(a, b - 1) + [b - 1]
  }

  ghost predicate Increasing(s: seq<int>) { forall i, j :: 0 <= i < j < |s| ==> s[i] < s[j] }

  lemma CoversSnoc(rs: seq<Range>, r: Range, p: int)
    ensures Covers(rs + [r], p) <==> Covers(rs, p) || r.start <= p < r.stop
  {
    var all := rs + [r];
    if Covers(rs, p) {
      var i :| 0 <= i < |rs| && rs[i].start <= p < rs[i].stop;
      assert all[i] == rs[i];
    }
    if r.start <= p < r.stop { assert all[|rs|] == r; }
    if Covers(all, p) {
      var i :| 0 <= i < |all| && all[i].start <= p < all[i].stop;
      assert i < |rs| ==> all[i] == rs[i];
    }
  }

  lemma RunMembers(a: int, b: int, p: int)
    ensures p in Run(a, b) <==> a <= p < b
  {
    if a <= p < b { assert Run(a, b)[p - a] == p; }
  }

  lemma {:induction false} PagesCovered(rs: seq<Range>, p: int)
    ensures p in Pages(rs) <==> Covers(rs, p)
  {
    if rs != [] {
      var n := |rs| - 1;
      PagesCovered(rs[..n], p);
      assert rs == rs[..n] + [rs[n]];
      CoversSnoc(rs[..n], rs[n], p);
      RunMembers(rs[n].start, rs[n].stop, p);
    }
  }

  /** The pages of a canonical list come in increasing order, so none comes twice. */
  lemma {:induction false} PagesIncrease(rs: seq<Range>)
    requires Canonical(rs)
    ensures Increasing(Pages(rs))
  {
    if rs != [] {
      var n := |rs| - 1;
      var front, last := rs[..n], rs[n];
      PagesIncrease(front);
      var pre, run := Pages(front), Run(last.start, last.stop);
      forall i | 0 <= i < |pre|
        ensures pre[i] < last.start
      {
        assert pre[i] in pre;
        PagesCovered(front, pre[i]);
        var k :| 0 <= k < |front| && front[k].start <= pre[i] < front[k].stop;
        assert rs[k] == front[k];
      }
    }
  }

  /** The sections are collected into a list of ranges. */
  method Collect(sections: seq<Section>) returns (list: PageList)
    requires forall i :: 0 <= i < |sections| ==> SectionOk(sections[i])
    ensures fresh(list) && list.pages == InsertAll([], Wanted(sections))
  {
    list := new PageList();
    for i := 0 to |sections|
      invariant list.pages == InsertAll([], Wanted(sections[..i])) && fresh(list)
    {
      var x := sections[i];
      WantedNext(sections, i);
      if x.addr != 0 {
        var r := SectionPages(x);
        assert r.start <= r.stop;
        InsertAllNext(Wanted(sections[..i]), r);
        list.InsertRequiredPage(r.start, r.stop);
      }
    }
    assert sections[..|sections|] == sections;
  }

  lemma WantedNext(sections: seq<Section>, i: nat)
    requires i < |sections|
    ensures Wanted(sections[..i + 1]) ==
            if sections[i].addr == 0 then Wanted(sections[..i]) else Wanted(sections[..i]) + [SectionPages(sections[i])]
  {
    assert sections[..i + 1][..i] == sections[..i];
  }

  /** At this page the fixed allocation stops the kernel: the NULL page, or one that is mapped. */
  predicate Refused(mapped: set<int>, p: int) { p == 0 || p in mapped }

  /** pagingAllocatePhysMemFixed for one range. */
  method AllocateRange(r: Range, mapped: set<int>) returns (hit: Option<int>)
    requires 0 <= r.start < r.stop
    ensures hit.None? ==> forall p :: p in Run(r.start, r.stop) ==> !Refused(mapped, p)
    ensures hit.Some? ==> hit.value in Run(r.start, r.stop) && Refused(mapped, hit.value)
  {
    if r.start == 0 {
      RunMembers(r.start, r.stop, 0);
      return Some(0);
    }
    for p := r.start to r.stop
      invariant forall q :: r.start <= q < p ==> !Refused(mapped, q)
    {
      if p in mapped {
        RunMembers(r.start, r.stop, p);
        return Some(p);
      }
    }
    return None;
  }

  /** Then every range is allocated page by page, into a process in which some pages are mapped.  The kernel stops if
      and only if the NULL page or a mapped page is needed, the last page of the address space aside.  Otherwise no
      page is allocated twice, and exactly the pages some section needs are, but never the last one: all pages that are
      needed are there if and only if every section that is loaded ends below it. */
  method LoadPages(sections: seq<Section>, pid: nat, mapped: set<int>) returns (r: FrameAccounting.Outcome<seq<int>>)
    requires forall i :: 0 <= i < |sections| ==> SectionOk(sections[i])
    ensures r.Halt? <==> exists p :: Needed(sections, p) && p < LAST && Refused(mapped, p)
    ensures r.Halt? ==>
              && r.why.AddressInUse? && r.why.space == FrameAccounting.User(pid)
              && Needed(sections, r.why.page) && r.why.page < LAST && Refused(mapped, r.why.page)
    ensures r.Ok? ==> Increasing(r.value) && forall p :: p in r.value <==> Needed(sections, p) && p < LAST
    ensures r.Ok? ==> ((forall p :: Needed(sections, p) ==> p in r.value) <==>
                       forall i :: 0 <= i < |sections| ==> EndsBelow(sections[i]))
  {
    var list := Collect(sections);
    ghost var rs := list.pages;
    RangesExact(sections, rs);
    var loaded := [];
    ghost var n := 0;
    while list.pages != []
      invariant n <= |rs| && list.pages == rs[n..] && loaded == Pages(rs[..n])
      invariant forall p :: p in loaded ==> !Refused(mapped, p)
      decreases |list.pages|
    {
      assert rs[..n + 1][..n] == rs[..n] && rs[n] == list.pages[0];
      var hit := AllocateRange(list.pages[0], mapped);
      if hit.Some? {
        RunMembers(rs[n].start, rs[n].stop, hit.value);
        assert Covers(rs, hit.value);
        return FrameAccounting.Halt(FrameAccounting.AddressInUse(FrameAccounting.User(pid), hit.value));
      }
      loaded := loaded + Run(list.pages[0].start, list.pages[0].stop);
      list.pages := list.pages[1..];
      n := n + 1;
    }
    assert rs[..n] == rs;
    AllLoaded(sections, loaded);
    r := FrameAccounting.Ok(loaded);
  }

  /** The ranges collected are the pages needed, without the last. */
  lemma RangesExact(sections: seq<Section>, rs: seq<Range>)
    requires rs == InsertAll([], Wanted(sections))
    ensures Increasing(Pages(rs)) && forall p :: p in Pages(rs) <==> Needed(sections, p) && p < LAST
    ensures forall p :: Covers(rs, p) <==> Needed(sections, p) && p < LAST
    ensures forall i :: 0 <= i < |rs| ==> 0 <= rs[i].start < rs[i].stop
  {
    InsertAllUnion(Wanted(sections), 0);
    PagesIncrease(rs);
    forall p
      ensures p in Pages(rs) <==> Covers(rs, p)
      ensures Covers(rs, p) <==> Needed(sections, p) && p < LAST
    {
      PagesCovered(rs, p);
      InsertAllUnion(Wanted(sections), p);
      WantedExact(sections, p);
    }
    forall i | 0 <= i < |rs|
      ensures 0 <= rs[i].start < rs[i].stop
    {
      assert Covers(rs, rs[i].start);
      NeededIsPage(sections, rs[i].start);
    }
  }

  lemma NeededIsPage(sections: seq<Section>, p: int)
    requires Needed(sections, p)
    ensures p >= 0
  {
    var i :| 0 <= i < |sections| && Needs(sections[i], p);
  }

  /** A section below the first page boundary needs the NULL page, one at the usual place of the descriptor table a page
      that every process has: both lie below the last page, and the kernel stops. */
  method StoppedBy(pid: nat, mapped: set<int>)
                   returns (low: FrameAccounting.Outcome<seq<int>>, gdt: FrameAccounting.Outcome<seq<int>>)
    requires 0xFF801 in mapped
    ensures EndsBelow(Section(16, 16)) && low.Halt? && EndsBelow(Section(0xFF80_1000, 16)) && gdt.Halt?
  {
    low := LoadPages([Section(16, 16)], pid, mapped);
    gdt := LoadPages([Section(0xFF80_1000, 16)], pid, mapped);
    assert InPage(16, 0) && InPage(0xFF80_1000, 0xFF801);
    assert Needs([Section(16, 16)][0], 0) && Needs([Section(0xFF80_1000, 16)][0], 0xFF801);
    assert Needed([Section(16, 16)], 0) && Refused(mapped, 0);
    assert Needed([Section(0xFF80_1000, 16)], 0xFF801) && Refused(mapped, 0xFF801);
  }

  lemma AllLoaded(sections: seq<Section>, loaded: seq<int>)
    requires forall i :: 0 <= i < |sections| ==> SectionOk(sections[i])
    requires forall p :: p in loaded <==> Needed(sections, p) && p < LAST
    ensures (forall p :: Needed(sections, p) ==> p in loaded) <==>
              forall i :: 0 <= i < |sections| ==> EndsBelow(sections[i])
  {
    forall i | 0 <= i < |sections|
      ensures EndsBelow(sections[i]) <==> forall p :: Needs(sections[i], p) ==> p < LAST
    {
      ReachesLast(sections[i]);
    }
    if forall p :: Needed(sections, p) ==> p in loaded {
      forall i, p | 0 <= i < |sections| && Needs(sections[i], p)
        ensures p < LAST
      {
        assert Needed(sections, p);
      }
    }
  }

  lemma InsertAllNext(xs: seq<Range>, r: Range)
    ensures InsertAll([], xs + [r]) == Added(InsertAll([], xs), r)
  {
    assert (xs + [r])[..|xs|] == xs;
  }
}
