/** allocator.c: the kernel heap.  Headers lie in the same memory as the payloads: writing a header
    destroys the bytes under it, and client bytes destroy headers they overlap. */
module KernelHeap {
  import opened Sequences
  import opened HeapTiles
  import opened HeapState
  import opened KernelBytes

  class Heap {
    var hdr: map<nat, Header>        // headers readable in memory, stale ones included
    var mem: map<nat, bv8>           // bytes with a defined value
    var lists: seq<seq<nat>>         // six free lists, smallHeap, largeHeap

    ghost var tiles: map<nat, Tile>  // the blocks of the small heap
    ghost var pages: set<nat>        // pages the small heap holds
    ghost var big: map<nat, nat>     // large blocks and their lengths

    /** Everything is in order, except that the block at `d` (if any) is neither queued nor merged yet. */
    ghost predicate InTransit(d: int)
      reads this
    {
      && Tiling(tiles, pages) && Coalesced(tiles, d)
      && Agree(hdr, tiles, d) && Listed(lists, tiles, big, d) && LargeOk(hdr, pages, big)
    }

    ghost predicate Valid()
      reads this
    {
      InTransit(-1)
    }

    constructor ()
      ensures Valid() && tiles == map[] && pages == {} && big == map[] && mem == map[]
    {
      hdr, mem, lists := map[], map[], [[], [], [], [], [], [], [], []];
      tiles, pages, big := map[], {}, map[];
    }

    // ----- small blocks -----

    /** __smallGetPreviousHeap: walks the headers from the start of the page. */
    method PreviousHeap(d: nat) returns (p: nat)
      requires InTransit(d) && d in tiles
      ensures if Base(d) == d then p == d else p in tiles && p + tiles[p].len == d && d < PageEnd(p)
    {
      p := Base(d);
      assert TileOk(tiles, pages, d);
      PageOf(Base(d), p);
      while p < d
        invariant p <= d && p in tiles && Base(p) == Base(d) && (p == d ==> Base(d) == d)
        decreases d - p
      {
        assert hdr[p].magic == Small && hdr[p].length % ALIGN == 0 by {
          assert TileOk(tiles, pages, p);
        }
        assert TileOk(tiles, pages, p) && Apart(tiles, p, d);
        if p + hdr[p].length >= d {
          return;
        }
        NextInPage(p, hdr[p].length);
        p := p + hdr[p].length;
      }
    }

    /** __smallGetNextHeap: the block behind [d, d + n), if the page does not end there. */
    method NextHeap(d: nat, n: nat, ghost t: int) returns (r: Option<nat>)
      requires InTransit(t) && t != d + n
      requires d in tiles && tiles[d].len == n
      ensures r == if d + n < PageEnd(d) then Some(d + n) else None
      ensures r.Some? ==>
                d + n in tiles && d + n in hdr && hdr[d + n] == Header(Small, tiles[d + n].len, tiles[d + n].used)
    {
      assert TileOk(tiles, pages, d);
      if d + n >= PageEnd(d) {
        return None;
      }
      return Some(d + n);
    }

    /** __smallQueueUnusedHeap: a whole page goes back, anything else into the list its length selects. */
    method QueueUnused(d: nat, n: nat)
      requires InTransit(d) && d in tiles && tiles[d] == Tile(n, false) && PrevUsed(tiles, d) && NextUsed(tiles, d)
      modifies this
      ensures Valid() && big == old(big)
      ensures UsedSame(old(tiles), tiles) && Preserved(old(tiles), big, old(mem), mem)
      ensures if n == PAGE then pages == old(pages) - {d} && tiles == old(tiles) - {d}
              else pages == old(pages) && tiles == old(tiles)
      ensures n != PAGE ==>
                forall i: nat ::
                    i < 6 && Least(i) <= n && (i < 5 ==> n < Least(i + 1)) ==> lists == Linked(old(lists), i, d)
    {
      assert TileOk(tiles, pages, d);
      forall i: nat | i < 6 { BucketExact(n, i); }
      SpanKeeps(tiles, pages, hdr, big, mem, d, if n == PAGE then PAGE else HEADER);
      if d % PAGE == 0 && n == PAGE {
        ReturnPage(d);
        return;
      }
      Settled(tiles, d);
      BigNotTile(hdr, tiles, pages, big, d);
      ListedLink(lists, tiles, big, d, tiles, big, -1, d, Bucket(n));
      hdr, mem := hdr[d := Header(Small, n, false)], mem - Span(d, HEADER);
      lists := Linked(lists, Bucket(n), d);
      LargeHeaders(old(hdr), hdr, tiles, pages, big, d);
    }

    /** pagingReleasePhysMem(NULL, d, 1): headers and bytes of the page are gone. */
    method ReturnPage(d: nat)
      requires InTransit(d) && d in tiles && tiles[d] == Tile(PAGE, false) && d % PAGE == 0
      modifies this
      ensures Valid() && big == old(big) && tiles == old(tiles) - {d} && pages == old(pages) - {d}
      ensures mem == old(mem) - Span(d, PAGE)
    {
      PageLeaves(hdr, lists, tiles, pages, big, d);
      hdr, mem := hdr - Span(d, PAGE), mem - Span(d, PAGE);
      tiles, pages := tiles - {d}, pages - {d};
    }

    /** Step 1 of __smallInternalFree: merge with a free block in front. */
    method MergePrevious(d: nat, n: nat) returns (d': nat, n': nat)
      requires InTransit(d) && d in tiles && tiles[d] == Tile(n, false)
               && (Base(d) == d ==> d in hdr && hdr[d].reserved)
      modifies this
      ensures InTransit(d') && d' in tiles && tiles[d'] == Tile(n', false) && PrevUsed(tiles, d')
      ensures UsedSame(old(tiles), tiles) && pages == old(pages) && big == old(big) && mem == old(mem)
    {
      var p := PreviousHeap(d);
      assert TileOk(tiles, pages, d);
      if hdr[p].reserved {
        PrevUnique(tiles, pages, d);
        return d, n;
      }
      ghost var tiles' := (tiles - {d})[p := Tile(tiles[p].len + n, false)];
      CoalescedMergePrev(tiles, pages, p, d, tiles');
      BigNotTile(hdr, tiles, pages, big, p);
      BigNotTile(hdr, tiles, pages, big, d);
      ListedUnlink(lists, tiles, big, d, tiles', big, p, p);
      d', n' := p, d + n - p;
      lists := Unlinked(lists, p);
      tiles := tiles';
    }

    /** Step 2: merge with a free block behind. */
    method MergeNext(d: nat, n: nat) returns (n': nat)
      requires InTransit(d) && d in tiles && tiles[d] == Tile(n, false) && PrevUsed(tiles, d)
      modifies this
      ensures InTransit(d) && d in tiles && tiles[d] == Tile(n', false) && PrevUsed(tiles, d) && NextUsed(tiles, d)
      ensures UsedSame(old(tiles), tiles) && pages == old(pages) && big == old(big) && mem == old(mem)
    {
      assert TileOk(tiles, pages, d);
      var next := NextHeap(d, n, d);
      if next.None? || hdr[next.value].reserved {
        return n;
      }
      var x := next.value;
      ghost var tiles' := (tiles - {x})[d := Tile(n + tiles[x].len, false)];
      CoalescedMergeNext(tiles, pages, d, x, tiles');
      BigNotTile(hdr, tiles, pages, big, x);
      BigNotTile(hdr, tiles, pages, big, d);
      ListedUnlink(lists, tiles, big, d, tiles', big, d, x);
      n' := x + hdr[x].length - d;
      lists := Unlinked(lists, x);
      tiles := tiles';
    }

    /** __smallInternalFree: the block in transit is merged both ways and queued, or its page goes back. */
    method InternalFree(d: nat, n: nat)
      requires InTransit(d) && d in tiles && tiles[d] == Tile(n, false)
               && (Base(d) == d ==> d in hdr && hdr[d].reserved)
      modifies this
      ensures Valid() && big == old(big) && pages <= old(pages)
      ensures UsedSame(old(tiles), tiles) && Preserved(old(tiles), big, old(mem), mem)
    {
      var d1, n1 := MergePrevious(d, n);
      var n2 := MergeNext(d1, n1);
      ghost var mid := tiles;
      QueueUnused(d1, n2);
      PreservedSame(old(tiles), mid, big, old(mem), mem);
    }

    /** __smallFindUnusedHeapEntry: the first entry of the first list that is sure to be large enough. */
    method FindUnused(length: nat) returns (r: Option<nat>)
      requires Valid()
      modifies `lists
      ensures r.None? ==> lists == old(lists) && NoFit(lists, length)
      ensures r.Some? ==> InTransit(r.value) && r.value in tiles && !tiles[r.value].used && tiles[r.value].len >= length
      ensures r.Some? ==> BestFit(old(lists), length, r.value)
      ensures r.Some? ==> r.value in hdr && hdr[r.value] == Header(Small, tiles[r.value].len, false)
    {
      var i;
      if length <= 32 && lists[0] != [] {
        i := 0;
      } else if length <= 64 && lists[1] != [] {
        i := 1;
      } else if length <= 128 && lists[2] != [] {
        i := 2;
      } else if length <= 256 && lists[3] != [] {
        i := 3;
      } else if length <= 512 && lists[4] != [] {
        i := 4;
      } else if length <= 1024 && lists[5] != [] {
        i := 5;
      } else {
        return None;
      }
      var a := lists[i][0];
      assert ListOk(lists, tiles, big, -1, i);
      assert a in lists[i];
      assert TileOk(tiles, pages, a);
      ListedUnlink(lists, tiles, big, -1, tiles, big, a, a);
      assert BestFitAt(lists, length, a, i);
      lists := Unlinked(lists, a);
      return Some(a);
    }

    /** A fresh page becomes one block in transit. */
    ghost method PageArrives(at: nat)
      requires Valid() && at % PAGE == 0 && at > 0 && AreaFree(pages, big, at, PAGE)
      modifies `tiles, `pages
      ensures InTransit(at) && tiles == old(tiles)[at := Tile(PAGE, false)] && at !in old(tiles)
              && pages == old(pages) + {at}
    {
      assert at !in pages;
      AddPage(tiles, pages, at, Tile(PAGE, false));
      PageJoins(hdr, lists, tiles, pages, big, at);
      tiles, pages := tiles[at := Tile(PAGE, false)], pages + {at};
    }

    /** A block in transit becomes a block in use, at its full length. */
    method Claim(a: nat, n: nat)
      requires InTransit(a) && a in tiles && tiles[a] == Tile(n, false)
      modifies this
      ensures Valid() && tiles == old(tiles)[a := Tile(n, true)] && pages == old(pages) && big == old(big)
      ensures Preserved(old(tiles), big, old(mem), mem)
    {
      assert TileOk(tiles, pages, a);
      SpanKeeps(tiles, pages, hdr, big, mem, a, HEADER);
      Claimed(hdr, lists, tiles, pages, big, a);
      hdr, mem, lists := hdr[a := Header(Small, n, true)], mem - Span(a, HEADER), Linked(lists, USED, a);
      tiles := tiles[a := Tile(n, true)];
    }

    /** A block in use is cut to n bytes; the rest goes back through __smallInternalFree. */
    method Cut(a: nat, n: nat)
      requires Valid() && a in tiles && tiles[a].used && n % ALIGN == 0 && MIN_BLOCK <= n
               && n + MIN_BLOCK <= tiles[a].len
      modifies this
      ensures Valid() && big == old(big) && pages <= old(pages)
      ensures a in tiles && tiles[a] == Tile(n, true) && UsedBut(old(tiles), tiles, a)
      ensures Preserved(tiles, big, old(mem), mem)
    {
      ghost var t := tiles[a := Tile(n, true)][a + n := Tile(tiles[a].len - n, false)];
      TailCut(hdr, lists, tiles, pages, big, a, n, t);
      SpanKeeps(t, pages, hdr, big, mem, a, HEADER);
      var rest := hdr[a].length - n;
      hdr, mem := hdr[a := Header(Small, n, true)], mem - Span(a, HEADER);
      tiles := t;
      ghost var mem1 := mem;
      InternalFree(a + n, rest);
      PreservedTrans(t, t, big, old(mem), mem1, mem);
      PreservedSame(tiles, t, big, old(mem), mem);
    }

    /** A free block that is large enough, or a fresh page, is put to use as a whole. */
    method Take(need: nat, at: nat) returns (a: nat, whole: nat)
      requires Valid() && need <= 1024 && at % PAGE == 0 && at > 0 && AreaFree(pages, big, at, PAGE)
      modifies this
      ensures Valid() && big == old(big) && pages == old(pages) + if NoFit(old(lists), need) then {at} else {}
      ensures a in tiles && tiles[a] == Tile(whole, true) && whole >= need && UsedBut(old(tiles), tiles, a)
      ensures if NoFit(old(lists), need) then a == at else BestFit(old(lists), need, a)
      ensures !(a in old(tiles) && old(tiles)[a].used)
      ensures Preserved(old(tiles), big, old(mem), mem)
    {
      var found := FindUnused(need);
      if found.Some? {
        FitsOrNot(old(lists), need, found.value);
        a := found.value;
        whole := hdr[a].length;
      } else {
        a := at;
        whole := PAGE;
        PageArrives(at);
      }
      ghost var t := tiles;
      Claim(a, whole);
      PreservedSame(old(tiles), t, big, old(mem), mem);
    }

    /** The rest of a block goes back if it is large enough to be a block. */
    method Trim(a: nat, need: nat)
      requires Valid() && a in tiles && tiles[a].used && MIN_BLOCK <= need <= tiles[a].len && need % ALIGN == 0
      modifies this
      ensures Valid() && big == old(big) && pages <= old(pages)
      ensures a in tiles && tiles[a].used && need <= tiles[a].len <= old(tiles)[a].len && UsedBut(old(tiles), tiles, a)
      ensures tiles[a].len < need + MIN_BLOCK
      ensures Preserved(tiles, big, old(mem), mem)
    {
      if hdr[a].length >= need + MIN_BLOCK {
        Cut(a, need);
      }
    }

    /** __smallAlloc; `at` is the page that the paging layer would hand out. */
    method SmallAlloc(length: nat, at: nat) returns (a: nat)
      requires Valid() && 0 < length <= SMALL_LIMIT
      requires at % PAGE == 0 && at > 0 && AreaFree(pages, big, at, PAGE)
      modifies this
      ensures Valid() && big == old(big) && pages <= old(pages) + {at}
      ensures !NoFit(old(lists), AlignUp(length + HEADER)) ==>
                pages <= old(pages) && BestFit(old(lists), AlignUp(length + HEADER), a)
      ensures a in tiles && tiles[a].used && length + HEADER <= tiles[a].len < AlignUp(length + HEADER) + MIN_BLOCK
      ensures UsedBut(old(tiles), tiles, a) && !(a in old(tiles) && old(tiles)[a].used)
      ensures Preserved(old(tiles), big, old(mem), mem)
    {
      var need := AlignUp(length + HEADER);
      var whole;
      a, whole := Take(need, at);
      ghost var t, mem1 := tiles, mem;
      Trim(a, need);
      UsedButTrans(old(tiles), t, tiles, a);
      PreservedBut(old(tiles), tiles, a, big, mem1, mem);
      PreservedTrans(old(tiles), old(tiles), big, old(mem), mem1, mem);
    }

    /** __smallFree. */
    method SmallFree(a: nat)
      requires Valid() && a in tiles && tiles[a].used
      modifies this
      ensures Valid() && big == old(big) && pages <= old(pages)
      ensures !(a in tiles && tiles[a].used) && UsedBut(old(tiles), tiles, a)
      ensures Preserved(tiles, big, old(mem), mem)
    {
      assert hdr[a].magic == Small && hdr[a].reserved;
      Released(hdr, lists, tiles, pages, big, a);
      lists := Unlinked(lists, a);
      tiles := tiles[a := Tile(tiles[a].len, false)];
      ghost var t := tiles;
      InternalFree(a, hdr[a].length);
      PreservedSame(tiles, t, big, old(mem), mem);
    }

    /** The growing half of __smallReAlloc. */
    method Absorb(a: nat, x: nat)
      requires Valid() && a in tiles && tiles[a].used && x in tiles && !tiles[x].used && a + tiles[a].len == x
               && x < PageEnd(a)
      modifies this
      ensures Valid() && big == old(big) && pages == old(pages)
      ensures tiles == (old(tiles) - {x})[a := Tile(old(tiles)[a].len + old(tiles)[x].len, true)]
      ensures Preserved(old(tiles), big, old(mem), mem)
    {
      ghost var t := (tiles - {x})[a := Tile(tiles[a].len + tiles[x].len, true)];
      assert TileOk(tiles, pages, a);
      Absorbed(hdr, lists, tiles, pages, big, a, x, t);
      SpanKeeps(tiles, pages, hdr, big, mem, a, HEADER);
      hdr, mem := hdr[a := Header(Small, x + hdr[x].length - a, true)], mem - Span(a, HEADER);
      lists := Unlinked(lists, x);
      tiles := t;
    }

    /** Makes room for a growing block, if the block behind it is free and large enough. */
    method Grow(a: nat, need: nat) returns (ok: bool)
      requires Valid() && a in tiles && tiles[a].used
      modifies this
      ensures Valid() && big == old(big) && pages == old(pages) && (ok <==> HasRoom(old(tiles), a, need))
      ensures !ok ==> tiles == old(tiles) && mem == old(mem) && hdr == old(hdr) && lists == old(lists)
      ensures ok ==> a in tiles && tiles[a].used && need <= tiles[a].len && old(tiles)[a].len <= tiles[a].len
      ensures ok ==> UsedBut(old(tiles), tiles, a) && Preserved(old(tiles), big, old(mem), mem)
    {
      var whole := hdr[a].length;
      if need <= whole {
        return true;
      }
      assert TileOk(tiles, pages, a);
      var next := NextHeap(a, whole, -1);
      if next.None? || hdr[next.value].reserved || need > next.value + hdr[next.value].length - a {
        return false;
      }
      Absorb(a, next.value);
      return true;
    }

    /** __smallReAlloc: in place, or not at all. */
    method SmallReAlloc(a: nat, length: nat) returns (ok: bool)
      requires Valid() && a in tiles && tiles[a].used && length > 0
      modifies this
      ensures Valid() && big == old(big) && pages <= old(pages) && (ok <==> InPlace(old(tiles), a, length))
      ensures !ok ==> tiles == old(tiles) && mem == old(mem) && hdr == old(hdr) && pages == old(pages)
      ensures ok ==> a in tiles && tiles[a].used && UsedBut(old(tiles), tiles, a)
      ensures ok ==> length + HEADER <= tiles[a].len < AlignUp(length + HEADER) + MIN_BLOCK
      ensures ok ==> Preserved(Shorter(old(tiles), tiles, a), big, old(mem), mem)
    {
      if length > SMALL_LIMIT {
        return false;
      }
      var need := AlignUp(length + HEADER);
      ok := Grow(a, need);
      if ok {
        ghost var t, mem1 := tiles, mem;
        Trim(a, need);
        UsedButTrans(old(tiles), t, tiles, a);
        ResizeKeeps(old(tiles), tiles, a, big, old(mem), mem1, mem);
      }
    }

    // ----- large blocks -----

    /** __largeAlloc; `at` is the area that the paging layer hands out. */
    method LargeAlloc(length: nat, at: nat)
      requires Valid() && SMALL_LIMIT < length && PageUp(length + HEADER) < WORD / 2
      requires at % PAGE == 0 && at > 0 && AreaFree(pages, big, at, PageUp(length + HEADER))
      modifies this
      ensures Valid() && tiles == old(tiles) && pages == old(pages)
      ensures at !in old(tiles) && at !in old(big) && big == old(big)[at := PageUp(length + HEADER)]
      ensures Preserved(tiles, old(big), old(mem), mem)
    {
      var n := PageUp(length + HEADER);
      PlaceLarge(at, n);
    }

    method PlaceLarge(at: nat, n: nat)
      requires Valid() && at % PAGE == 0 && at > 0 && n % PAGE == 0 && n > 0 && AreaFree(pages, big, at, n)
      modifies this
      ensures Valid() && tiles == old(tiles) && pages == old(pages) && mem == old(mem) - Span(at, HEADER)
      ensures at !in old(tiles) && at !in old(big) && big == old(big)[at := n]
      ensures Preserved(tiles, old(big), old(mem), mem)
    {
      var hdr' := hdr[at := Header(Large, n, true)];
      LargeArrives(hdr, lists, tiles, pages, big, hdr', at, n);
      AreaKeeps(tiles, pages, big, mem, at, n, HEADER);
      hdr, mem, lists := hdr', mem - Span(at, HEADER), Linked(lists, LARGE, at);
      big := big[at := n];
    }

    /** __largeFree: list entry, header and pages go. */
    method LargeFree(a: nat)
      requires Valid() && a in big
      modifies this
      ensures Valid() && tiles == old(tiles) && pages == old(pages) && big == old(big) - {a}
      ensures mem == old(mem) - Span(a, old(big)[a]) && AreaFree(pages, big, a, old(big)[a])
      ensures Preserved(tiles, big, old(mem), mem)
    {
      assert BigOk(hdr, pages, big, a);
      LargeLeaves(hdr, lists, tiles, pages, big, a);
      AreaKeeps(tiles, pages, big - {a}, mem, a, big[a], big[a]);
      var n := hdr[a].length;
      hdr, mem, lists := hdr - Span(a, n), mem - Span(a, n), Unlinked(lists, a);
      big := big - {a};
    }

    /** memcpy into the payload of the block at a. */
    method PutBytes(from: map<nat, bv8>, src: nat, dst: nat, k: nat, ghost a: nat)
      requires Valid() && a in Live() && a + HEADER <= dst && dst + k <= a + Live()[a]
      modifies `mem, `hdr
      ensures Valid() && Moved(from, mem, src, dst, k) && Intact(Live() - {a}, old(mem), mem)
      ensures forall x :: x in old(mem) && x !in Span(dst, k) ==> x in mem && mem[x] == old(mem)[x]
    {
      WritesStayInside(hdr, tiles, pages, big, a, dst, k);
      CopiedMoves(mem, from, src, dst, k);
      CopiedIntact(Live(), mem, from, src, dst, k, a);
      hdr, mem := hdr - Smashed(hdr, dst, k), Copied(mem, from, src, dst, k);
    }

    /** pagingReAllocatePhysMem as the heap knows it: any memory in which the bytes of the block, and with them its
        header, came along. */
    method MovePages(a: nat, len: nat, at: nat, n: nat)
      modifies `mem, `hdr
      ensures Carried(old(mem), mem, a, len, at, n) && HeaderCarried(old(hdr), hdr, a, len, at, n)
    {
      CarriedExists(mem, a, len, at, n);
      HeaderCarriedExists(hdr, a, len, at, n);
      var mem': map<nat, bv8> :| Carried(mem, mem', a, len, at, n);
      var hdr': map<nat, Header> :| HeaderCarried(hdr, hdr', a, len, at, n);
      mem, hdr := mem', hdr';
    }

    /** The second half of __largeReAlloc: the block leaves largeHeap, its pages are resized in place or moved, and it
        enters the list again.  Its header has come along, so that the source's assertion about it holds. */
    method MoveLarge(a: nat, at: nat, n: nat, length: nat)
      requires Valid() && a in big && n % PAGE == 0 && n > 0 && length + HEADER <= n
      requires at % PAGE == 0 && at > 0 && AreaFree(pages, big - {a}, at, n)
      modifies this
      ensures Valid() && Resized(old(Live()), old(mem), Live(), mem, a, at, length)
    {
      LiveHeader(hdr, tiles, pages, big, a);
      BigBlocks(hdr, tiles, pages, big, a);
      PageIsAligned(at);
      Relink(a, at, n);
      CarriedBlocks(tiles, pages, old(big), a, at, n, old(mem), mem, length);
    }

    method Relink(a: nat, at: nat, n: nat)
      requires Valid() && a in big && n % PAGE == 0 && n > 0
      requires at % PAGE == 0 && at > 0 && AreaFree(pages, big - {a}, at, n)
      modifies `hdr, `mem, `lists, `big
      ensures Valid() && big == (old(big) - {a})[at := n] && at !in tiles && at !in old(big) - {a}
      ensures AreaFree(pages, old(big) - {a}, a, old(big)[a]) && Carried(old(mem), mem, a, old(big)[a], at, n)
    {
      assert BigOk(hdr, pages, big, a);
      ghost var hdr0 := hdr;
      LargeLeaves(hdr, lists, tiles, pages, big, a);
      var len := hdr[a].length;
      lists := Unlinked(lists, a);
      MovePages(a, len, at, n);
      assert at in hdr && hdr[at].magic == Large;
      var hdr' := hdr[at := Header(hdr[at].magic, n, true)];
      HeadersLeft(hdr0, hdr, hdr', a, len, at, n);
      LargeArrives(hdr0 - Span(a, len), lists, tiles, pages, big - {a}, hdr', at, n);
      hdr, lists, big := hdr', Linked(lists, LARGE, at), (big - {a})[at := n];
    }

    // ----- the interface -----

    ghost function Live(): map<nat, nat> reads this { Blocks(tiles, big) }

    /** heapAlloc. */
    method Alloc(length: nat, at: nat) returns (addr: nat)
      requires Valid() && Request(length) && Offer(pages, big, at, length)
      modifies this
      ensures Valid()
      ensures length == 0 ==> addr == 0 && Live() == old(Live()) && mem == old(mem)
      ensures length > 0 ==> addr > HEADER && Allocated(old(Live()), old(mem), Live(), mem, addr - HEADER, length)
    {
      if length == 0 {
        return 0;
      }
      var a := AllocBlock(length, at);
      return a + HEADER;
    }

    method AllocBlock(length: nat, at: nat) returns (a: nat)
      requires Valid() && 0 < length && Request(length) && Offer(pages, big, at, length)
      modifies this
      ensures Valid() && Allocated(old(Live()), old(mem), Live(), mem, a, length)
    {
      a := at;
      if length <= SMALL_LIMIT {
        a := AllocSmall(length, at);
      } else {
        AllocLarge(length, at);
      }
    }

    method AllocSmall(length: nat, at: nat) returns (a: nat)
      requires Valid() && 0 < length <= SMALL_LIMIT && Offer(pages, big, at, length)
      modifies this
      ensures Valid() && Allocated(old(Live()), old(mem), Live(), mem, a, length)
    {
      a := SmallAlloc(length, at);
      BigNotTile(hdr, tiles, pages, big, a);
      assert TileOk(tiles, pages, a);
      AllocatedSmall(old(tiles), tiles, big, old(mem), mem, a, length);
    }

    method AllocLarge(length: nat, at: nat)
      requires Valid() && SMALL_LIMIT < length && Request(length) && Offer(pages, big, at, length)
      modifies this
      ensures Valid() && Allocated(old(Live()), old(mem), Live(), mem, at, length)
    {
      PageIsAligned(at);
      LargeAlloc(length, at);
      AllocatedLarge(tiles, old(big), old(mem), mem, at, big[at], length);
    }

    /** heapFree. */
    method Free(addr: nat)
      requires Valid() && (addr == 0 || (addr >= HEADER && addr - HEADER in Live()))
      modifies this
      ensures Valid()
      ensures addr == 0 ==> Live() == old(Live()) && mem == old(mem)
      ensures addr > 0 ==> Live() == old(Live()) - {addr - HEADER} && Intact(Live(), old(mem), mem)
    {
      if addr == 0 {
        return;
      }
      FreeBlock(addr - HEADER);
    }

    method FreeBlock(a: nat)
      requires Valid() && a in Live()
      modifies this
      ensures Valid() && Live() == old(Live()) - {a} && Intact(Live(), old(mem), mem)
    {
      LiveHeader(hdr, tiles, pages, big, a);
      if hdr[a].magic == Small {
        BigNotTile(hdr, tiles, pages, big, a);
        SmallFree(a);
        BlocksMinus(old(tiles), tiles, big, a);
      } else {
        BigBlocks(hdr, tiles, pages, big, a);
        LargeFree(a);
      }
      PreservedIntact(tiles, big, old(mem), mem);
    }

    /** heapSize. */
    method Size(addr: nat) returns (n: nat)
      requires Valid() && (addr == 0 || (addr >= HEADER && addr - HEADER in Live()))
      ensures n == if addr == 0 then 0 else Live()[addr - HEADER] - HEADER
    {
      if addr == 0 {
        return 0;
      }
      LiveHeader(hdr, tiles, pages, big, addr - HEADER);
      return hdr[addr - HEADER].length - HEADER;
    }

    /** __smallReAlloc and __largeReAlloc: the block is resized without copying, or nothing happens. */
    method Resize(a: nat, length: nat, at: nat) returns (r: Option<nat>)
      requires Valid() && a in Live() && length > 0 && Request(length) && Offer(pages, big - {a}, at, length)
      modifies this
      ensures Valid()
      ensures r.None? ==> Live() == old(Live()) && mem == old(mem) && pages == old(pages) && big == old(big)
      ensures r.Some? ==> Resized(old(Live()), old(mem), Live(), mem, a, r.value, length)
      ensures a !in old(big) ==>
                a in old(tiles) && (r.Some? <==> InPlace(old(tiles), a, length)) && (r.Some? ==> r.value == a)
      ensures a in old(big) ==> (r.Some? <==> length > SMALL_LIMIT)
      ensures a in old(big) && r.Some? ==> r.value == if PageUp(length + HEADER) == old(big)[a] then a else at
    {
      LiveHeader(hdr, tiles, pages, big, a);
      if hdr[a].magic == Small {
        r := ResizeSmall(a, length);
      } else if length <= SMALL_LIMIT {
        r := None;
      } else {
        r := ResizeLarge(a, length, at);
      }
    }

    method ResizeSmall(a: nat, length: nat) returns (r: Option<nat>)
      requires Valid() && a in tiles && tiles[a].used && a !in big && length > 0
      modifies this
      ensures Valid() && a in old(Live()) && (r.Some? <==> InPlace(old(tiles), a, length))
      ensures r.None? ==> Live() == old(Live()) && mem == old(mem) && pages == old(pages) && big == old(big)
      ensures r.Some? ==> r.value == a && Resized(old(Live()), old(mem), Live(), mem, a, a, length)
    {
      assert TileOk(tiles, pages, a);
      var ok := SmallReAlloc(a, length);
      if !ok {
        return None;
      }
      ResizedInPlace(old(tiles), tiles, big, old(mem), mem, a, length);
      return Some(a);
    }

    method ResizeLarge(a: nat, length: nat, at: nat) returns (r: Option<nat>)
      requires Valid() && a in big && length > SMALL_LIMIT && Request(length) && Offer(pages, big - {a}, at, length)
      modifies this
      ensures Valid() && r.Some? && Resized(old(Live()), old(mem), Live(), mem, a, r.value, length)
      ensures r.value == if PageUp(length + HEADER) == old(big)[a] then a else at
    {
      var n := PageUp(length + HEADER);
      LiveHeader(hdr, tiles, pages, big, a);
      if n == hdr[a].length {
        assert BigOk(hdr, pages, big, a);
        PageIsAligned(a);
        ResizedNot(Live(), mem, a, length);
        return Some(a);
      }
      MoveLarge(a, at, n, length);
      return Some(at);
    }

    /** The large blocks that the offered area must leave alone: not the one that is being resized. */
    ghost function Others(addr: nat, length: nat): map<nat, nat>
      reads this
    {
      if addr >= HEADER && addr - HEADER in big && length > SMALL_LIMIT then big - {addr - HEADER} else big
    }

    /** heapReAlloc: the first min(old, new) bytes are where the result points, and no other payload changes.  A large
        block stays where it is if the paging layer can resize it there. */
    method ReAlloc(addr: nat, length: nat, at: nat) returns (r: nat)
      requires Valid() && Request(length) && Offer(pages, Others(addr, length), at, length)
      requires addr == 0 || (addr >= HEADER && addr - HEADER in Live())
      modifies this
      ensures Valid()
      ensures addr > 0 && length == 0 ==>
                r == 0 && Live() == old(Live()) - {addr - HEADER} && Intact(Live(), old(mem), mem)
      ensures addr == 0 && length == 0 ==> r == 0 && Live() == old(Live())
      ensures addr == 0 && length > 0 ==>
                r > HEADER && Allocated(old(Live()), old(mem), Live(), mem, r - HEADER, length)
      ensures addr > 0 && length > 0 ==>
                r > HEADER && Resized(old(Live()), old(mem), Live(), mem, addr - HEADER, r - HEADER, length)
      ensures addr > 0 && length > 0 ==>
                forall x :: x in old(mem) && addr <= x < addr + length
                            && x < addr - HEADER + old(Live())[addr - HEADER] ==>
                  r + (x - addr) in mem && mem[r + (x - addr)] == old(mem)[x]
      ensures addr > 0 && length > 0 && addr - HEADER in old(tiles) && addr - HEADER !in old(big)
              && InPlace(old(tiles), addr - HEADER, length) ==>
                r == addr
      ensures addr > 0 && addr - HEADER in old(big) && length > SMALL_LIMIT ==>
                r == if PageUp(length + HEADER) == old(big)[addr - HEADER] then addr else at + HEADER
    {
      if addr == 0 {
        r := Alloc(length, at);
        return;
      }
      if length == 0 {
        Free(addr);
        return 0;
      }
      var b := ReAllocLive(addr - HEADER, length, at);
      BytesKept(old(Live()), old(mem), Live(), mem, addr - HEADER, b, length);
      return b + HEADER;
    }

    method ReAllocLive(a: nat, length: nat, at: nat) returns (b: nat)
      requires Valid() && 0 < length && Request(length) && a in Live()
      requires Offer(pages, if a in big && length > SMALL_LIMIT then big - {a} else big, at, length)
      modifies this
      ensures Valid() && Resized(old(Live()), old(mem), Live(), mem, a, b, length)
      ensures a in old(big) && length > SMALL_LIMIT ==> b == if PageUp(length + HEADER) == old(big)[a] then a else at
      ensures a in old(tiles) && a !in old(big) && InPlace(old(tiles), a, length) ==> b == a
    {
      if !(a in big && length > SMALL_LIMIT) { OfferLess(pages, big, at, length, a); }
      var there := Resize(a, length, at);
      if there.Some? {
        return there.value;
      }
      b := CopyOver(a, length, at);
    }

    /** The last resort of heapReAlloc: a new block, a copy, and the old block freed. */
    method CopyOver(a: nat, length: nat, at: nat) returns (b: nat)
      requires Valid() && 0 < length && Request(length) && Offer(pages, big, at, length) && a in Live()
      modifies this
      ensures Valid() && Resized(old(Live()), old(mem), Live(), mem, a, b, length)
    {
      b := CopyNew(a, length, at);
      ghost var mem1, live1 := mem, Live();
      FreeBlock(a);
      CopyRest(old(Live()), live1, old(mem), mem1, mem, a, b, length);
    }

    method CopyNew(a: nat, length: nat, at: nat) returns (b: nat)
      requires Valid() && 0 < length && Request(length) && Offer(pages, big, at, length) && a in Live()
      modifies this
      ensures Valid() && Duplicated(old(Live()), old(mem), Live(), mem, a, b, length)
    {
      LiveHeader(hdr, tiles, pages, big, a);
      var k := Kept(hdr[a].length, length + HEADER);
      b := AllocBlock(length, at);
      ghost var mem1 := mem;
      PutBytes(mem, a + HEADER, b + HEADER, k, b);
      CopiedNew(old(Live()), Live(), old(mem), mem1, mem, a, b, length);
    }

    /** A client writes one byte of its own block: no header and no other payload is hit. */
    method Store(addr: nat, offset: nat, b: bv8)
      requires Valid() && addr >= HEADER && addr - HEADER in Live() && HEADER + offset < Live()[addr - HEADER]
      modifies `mem, `hdr
      ensures Valid() && addr + offset in mem && mem[addr + offset] == b
      ensures Intact(Live() - {addr - HEADER}, old(mem), mem)
      ensures forall x :: x in old(mem) && x != addr + offset ==> x in mem && mem[x] == old(mem)[x]
    {
      var one: map<nat, bv8> := map[0 := b];
      PutBytes(one, 0, addr + offset, 1, addr - HEADER);
      assert MovedAt(one, mem, 0, addr + offset, 0);
      forall x | x in old(mem) && x != addr + offset
        ensures x !in Span(addr + offset, 1)
      {
      }
    }

    /** Complete reclamation: when the last block has been freed, in whatever order, the small heap
        holds no page, no large block remains and every list is empty. */
    lemma AllReturned()
      requires Valid() && Live() == map[]
      ensures pages == {} && big == map[] && tiles == map[] && forall i :: 0 <= i < 8 ==> lists[i] == []
    {
      assert forall a :: a in big ==> a in Live();
      assert forall a :: a in tiles && tiles[a].used ==> a in Live();
      NothingUsedNothingHeld(tiles, pages);
      forall i: nat | i < 8
        ensures lists[i] == []
      {
        assert ListOk(lists, tiles, big, -1, i);
        assert forall a :: a !in lists[i];
        SomeMember(lists[i]);
      }
    }
  }
}
