/** The state of allocator.c as values: headers, free lists, large blocks, and what clients see. */
module HeapState {
  import opened Sequences
  import opened HeapTiles
  import opened KernelBytes

  const SMALL_LIMIT := 1024 - HEADER    // largest request served by the small-block heap
  const USED := 6                       // index of smallHeap among the lists
  const LARGE := 7                      // index of largeHeap

  datatype Magic = Small | Large

  datatype Header = Header(magic: Magic, length: nat, reserved: bool)

  /** The free list that a length selects: 32, 64, 128, 256, 512, 1024. */
  function Bucket(n: nat): nat {
    if n >= 1024 then 5 else if n >= 512 then 4 else if n >= 256 then 3
    else if n >= 128 then 2 else if n >= 64 then 1 else 0
  }

  /** Every block in free list i has at least this length. */
  function Least(i: nat): nat {
    if i == 0 then 32
    else if i == 1 then 64
    else if i == 2 then 128
    else if i == 3 then 256
    else if i == 4 then 512
    else 1024
  }

  /** The free lists hold lengths from 32 on, from 64 on and so on up to 1024, each doubling the one before. */
  lemma LeastDoubles(i: nat)
    ensures Least(0) == 32 && (i < 5 ==> Least(i + 1) == 2 * Least(i))
  {
  }

  /** A length selects the last list whose bound it reaches. */
  lemma BucketExact(n: nat, i: nat)
    requires n >= 32 && i < 6
    ensures Bucket(n) == i <==> Least(i) <= n && (i < 5 ==> n < Least(i + 1))
  {
  }

  /** No free list whose blocks are all large enough has a block. */
  ghost predicate NoFit(lists: seq<seq<nat>>, length: nat) {
    |lists| == 8 && forall i {:trigger Least(i)} :: 0 <= i < 6 && length <= Least(i) ==> lists[i] == []
  }

  /** Block a is the first of the first such list that has one. */
  ghost predicate BestFitAt(lists: seq<seq<nat>>, length: nat, a: nat, i: nat) {
    && |lists| == 8 && i < 6 && length <= Least(i) && lists[i] != [] && lists[i][0] == a
    && forall j {:trigger Least(j)} :: 0 <= j < i && length <= Least(j) ==> lists[j] == []
  }

  ghost predicate BestFit(lists: seq<seq<nat>>, length: nat, a: nat) {
    exists i {:trigger BestFitAt(lists, length, a, i)} :: BestFitAt(lists, length, a, i)
  }

  lemma FitsOrNot(lists: seq<seq<nat>>, length: nat, a: nat)
    requires BestFit(lists, length, a)
    ensures !NoFit(lists, length)
  {
    var i :| BestFitAt(lists, length, a, i);
    assert length <= Least(i);
  }

  /** Next page boundary. */
  function PageUp(n: nat): (r: nat)
    ensures n <= r < n + PAGE && r % PAGE == 0
  {
    (n + (PAGE - 1)) / PAGE * PAGE
  }

  /** Next alignment boundary. */
  function AlignUp(n: nat): (r: nat)
    ensures n <= r < n + ALIGN && r % ALIGN == 0
  {
    (n + (ALIGN - 1)) / ALIGN * ALIGN
  }

  predicate Within(a: nat, n: nat, x: int) { a <= x < a + n }

  function Span(a: nat, n: nat): set<nat> { set x {:trigger Within(a, n, x)} | a <= x < a + n && Within(a, n, x) }

  // ----- intrusive lists as sequences -----

  /** ll_remove: the element leaves whatever list it is in. */
  function Unlinked(lists: seq<seq<nat>>, a: nat): seq<seq<nat>> {
    seq(|lists|, i requires 0 <= i < |lists| => Without(lists[i], a))
  }

  /** ll_add_after the list head. */
  function Linked(lists: seq<seq<nat>>, i: nat, a: nat): seq<seq<nat>>
    requires i < |lists|
  {
    lists[i := [a] + lists[i]]
  }

  // ----- the invariant -----

  /** The list a block belongs to, or -1; the block in transit `d` is in none. */
  function Home(tiles: map<nat, Tile>, big: map<nat, nat>, d: int, a: nat): int {
    if a in big then LARGE
    else if a in tiles && a != d then (if tiles[a].used then USED else Bucket(tiles[a].len))
    else -1
  }

  ghost predicate ListOk(lists: seq<seq<nat>>, tiles: map<nat, Tile>, big: map<nat, nat>, d: int, i: nat)
    requires i < |lists|
  {
    NoDup(lists[i]) && forall a: nat :: a in lists[i] <==> Home(tiles, big, d, a) == i
  }

  ghost predicate Listed(lists: seq<seq<nat>>, tiles: map<nat, Tile>, big: map<nat, nat>, d: int) {
    && |lists| == 8
    && forall i: nat {:trigger ListOk(lists, tiles, big, d, i)} :: i < 8 ==> ListOk(lists, tiles, big, d, i)
  }

  ghost predicate Agree(hdr: map<nat, Header>, tiles: map<nat, Tile>, d: int) {
    forall a {:trigger tiles[a]} ::
        a in tiles && a != d ==> a in hdr && hdr[a] == Header(Small, tiles[a].len, tiles[a].used)
  }

  /** [at, at + n) touches no page of the small heap and no large block. */
  ghost predicate AreaFree(pages: set<nat>, big: map<nat, nat>, at: nat, n: nat) {
    && (forall b {:trigger b in pages} :: b in pages ==> b + PAGE <= at || at + n <= b)
    && (forall a {:trigger a in big} :: a in big ==> a + big[a] <= at || at + n <= a)
  }

  ghost predicate BigOk(hdr: map<nat, Header>, pages: set<nat>, big: map<nat, nat>, a: nat)
    requires a in big
  {
    && a % PAGE == 0 && big[a] % PAGE == 0 && big[a] > 0 && a > 0
    && a in hdr && hdr[a] == Header(Large, big[a], true)
    && (forall b {:trigger b in pages} :: b in pages ==> b + PAGE <= a || a + big[a] <= b)
  }

  predicate BigApart(big: map<nat, nat>, a: nat, b: nat)
    requires a in big && b in big
  {
    a < b ==> a + big[a] <= b
  }

  /** Large blocks are whole pages, apart from each other and from the small heap. */
  ghost predicate LargeOk(hdr: map<nat, Header>, pages: set<nat>, big: map<nat, nat>) {
    && (forall a {:trigger BigOk(hdr, pages, big, a)} :: a in big ==> BigOk(hdr, pages, big, a))
    && (forall a, b {:trigger BigApart(big, a, b)} :: a in big && b in big ==> BigApart(big, a, b))
    && 0 !in pages
  }

  lemma UnlinkedMembers(lists: seq<seq<nat>>, a: nat, i: nat)
    requires i < |lists|
    ensures forall x :: x in Unlinked(lists, a)[i] <==> x in lists[i] && x != a
    ensures NoDup(lists[i]) ==> NoDup(Unlinked(lists, a)[i])
  {
    WithoutMembers(lists[i], a);
  }

  /** Taking `a` out of its list, when nobody else's home changes. */
  lemma ListedUnlink(lists: seq<seq<nat>>, tiles: map<nat, Tile>, big: map<nat, nat>, d: int,
                     tiles': map<nat, Tile>, big': map<nat, nat>, d': int, a: nat)
    requires Listed(lists, tiles, big, d) && Home(tiles', big', d', a) == -1
    requires forall x: nat :: x != a ==> Home(tiles', big', d', x) == Home(tiles, big, d, x)
    ensures Listed(Unlinked(lists, a), tiles', big', d')
  {
    var lists' := Unlinked(lists, a);
    forall i: nat | i < 8
      ensures ListOk(lists', tiles', big', d', i)
    {
      assert ListOk(lists, tiles, big, d, i);
      UnlinkedMembers(lists, a, i);
    }
  }

  lemma ListedLink(lists: seq<seq<nat>>, tiles: map<nat, Tile>, big: map<nat, nat>, d: int,
                   tiles': map<nat, Tile>, big': map<nat, nat>, d': int, a: nat, n: nat)
    requires Listed(lists, tiles, big, d) && n < 8
    requires Home(tiles, big, d, a) == -1 && Home(tiles', big', d', a) == n
    requires forall x: nat :: x != a ==> Home(tiles', big', d', x) == Home(tiles, big, d, x)
    ensures Listed(Linked(lists, n, a), tiles', big', d')
  {
    var lists' := Linked(lists, n, a);
    forall i: nat | i < 8
      ensures ListOk(lists', tiles', big', d', i)
    {
      assert ListOk(lists, tiles, big, d, i);
    }
  }

  lemma ListedSame(lists: seq<seq<nat>>, tiles: map<nat, Tile>, big: map<nat, nat>, d: int, tiles': map<nat, Tile>,
                   d': int)
    requires Listed(lists, tiles, big, d)
    requires forall x: nat :: Home(tiles', big, d', x) == Home(tiles, big, d, x)
    ensures Listed(lists, tiles', big, d')
  {
    forall i: nat | i < 8
      ensures ListOk(lists, tiles', big, d', i)
    {
      assert ListOk(lists, tiles, big, d, i);
    }
  }

  // ----- coalescing -----

  ghost predicate PrevUsed(tiles: map<nat, Tile>, d: nat) {
    forall a {:trigger tiles[a]} :: a in tiles && a + tiles[a].len == d && Base(a) == Base(d) ==> tiles[a].used
  }

  ghost predicate NextUsed(tiles: map<nat, Tile>, d: nat)
    requires d in tiles
  {
    d + tiles[d].len in tiles && d + tiles[d].len < PageEnd(d) ==> tiles[d + tiles[d].len].used
  }

  lemma Settled(tiles: map<nat, Tile>, d: nat)
    requires Coalesced(tiles, d) && d in tiles && PrevUsed(tiles, d) && NextUsed(tiles, d) && tiles[d].len < PAGE
    ensures Coalesced(tiles, -1)
  {
    forall a | a in tiles
      ensures Barred(tiles, a)
    {
      if a != d && a + tiles[a].len == d && d < PageEnd(a) {
        NextInPage(a, tiles[a].len);
      } else if a != d {
        assert Barred(tiles, a);
      }
    }
  }

  /** Merging the block in transit with a free block before it. */
  lemma CoalescedMergePrev(tiles: map<nat, Tile>, pages: set<nat>, p: nat, d: nat, tiles': map<nat, Tile>)
    requires Tiling(tiles, pages) && Coalesced(tiles, d) && p in tiles && d in tiles && p + tiles[p].len == d
             && d < PageEnd(p)
    requires !tiles[p].used && tiles' == (tiles - {d})[p := Tile(tiles[p].len + tiles[d].len, false)]
    ensures Tiling(tiles', pages) && Coalesced(tiles', p) && PrevUsed(tiles', p)
  {
    Merge(tiles, pages, p, d, false, tiles');
    assert TileOk(tiles, pages, p);
    forall a | a in tiles' && a != p
      ensures !(a + tiles[a].len == p < PageEnd(a)) ==> Barred(tiles', a)
      ensures a + tiles[a].len == p && Base(a) == Base(p) ==> tiles[a].used
    {
      assert TileOk(tiles, pages, a);
      assert Apart(tiles, a, p) && Apart(tiles, p, a);
      assert a + tiles[a].len != d;
      assert Barred(tiles, a);
      assert a + tiles[a].len == p && Base(a) == Base(p) ==> p < PageEnd(a);
    }
  }

  /** Merging the block in transit with a free block after it. */
  lemma CoalescedMergeNext(tiles: map<nat, Tile>, pages: set<nat>, d: nat, n: nat, tiles': map<nat, Tile>)
    requires Tiling(tiles, pages) && Coalesced(tiles, d) && d in tiles && n in tiles && d + tiles[d].len == n
             && n < PageEnd(d)
    requires !tiles[n].used && tiles' == (tiles - {n})[d := Tile(tiles[d].len + tiles[n].len, false)]
    requires PrevUsed(tiles, d)
    ensures Tiling(tiles', pages) && Coalesced(tiles', d) && PrevUsed(tiles', d) && NextUsed(tiles', d)
  {
    Merge(tiles, pages, d, n, false, tiles');
    NextInPage(d, tiles[d].len);
    assert Apart(tiles, d, n);
    forall a | a in tiles' && a != d
      ensures !(a + tiles[a].len == d < PageEnd(a)) ==> Barred(tiles', a)
    {
      assert Apart(tiles, a, d) && Apart(tiles, d, a);
      assert a + tiles[a].len != n;
      if !(a + tiles[a].len == d < PageEnd(a)) { assert Barred(tiles, a); }
    }
    assert n + tiles[n].len != d;
    assert Barred(tiles, n);
  }

  // ----- what clients see -----

  ghost predicate UsedSame(t: map<nat, Tile>, u: map<nat, Tile>) {
    forall a :: (a in t && t[a].used) || (a in u && u[a].used) ==> a in t && a in u && t[a] == u[a]
  }

  ghost predicate Untouched(m: map<nat, bv8>, m': map<nat, bv8>, lo: nat, hi: nat) {
    forall x {:trigger m'[x]} {:trigger x in m} :: lo <= x < hi && x in m ==> x in m' && m'[x] == m[x]
  }

  /** The payloads of all blocks in use keep their bytes. */
  ghost predicate Preserved(tiles: map<nat, Tile>, big: map<nat, nat>, m: map<nat, bv8>, m': map<nat, bv8>) {
    && (forall a {:trigger tiles[a]} :: a in tiles && tiles[a].used ==> Untouched(m, m', a + HEADER, a + tiles[a].len))
    && (forall a {:trigger big[a]} :: a in big ==> Untouched(m, m', a + HEADER, a + big[a]))
  }

  /** Blocks in use stay as they are; `a` alone may change. */
  ghost predicate UsedBut(t: map<nat, Tile>, u: map<nat, Tile>, a: nat) {
    forall x :: x != a && ((x in t && t[x].used) || (x in u && u[x].used)) ==> x in t && x in u && t[x] == u[x]
  }

  lemma PreservedTrans(t: map<nat, Tile>, u: map<nat, Tile>, big: map<nat, nat>,
                       m: map<nat, bv8>, m': map<nat, bv8>, m'': map<nat, bv8>)
    requires Preserved(t, big, m, m') && Preserved(u, big, m', m'')
    requires forall a :: a in t && t[a].used ==> a in u && u[a] == t[a]
    ensures Preserved(t, big, m, m'')
  {
    forall a | a in t && t[a].used
      ensures Untouched(m, m'', a + HEADER, a + t[a].len)
    {
      assert u[a] == t[a];
      assert Untouched(m, m', a + HEADER, a + t[a].len) && Untouched(m', m'', a + HEADER, a + t[a].len);
    }
    forall a | a in big
      ensures Untouched(m, m'', a + HEADER, a + big[a])
    {
      assert Untouched(m, m', a + HEADER, a + big[a]) && Untouched(m', m'', a + HEADER, a + big[a]);
    }
  }

  /** Bytes inside a block that is not in use, or inside the header of a block, belong to no payload. */
  lemma SpanKeeps(tiles: map<nat, Tile>, pages: set<nat>, hdr: map<nat, Header>, big: map<nat, nat>,
                  m: map<nat, bv8>, d: nat, n: nat)
    requires Tiling(tiles, pages) && LargeOk(hdr, pages, big) && d in tiles && n <= tiles[d].len
    requires !tiles[d].used || n <= HEADER
    ensures Preserved(tiles, big, m, m - Span(d, n))
  {
    forall a | a in tiles && tiles[a].used
      ensures Untouched(m, m - Span(d, n), a + HEADER, a + tiles[a].len)
    {
      assert Apart(tiles, a, d) && Apart(tiles, d, a);
    }
    assert TileOk(tiles, pages, d);
    forall a | a in big
      ensures Untouched(m, m - Span(d, n), a + HEADER, a + big[a])
    {
      assert BigOk(hdr, pages, big, a);
    }
  }

  lemma BigNotTile(hdr: map<nat, Header>, tiles: map<nat, Tile>, pages: set<nat>, big: map<nat, nat>, a: nat)
    requires Tiling(tiles, pages) && LargeOk(hdr, pages, big) && a in tiles
    ensures a !in big
  {
    assert TileOk(tiles, pages, a);
    forall b | b in big
      ensures b != a
    {
      assert BigOk(hdr, pages, big, b);
    }
  }

  /** Headers written inside a small block leave the large blocks' headers alone. */
  lemma LargeHeaders(hdr: map<nat, Header>, hdr': map<nat, Header>, tiles: map<nat, Tile>, pages: set<nat>,
                     big: map<nat, nat>, d: nat)
    requires Tiling(tiles, pages) && LargeOk(hdr, pages, big) && d in tiles && d in hdr' && hdr' == hdr[d := hdr'[d]]
    ensures LargeOk(hdr', pages, big)
  {
    BigNotTile(hdr, tiles, pages, big, d);
    forall a | a in big
      ensures BigOk(hdr', pages, big, a)
    {
      assert BigOk(hdr, pages, big, a);
    }
  }

  /** A page that is one free block leaves. */
  lemma PageLeaves(hdr: map<nat, Header>, lists: seq<seq<nat>>, tiles: map<nat, Tile>, pages: set<nat>,
                   big: map<nat, nat>, d: nat)
    requires Tiling(tiles, pages) && Coalesced(tiles, d) && Agree(hdr, tiles, d) && Listed(lists, tiles, big, d)
             && LargeOk(hdr, pages, big)
    requires d in tiles && tiles[d].len == PAGE && d % PAGE == 0
    ensures Tiling(tiles - {d}, pages - {d}) && Coalesced(tiles - {d}, -1) && Listed(lists, tiles - {d}, big, -1)
    ensures Agree(hdr - Span(d, PAGE), tiles - {d}, -1) && LargeOk(hdr - Span(d, PAGE), pages - {d}, big)
  {
    var tiles' := tiles - {d};
    DropPage(tiles, pages, d);
    BigNotTile(hdr, tiles, pages, big, d);
    ListedSame(lists, tiles, big, d, tiles', -1);
    assert TileOk(tiles, pages, d);
    forall a | a in tiles'
      ensures Barred(tiles', a) && a !in Span(d, PAGE)
    {
      assert TileOk(tiles, pages, a) && Apart(tiles, d, a);
      assert Barred(tiles, a);
    }
    forall a | a in big
      ensures a !in Span(d, PAGE) && BigOk(hdr - Span(d, PAGE), pages - {d}, big, a)
    {
      assert BigOk(hdr, pages, big, a);
    }
  }

  lemma PreservedSame(t: map<nat, Tile>, u: map<nat, Tile>, big: map<nat, nat>, m: map<nat, bv8>, m': map<nat, bv8>)
    requires UsedSame(t, u) && Preserved(u, big, m, m')
    ensures Preserved(t, big, m, m')
  {
    forall a | a in t && t[a].used
      ensures Untouched(m, m', a + HEADER, a + t[a].len)
    {
      assert u[a] == t[a];
    }
  }

  /** At most one block ends where a block begins; at the start of a page none of that page does. */
  lemma PrevUnique(tiles: map<nat, Tile>, pages: set<nat>, d: nat)
    requires Tiling(tiles, pages) && d in tiles
    requires Base(d) == d || exists p :: p in tiles && p + tiles[p].len == d && tiles[p].used
    ensures PrevUsed(tiles, d)
  {
    forall a | a in tiles && a + tiles[a].len == d && Base(a) == Base(d)
      ensures tiles[a].used
    {
      assert TileOk(tiles, pages, a);
      if Base(d) != d {
        var p :| p in tiles && p + tiles[p].len == d && tiles[p].used;
        assert TileOk(tiles, pages, p) && Apart(tiles, a, p) && Apart(tiles, p, a);
      }
    }
  }

  /** A block in transit is put to use as a whole. */
  lemma Claimed(hdr: map<nat, Header>, lists: seq<seq<nat>>, tiles: map<nat, Tile>, pages: set<nat>,
                big: map<nat, nat>, a: nat)
    requires Tiling(tiles, pages) && Coalesced(tiles, a) && Agree(hdr, tiles, a) && Listed(lists, tiles, big, a)
             && LargeOk(hdr, pages, big)
    requires a in tiles
    ensures var n, t := tiles[a].len, tiles[a := Tile(tiles[a].len, true)];
            && Tiling(t, pages) && Coalesced(t, -1) && Agree(hdr[a := Header(Small, n, true)], t, -1)
            && Listed(Linked(lists, USED, a), t, big, -1) && LargeOk(hdr[a := Header(Small, n, true)], pages, big)
  {
    var t := tiles[a := Tile(tiles[a].len, true)];
    Retag(tiles, pages, a, true);
    BigNotTile(hdr, tiles, pages, big, a);
    ListedLink(lists, tiles, big, a, t, big, -1, a, USED);
    LargeHeaders(hdr, hdr[a := Header(Small, tiles[a].len, true)], tiles, pages, big, a);
    forall x | x in t
      ensures Barred(t, x)
    {
      assert TileOk(tiles, pages, x);
      if x != a && !(x + tiles[x].len == a < PageEnd(x)) { assert Barred(tiles, x); }
    }
  }

  /** A block in use gives its tail away; the tail is in transit. */
  lemma TailCut(hdr: map<nat, Header>, lists: seq<seq<nat>>, tiles: map<nat, Tile>, pages: set<nat>, big: map<nat, nat>,
                a: nat, n: nat, t: map<nat, Tile>)
    requires Tiling(tiles, pages) && Coalesced(tiles, -1) && Agree(hdr, tiles, -1) && Listed(lists, tiles, big, -1)
             && LargeOk(hdr, pages, big)
    requires a in tiles && tiles[a].used && n % ALIGN == 0 && MIN_BLOCK <= n && n + MIN_BLOCK <= tiles[a].len
    requires t == tiles[a := Tile(n, true)][a + n := Tile(tiles[a].len - n, false)]
    ensures Tiling(t, pages) && Coalesced(t, a + n) && Agree(hdr[a := Header(Small, n, true)], t, a + n)
    ensures Listed(lists, t, big, a + n) && LargeOk(hdr[a := Header(Small, n, true)], pages, big)
    ensures a + n !in tiles && Base(a + n) != a + n
  {
    Split(tiles, pages, a, n, true, t);
    BigNotTile(hdr, tiles, pages, big, a);
    BigNotTile(hdr, t, pages, big, a + n);
    ListedSame(lists, tiles, big, -1, t, a + n);
    LargeHeaders(hdr, hdr[a := Header(Small, n, true)], tiles, pages, big, a);
    forall x | x in t && x != a + n && !(x + t[x].len == a + n < PageEnd(x))
      ensures Barred(t, x)
    {
      assert Barred(tiles, x);
      if x != a { assert Apart(tiles, x, a) && Apart(tiles, a, x); }
    }
  }

  lemma PageJoins(hdr: map<nat, Header>, lists: seq<seq<nat>>, tiles: map<nat, Tile>, pages: set<nat>,
                  big: map<nat, nat>, at: nat)
    requires Tiling(tiles, pages) && Coalesced(tiles, -1) && Listed(lists, tiles, big, -1) && LargeOk(hdr, pages, big)
    requires at % PAGE == 0 && at > 0 && AreaFree(pages, big, at, PAGE) && at !in tiles
    ensures Coalesced(tiles[at := Tile(PAGE, false)], at) && Listed(lists, tiles[at := Tile(PAGE, false)], big, at)
    ensures LargeOk(hdr, pages + {at}, big)
  {
    var t := tiles[at := Tile(PAGE, false)];
    AreaNotBig(hdr, pages, big, at, PAGE);
    ListedSame(lists, tiles, big, -1, t, at);
    forall x | x in t && x != at && !(x + t[x].len == at < PageEnd(x))
      ensures Barred(t, x)
    {
      assert Barred(tiles, x);
    }
    forall a | a in big
      ensures BigOk(hdr, pages + {at}, big, a)
    {
      assert BigOk(hdr, pages, big, a);
    }
  }

  /** A block in use swallows the free block behind it. */
  lemma Absorbed(hdr: map<nat, Header>, lists: seq<seq<nat>>, tiles: map<nat, Tile>, pages: set<nat>,
                 big: map<nat, nat>,
                 a: nat, x: nat, t: map<nat, Tile>)
    requires Tiling(tiles, pages) && Coalesced(tiles, -1) && Agree(hdr, tiles, -1) && Listed(lists, tiles, big, -1)
             && LargeOk(hdr, pages, big)
    requires a in tiles && tiles[a].used && x in tiles && !tiles[x].used && a + tiles[a].len == x && x < PageEnd(a)
    requires t == (tiles - {x})[a := Tile(tiles[a].len + tiles[x].len, true)]
    ensures Tiling(t, pages) && Coalesced(t, -1) && Agree(hdr[a := Header(Small, t[a].len, true)], t, -1)
    ensures Listed(Unlinked(lists, x), t, big, -1) && LargeOk(hdr[a := Header(Small, t[a].len, true)], pages, big)
  {
    Merge(tiles, pages, a, x, true, t);
    BigNotTile(hdr, tiles, pages, big, a);
    BigNotTile(hdr, tiles, pages, big, x);
    ListedUnlink(lists, tiles, big, -1, t, big, -1, x);
    LargeHeaders(hdr, hdr[a := Header(Small, t[a].len, true)], tiles, pages, big, a);
    forall y | y in t
      ensures Barred(t, y)
    {
      assert Barred(tiles, y);
      if y != a { assert Apart(tiles, y, a) && Apart(tiles, a, y) && TileOk(tiles, pages, a)
          && TileOk(tiles, pages, y); }
    }
  }

  // ----- large blocks -----

  lemma LargeArrives(hdr: map<nat, Header>, lists: seq<seq<nat>>, tiles: map<nat, Tile>, pages: set<nat>,
                     big: map<nat, nat>,
                     hdr': map<nat, Header>, at: nat, n: nat)
    requires Tiling(tiles, pages) && Agree(hdr, tiles, -1) && Listed(lists, tiles, big, -1) && LargeOk(hdr, pages, big)
    requires at % PAGE == 0 && at > 0 && n % PAGE == 0 && n > 0 && AreaFree(pages, big, at, n)
    requires at in hdr' && hdr'[at] == Header(Large, n, true)
    requires forall h :: h in hdr && !(at <= h < at + n) ==> h in hdr' && hdr'[h] == hdr[h]
    ensures Agree(hdr', tiles, -1) && Listed(Linked(lists, LARGE, at), tiles, big[at := n], -1)
            && LargeOk(hdr', pages, big[at := n])
    ensures at !in tiles && at !in big
  {
    forall a | a in tiles
      ensures !(at <= a < at + n)
    {
      assert TileOk(tiles, pages, a);
      assert Base(a) + PAGE <= at || at + n <= Base(a);
    }
    AreaNotBig(hdr, pages, big, at, n);
    var big' := big[at := n];
    ListedLink(lists, tiles, big, -1, tiles, big', -1, at, LARGE);
    forall a | a in big'
      ensures BigOk(hdr', pages, big', a)
    {
      if a != at { assert BigOk(hdr, pages, big, a); }
    }
    forall x, y | x in big' && y in big'
      ensures BigApart(big', x, y)
    {
      if x != at && y != at { assert BigApart(big, x, y); }
    }
  }

  lemma LargeLeaves(hdr: map<nat, Header>, lists: seq<seq<nat>>, tiles: map<nat, Tile>, pages: set<nat>,
                    big: map<nat, nat>, a: nat)
    requires Tiling(tiles, pages) && Agree(hdr, tiles, -1) && Listed(lists, tiles, big, -1) && LargeOk(hdr, pages, big)
             && a in big
    ensures var h := hdr - Span(a, big[a]);
            Agree(h, tiles, -1) && Listed(Unlinked(lists, a), tiles, big - {a}, -1) && LargeOk(h, pages, big - {a})
    ensures AreaFree(pages, big - {a}, a, big[a])
  {
    var h, big' := hdr - Span(a, big[a]), big - {a};
    assert BigOk(hdr, pages, big, a);
    forall x | x in tiles
      ensures x !in Span(a, big[a]) && x != a
    {
      assert TileOk(tiles, pages, x);
    }
    ListedUnlink(lists, tiles, big, -1, tiles, big', -1, a);
    forall x | x in big'
      ensures x !in Span(a, big[a]) && BigOk(h, pages, big', x)
      ensures x + big[x] <= a || a + big[a] <= x
    {
      assert BigOk(hdr, pages, big, x) && BigApart(big, a, x) && BigApart(big, x, a);
    }
    forall x, y | x in big' && y in big'
      ensures BigApart(big', x, y)
    {
      assert BigApart(big, x, y);
    }
  }

  /** Bytes of an area that touches nothing held, or of one large block, are no other block's payload. */
  lemma AreaKeeps(tiles: map<nat, Tile>, pages: set<nat>, big: map<nat, nat>, m: map<nat, bv8>, at: nat, n: nat, k: nat)
    requires Tiling(tiles, pages) && AreaFree(pages, big, at, n) && k <= n
    ensures Preserved(tiles, big, m, m - Span(at, k))
  {
    forall a | a in tiles && tiles[a].used
      ensures Untouched(m, m - Span(at, k), a + HEADER, a + tiles[a].len)
    {
      assert TileOk(tiles, pages, a);
      assert Base(a) + PAGE <= at || at + n <= Base(a);
    }
  }

  lemma PreservedBut(t: map<nat, Tile>, u: map<nat, Tile>, a: nat, big: map<nat, nat>, m: map<nat, bv8>,
                     m': map<nat, bv8>)
    requires UsedBut(t, u, a) && !(a in t && t[a].used) && Preserved(u, big, m, m')
    ensures Preserved(t, big, m, m')
  {
    forall x | x in t && t[x].used
      ensures Untouched(m, m', x + HEADER, x + t[x].len)
    {
      assert u[x] == t[x];
    }
  }

  /** A block in use is put in transit. */
  lemma Released(hdr: map<nat, Header>, lists: seq<seq<nat>>, tiles: map<nat, Tile>, pages: set<nat>,
                 big: map<nat, nat>, a: nat)
    requires Tiling(tiles, pages) && Coalesced(tiles, -1) && Agree(hdr, tiles, -1) && Listed(lists, tiles, big, -1)
             && LargeOk(hdr, pages, big)
    requires a in tiles && tiles[a].used
    ensures var t := tiles[a := Tile(tiles[a].len, false)];
            Tiling(t, pages) && Coalesced(t, a) && Agree(hdr, t, a) && Listed(Unlinked(lists, a), t, big, a)
  {
    var t := tiles[a := Tile(tiles[a].len, false)];
    Retag(tiles, pages, a, false);
    BigNotTile(hdr, tiles, pages, big, a);
    ListedUnlink(lists, tiles, big, -1, t, big, a, a);
    forall x | x in t && x != a && !(x + t[x].len == a < PageEnd(x))
      ensures Barred(t, x)
    {
      assert Barred(tiles, x);
    }
  }

  /** The blocks before a reallocation of `a`, with `a` cut to what it keeps. */
  ghost function Shorter(t: map<nat, Tile>, u: map<nat, Tile>, a: nat): map<nat, Tile>
    requires a in t && a in u
  {
    if u[a].len < t[a].len then t[a := u[a]] else t
  }

  lemma UsedButTrans(t: map<nat, Tile>, u: map<nat, Tile>, w: map<nat, Tile>, a: nat)
    requires UsedBut(t, u, a) && UsedBut(u, w, a)
    ensures UsedBut(t, w, a)
  {}

  /** The block, with the free block behind it if there is one, has this length. */
  ghost predicate HasRoom(tiles: map<nat, Tile>, a: nat, need: nat)
    requires a in tiles
  {
    var x := a + tiles[a].len;
    need <= tiles[a].len || (x < PageEnd(a) && x in tiles && !tiles[x].used && need <= tiles[a].len + tiles[x].len)
  }

  /** A small block can be resized where it is. */
  ghost predicate InPlace(tiles: map<nat, Tile>, a: nat, length: nat)
    requires a in tiles
  {
    length <= SMALL_LIMIT && HasRoom(tiles, a, AlignUp(length + HEADER))
  }

  /** Bytes kept while the block grew and kept while it was trimmed are kept. */
  lemma ResizeKeeps(t: map<nat, Tile>, w: map<nat, Tile>, a: nat, big: map<nat, nat>,
                    m: map<nat, bv8>, m': map<nat, bv8>, m'': map<nat, bv8>)
    requires a in t && a in w && t[a].used && w[a].used && UsedBut(t, w, a)
    requires Preserved(t, big, m, m') && Preserved(w, big, m', m'')
    ensures Preserved(Shorter(t, w, a), big, m, m'')
  {
    var s := Shorter(t, w, a);
    forall x | x in s && s[x].used
      ensures Untouched(m, m'', x + HEADER, x + s[x].len)
    {
      ResizeKeepsTile(t, w, a, big, m, m', m'', x);
    }
    ResizeKeepsBig(t, w, big, m, m', m'');
  }

  lemma ResizeKeepsTile(t: map<nat, Tile>, w: map<nat, Tile>, a: nat, big: map<nat, nat>,
                        m: map<nat, bv8>, m': map<nat, bv8>, m'': map<nat, bv8>, x: nat)
    requires a in t && a in w && t[a].used && w[a].used && UsedBut(t, w, a) && x in Shorter(t, w, a)
             && Shorter(t, w, a)[x].used
    requires Preserved(t, big, m, m') && Preserved(w, big, m', m'')
    ensures Untouched(m, m'', x + HEADER, x + Shorter(t, w, a)[x].len)
  {
    ShorterAt(t, w, a, x);
    UntouchedTrans(m, m', m'', x + HEADER, x + t[x].len, x + w[x].len, x + Shorter(t, w, a)[x].len);
  }

  lemma ResizeKeepsBig(t: map<nat, Tile>, w: map<nat, Tile>, big: map<nat, nat>, m: map<nat, bv8>, m': map<nat, bv8>,
                       m'': map<nat, bv8>)
    requires Preserved(t, big, m, m') && Preserved(w, big, m', m'')
    ensures forall x {:trigger big[x]} :: x in big ==> Untouched(m, m'', x + HEADER, x + big[x])
  {
    forall x | x in big
      ensures Untouched(m, m'', x + HEADER, x + big[x])
    {
      UntouchedTrans(m, m', m'', x + HEADER, x + big[x], x + big[x], x + big[x]);
    }
  }

  lemma ShorterAt(t: map<nat, Tile>, w: map<nat, Tile>, a: nat, x: nat)
    requires a in t && a in w && t[a].used && w[a].used && UsedBut(t, w, a) && x in Shorter(t, w, a)
             && Shorter(t, w, a)[x].used
    ensures x in t && x in w && t[x].used && w[x].used
    ensures Shorter(t, w, a)[x].len <= t[x].len && Shorter(t, w, a)[x].len <= w[x].len
  {}

  lemma UntouchedTrans(m: map<nat, bv8>, m': map<nat, bv8>, m'': map<nat, bv8>, lo: nat, h1: nat, h2: nat, hi: nat)
    requires Untouched(m, m', lo, h1) && Untouched(m', m'', lo, h2) && hi <= h1 && hi <= h2
    ensures Untouched(m, m'', lo, hi)
  {}

  lemma AreaNotBig(hdr: map<nat, Header>, pages: set<nat>, big: map<nat, nat>, at: nat, n: nat)
    requires LargeOk(hdr, pages, big) && AreaFree(pages, big, at, n) && n > 0
    ensures at !in big
  {
    forall a | a in big
      ensures a != at
    {
      assert BigOk(hdr, pages, big, a);
    }
  }

  // ----- blocks as clients know them -----

  /** Start and total length of every block that a client holds. */
  ghost function Blocks(tiles: map<nat, Tile>, big: map<nat, nat>): map<nat, nat> {
    (map a | a in tiles && tiles[a].used :: tiles[a].len) + big
  }

  /** All payloads named in `blocks` keep their bytes. */
  ghost predicate Intact(blocks: map<nat, nat>, m: map<nat, bv8>, m': map<nat, bv8>) {
    forall a {:trigger blocks[a]} :: a in blocks ==> Untouched(m, m', a + HEADER, a + blocks[a])
  }

  lemma PreservedIntact(tiles: map<nat, Tile>, big: map<nat, nat>, m: map<nat, bv8>, m': map<nat, bv8>)
    requires Preserved(tiles, big, m, m')
    ensures Intact(Blocks(tiles, big), m, m')
  {
    forall a | a in Blocks(tiles, big)
      ensures Untouched(m, m', a + HEADER, a + Blocks(tiles, big)[a])
    {
      if a !in big { assert tiles[a].used; }
    }
  }

  /** Payloads of different blocks never overlap. */
  lemma PayloadsDisjoint(hdr: map<nat, Header>, tiles: map<nat, Tile>, pages: set<nat>, big: map<nat, nat>, a: nat,
                         b: nat)
    requires Tiling(tiles, pages) && LargeOk(hdr, pages, big)
    requires a in Blocks(tiles, big) && b in Blocks(tiles, big) && a < b
    ensures a + Blocks(tiles, big)[a] <= b
  {
    if a in big {
      if b in big { assert BigApart(big, a, b); } else { BigClear(hdr, tiles, pages, big, a, b); }
    } else {
      if b in big { BigClear(hdr, tiles, pages, big, b, a); } else { assert Apart(tiles, a, b); }
    }
  }

  /** A large block and a small one do not overlap. */
  lemma BigClear(hdr: map<nat, Header>, tiles: map<nat, Tile>, pages: set<nat>, big: map<nat, nat>, a: nat, b: nat)
    requires Tiling(tiles, pages) && LargeOk(hdr, pages, big) && a in big && b in tiles
    ensures a + big[a] <= b || b + tiles[b].len <= a
  {
    assert BigOk(hdr, pages, big, a) && TileOk(tiles, pages, b);
  }

  /** Payloads are 16-aligned and at least 16 bytes long. */
  lemma PayloadAligned(hdr: map<nat, Header>, tiles: map<nat, Tile>, pages: set<nat>, big: map<nat, nat>, a: nat)
    requires Tiling(tiles, pages) && LargeOk(hdr, pages, big) && a in Blocks(tiles, big)
    ensures (a + HEADER) % ALIGN == 0 && Blocks(tiles, big)[a] >= 2 * HEADER
  {
    if a in big {
      assert BigOk(hdr, pages, big, a);
      PageIsAligned(a);
    } else {
      assert TileOk(tiles, pages, a);
    }
  }

  /** 32-bit rounding of a large request and the 31-bit length field: what the header will say. */
  function StoredLength(length: nat): nat {
    ((length + HEADER) % WORD + (PAGE - 1)) % WORD / PAGE * PAGE % (WORD / 2)
  }

  /** The block a large request gets is large enough if and only if the rounded size is below 2 GB. */
  lemma LargeSizeExact(length: nat)
    requires SMALL_LIMIT < length < WORD
    ensures StoredLength(length) >= length + HEADER <==> PageUp(length + HEADER) < WORD / 2
    ensures PageUp(length + HEADER) < WORD / 2 ==> StoredLength(length) == PageUp(length + HEADER)
  {
    var l := length + HEADER;
    if l + PAGE - 1 < WORD {
      RoundsUp(l);
      LosesBit(PageUp(l));
    } else {
      RoundsToNothing(l);
    }
  }

  lemma RoundsUp(l: nat)
    requires l + PAGE - 1 < WORD
    ensures (l % WORD + (PAGE - 1)) % WORD / PAGE * PAGE == PageUp(l) <= WORD
  {
    SmallMod(l, WORD);
    SmallMod(l + (PAGE - 1), WORD);
  }

  lemma SmallMod(x: nat, n: nat)
    requires x < n
    ensures x % n == x
  {
  }

  /** The length field has 31 bits. */
  lemma LosesBit(r: nat)
    requires r <= WORD
    ensures r % (WORD / 2) == if r < WORD / 2 then r else if r < WORD then r - WORD / 2 else 0
  {
  }

  /** The 32-bit sum wraps, and almost nothing is left of the request. */
  lemma RoundsToNothing(l: nat)
    requires WORD <= l + PAGE - 1 && l < WORD + HEADER
    ensures (l % WORD + (PAGE - 1)) % WORD / PAGE * PAGE % (WORD / 2) < l && PageUp(l) >= WORD / 2
  {
    var x := (l % WORD + (PAGE - 1)) % WORD;
    if l < WORD {
      assert l % WORD == l && x == l + (PAGE - 1) - WORD;
    } else {
      assert l % WORD == l - WORD && x == l - WORD + (PAGE - 1);
    }
    assert x < PAGE + HEADER && x / PAGE * PAGE <= x;
  }

  /** The first request that goes wrong: the header says that the block is empty. */
  lemma LargeSizeExample()
    ensures StoredLength(0x7FFF_F000) == 0 && StoredLength(0x7FFF_EFF0) == 0x7FFF_F000
  {
    RoundsUp(0x7FFF_F010);
    RoundsUp(0x7FFF_F000);
    assert PageUp(0x7FFF_F010) == 0x8000_0000 && PageUp(0x7FFF_F000) == 0x7FFF_F000;
  }

  // ----- bytes on the move -----

  predicate MovedAt(m: map<nat, bv8>, m': map<nat, bv8>, src: nat, dst: nat, i: nat) {
    src + i in m ==> dst + i in m' && m'[dst + i] == m[src + i]
  }

  /** What was at [src, src + k) is at [dst, dst + k). */
  ghost predicate Moved(m: map<nat, bv8>, m': map<nat, bv8>, src: nat, dst: nat, k: nat) {
    forall i: nat {:trigger MovedAt(m, m', src, dst, i)} :: i < k ==> MovedAt(m, m', src, dst, i)
  }

  /** memcpy of k bytes whose source is `from`. */
  function Copied(m: map<nat, bv8>, from: map<nat, bv8>, src: nat, dst: nat, k: nat): map<nat, bv8> {
    (m - Span(dst, k)) + map x: nat | x in Span(dst, k) && src + (x - dst) in from :: from[src + (x - dst)]
  }

  lemma CopiedMoves(m: map<nat, bv8>, from: map<nat, bv8>, src: nat, dst: nat, k: nat)
    ensures Moved(from, Copied(m, from, src, dst, k), src, dst, k)
  {
    var m' := Copied(m, from, src, dst, k);
    forall i: nat | i < k
      ensures MovedAt(from, m', src, dst, i)
    {
      assert Within(dst, k, dst + i);
    }
  }

  /** Headers that a client's bytes at [dst, dst + k) overwrite. */
  function Smashed(hdr: map<nat, Header>, dst: nat, k: nat): set<nat> {
    set h | h in hdr && h < dst + k && dst < h + HEADER
  }

  /** Bytes written inside one payload reach no header and no other payload. */
  lemma WritesStayInside(hdr: map<nat, Header>, tiles: map<nat, Tile>, pages: set<nat>, big: map<nat, nat>,
                         a: nat, dst: nat, k: nat)
    requires Tiling(tiles, pages) && Agree(hdr, tiles, -1) && LargeOk(hdr, pages, big)
    requires a in Blocks(tiles, big) && a + HEADER <= dst && dst + k <= a + Blocks(tiles, big)[a]
    ensures Agree(hdr - Smashed(hdr, dst, k), tiles, -1) && LargeOk(hdr - Smashed(hdr, dst, k), pages, big)
    ensures forall b :: b in Blocks(tiles, big) && b != a ==> b + Blocks(tiles, big)[b] <= dst || dst + k <= b
  {
    var h := hdr - Smashed(hdr, dst, k);
    forall x | x in tiles
      ensures x !in Smashed(hdr, dst, k)
    {
      TileAway(hdr, tiles, pages, big, a, x);
    }
    forall x | x in big
      ensures x !in Smashed(hdr, dst, k) && BigOk(h, pages, big, x)
    {
      assert BigOk(hdr, pages, big, x);
      if x < a { PayloadsDisjoint(hdr, tiles, pages, big, x, a); }
      else if a < x { PayloadsDisjoint(hdr, tiles, pages, big, a, x); }
    }
    forall b | b in Blocks(tiles, big) && b != a
      ensures b + Blocks(tiles, big)[b] <= dst || dst + k <= b
    {
      if b < a { PayloadsDisjoint(hdr, tiles, pages, big, b, a);
          } else { PayloadsDisjoint(hdr, tiles, pages, big, a, b); }
    }
  }

  lemma TileAway(hdr: map<nat, Header>, tiles: map<nat, Tile>, pages: set<nat>, big: map<nat, nat>, a: nat, x: nat)
    requires Tiling(tiles, pages) && LargeOk(hdr, pages, big) && a in Blocks(tiles, big) && x in tiles
    ensures x <= a ==> x == a || x + HEADER <= a
    ensures a < x ==> a + Blocks(tiles, big)[a] <= x
  {
    assert TileOk(tiles, pages, x);
    if a in big {
      assert BigOk(hdr, pages, big, a);
    } else {
      assert Apart(tiles, a, x) && Apart(tiles, x, a);
    }
  }

  lemma CopiedElsewhere(m: map<nat, bv8>, from: map<nat, bv8>, src: nat, dst: nat, k: nat, lo: nat, hi: nat)
    requires hi <= dst || dst + k <= lo
    ensures Untouched(m, Copied(m, from, src, dst, k), lo, hi)
  {
    var m' := Copied(m, from, src, dst, k);
    forall x | lo <= x < hi && x in m
      ensures x in m' && m'[x] == m[x]
    {
      assert !Within(dst, k, x);
    }
  }

  lemma CopiedIntact(blocks: map<nat, nat>, m: map<nat, bv8>, from: map<nat, bv8>, src: nat, dst: nat, k: nat, a: nat)
    requires forall b :: b in blocks && b != a ==> b + blocks[b] <= dst || dst + k <= b
    ensures Intact(blocks - {a}, m, Copied(m, from, src, dst, k))
  {
    var m', rest := Copied(m, from, src, dst, k), blocks - {a};
    forall b | b in rest
      ensures Untouched(m, m', b + HEADER, b + rest[b])
    {
      assert b in blocks && b != a;
      CopiedElsewhere(m, from, src, dst, k, b + HEADER, b + blocks[b]);
    }
  }

  lemma IntactTrans(blocks: map<nat, nat>, m: map<nat, bv8>, m': map<nat, bv8>, m'': map<nat, bv8>)
    requires Intact(blocks, m, m') && Intact(blocks, m', m'')
    ensures Intact(blocks, m, m'')
  {
    forall a | a in blocks
      ensures Untouched(m, m'', a + HEADER, a + blocks[a])
    {
      assert Untouched(m, m', a + HEADER, a + blocks[a]) && Untouched(m', m'', a + HEADER, a + blocks[a]);
    }
  }

  lemma IntactLess(blocks: map<nat, nat>, fewer: map<nat, nat>, m: map<nat, bv8>, m': map<nat, bv8>)
    requires Intact(blocks, m, m') && forall a :: a in fewer ==> a in blocks && fewer[a] <= blocks[a]
    ensures Intact(fewer, m, m')
  {
    forall a | a in fewer
      ensures Untouched(m, m', a + HEADER, a + fewer[a])
    {
      assert Untouched(m, m', a + HEADER, a + blocks[a]);
    }
  }

  lemma BlocksPlus(t: map<nat, Tile>, u: map<nat, Tile>, big: map<nat, nat>, a: nat)
    requires UsedBut(t, u, a) && a in u && u[a].used && a !in big && !(a in t && t[a].used)
    ensures a !in Blocks(t, big) && Blocks(u, big) == Blocks(t, big)[a := u[a].len]
  {}

  lemma BlocksMinus(t: map<nat, Tile>, u: map<nat, Tile>, big: map<nat, nat>, a: nat)
    requires UsedBut(t, u, a) && a in t && t[a].used && a !in big && !(a in u && u[a].used)
    ensures a in Blocks(t, big) && Blocks(u, big) == Blocks(t, big) - {a}
  {}

  lemma BlocksResize(t: map<nat, Tile>, u: map<nat, Tile>, big: map<nat, nat>, a: nat)
    requires UsedBut(t, u, a) && a in t && t[a].used && a !in big && a in u && u[a].used
    ensures Blocks(t, big)[a] == t[a].len && Blocks(u, big) == Blocks(t, big)[a := u[a].len]
    ensures Blocks(Shorter(t, u, a), big) == Blocks(t, big)[a := if u[a].len < t[a].len then u[a].len else t[a].len]
  {}

  lemma BigBlocks(hdr: map<nat, Header>, tiles: map<nat, Tile>, pages: set<nat>, big: map<nat, nat>, a: nat)
    requires Tiling(tiles, pages) && LargeOk(hdr, pages, big) && a in big
    ensures a !in tiles && Blocks(tiles, big - {a}) == Blocks(tiles, big) - {a}
  {
    assert a in tiles ==> TileOk(tiles, pages, a);
    assert BigOk(hdr, pages, big, a);
  }

  /** The header of a block that a client holds says what kind and how long it is. */
  lemma LiveHeader(hdr: map<nat, Header>, tiles: map<nat, Tile>, pages: set<nat>, big: map<nat, nat>, a: nat)
    requires Tiling(tiles, pages) && Agree(hdr, tiles, -1) && LargeOk(hdr, pages, big) && a in Blocks(tiles, big)
    ensures a in hdr && hdr[a] == Header(if a in big then Large else Small, Blocks(tiles, big)[a], true)
    ensures a !in big ==> a in tiles && tiles[a].used
    ensures HEADER < Blocks(tiles, big)[a]
  {
    if a in big {
      assert BigOk(hdr, pages, big, a);
    } else {
      assert TileOk(tiles, pages, a);
    }
  }

  /** Requests whose rounded size fits the length field. */
  predicate Request(length: nat) { PageUp(length + HEADER) < WORD / 2 }

  /** The area the paging layer offers for a request. */
  ghost predicate Offer(pages: set<nat>, big: map<nat, nat>, at: nat, length: nat) {
    at % PAGE == 0 && at > 0 && AreaFree(pages, big, at,
        if length <= SMALL_LIMIT then PAGE else PageUp(length + HEADER))
  }

  /** Payload bytes that a block resized from `was` to `now` keeps. */
  function Kept(was: nat, now: nat): nat {
    var n := if was < now then was else now;
    if n < HEADER then 0 else n - HEADER
  }

  /** A payload that stayed where it was counts as moved onto itself. */
  lemma StayedMoved(m: map<nat, bv8>, m': map<nat, bv8>, at: nat, k: nat, blocks: map<nat, nat>, a: nat)
    requires a in blocks && at == a + HEADER && k + HEADER <= blocks[a] && Intact(blocks, m, m')
    ensures Moved(m, m', at, at, k)
  {
    assert Untouched(m, m', a + HEADER, a + blocks[a]);
  }

  lemma NothingMoved(m: map<nat, bv8>, at: nat, k: nat)
    ensures Moved(m, m, at, at, k)
  {}

  lemma MovedLess(m: map<nat, bv8>, m': map<nat, bv8>, src: nat, dst: nat, k: nat, j: nat)
    requires Moved(m, m', src, dst, k) && j <= k
    ensures Moved(m, m', src, dst, j)
  {
    forall i: nat | i < j
      ensures MovedAt(m, m', src, dst, i)
    {
      assert i < k;
    }
  }

  /** A copy made after the source payload was kept is a copy of the original. */
  lemma MovedFrom(m: map<nat, bv8>, m1: map<nat, bv8>, m': map<nat, bv8>, src: nat, dst: nat, k: nat,
                  blocks: map<nat, nat>)
    requires src >= HEADER && src - HEADER in blocks && k + HEADER <= blocks[src - HEADER]
    requires Intact(blocks, m, m1) && Moved(m1, m', src, dst, k)
    ensures Moved(m, m', src, dst, k)
  {
    forall i: nat | i < k
      ensures MovedAt(m, m', src, dst, i)
    {
      assert MovedAt(m1, m', src, dst, i);
      assert Untouched(m, m1, src, src - HEADER + blocks[src - HEADER]);
    }
  }

  /** Block `a` is new, aligned and large enough; all payloads are untouched. */
  ghost predicate Allocated(live: map<nat, nat>, m: map<nat, bv8>, live': map<nat, nat>, m': map<nat, bv8>, a: nat,
                            length: nat) {
    && a > 0 && a % ALIGN == 0 && a !in live && a in live'
    && live' == live[a := live'[a]] && live'[a] >= length + HEADER
    && Intact(live, m, m')
  }

  lemma AllocatedSmall(t: map<nat, Tile>, u: map<nat, Tile>, big: map<nat, nat>, m: map<nat, bv8>, m': map<nat, bv8>,
                       a: nat, length: nat)
    requires UsedBut(t, u, a) && a in u && u[a].used && a !in big && !(a in t && t[a].used)
    requires a > 0 && a % ALIGN == 0 && u[a].len >= length + HEADER && Preserved(t, big, m, m')
    ensures Allocated(Blocks(t, big), m, Blocks(u, big), m', a, length)
  {
    BlocksPlus(t, u, big, a);
    PreservedIntact(t, big, m, m');
  }

  lemma AllocatedLarge(tiles: map<nat, Tile>, big: map<nat, nat>, m: map<nat, bv8>, m': map<nat, bv8>, a: nat, n: nat,
                       length: nat)
    requires a !in tiles && a !in big && a > 0 && a % ALIGN == 0 && n >= length + HEADER && Preserved(tiles, big, m, m')
    ensures Allocated(Blocks(tiles, big), m, Blocks(tiles, big[a := n]), m', a, length)
  {
    assert Blocks(tiles, big[a := n]) == Blocks(tiles, big)[a := n];
    PreservedIntact(tiles, big, m, m');
  }

  lemma SomeMember(s: seq<nat>)
    ensures s != [] ==> exists a :: a in s
  {
    if s != [] { assert s[0] in s; }
  }

  /** Block `a` became block `r`: large enough, aligned, with the kept bytes of `a`; all others untouched. */
  ghost predicate Resized(live: map<nat, nat>, m: map<nat, bv8>, live': map<nat, nat>, m': map<nat, bv8>,
                          a: nat, r: nat, length: nat)
  {
    && a in live && r > 0 && r % ALIGN == 0 && r in live' && r !in live - {a}
    && live' == (live - {a})[r := live'[r]] && live'[r] >= length + HEADER
    && Moved(m, m', a + HEADER, r + HEADER, Kept(live[a], length + HEADER))
    && Intact(live - {a}, m, m')
  }

  /** Every byte that fits into both the old and the new payload is where it was, counted from the start. */
  lemma BytesKept(live: map<nat, nat>, m: map<nat, bv8>, live': map<nat, nat>, m': map<nat, bv8>, a: nat, r: nat,
                  length: nat)
    requires Resized(live, m, live', m', a, r, length)
    ensures forall x :: x in m && a + HEADER <= x < a + HEADER + length && x < a + live[a] ==>
              r + (x - a) in m' && m'[r + (x - a)] == m[x]
  {
    var n := Kept(live[a], length + HEADER);
    forall x | x in m && a + HEADER <= x < a + HEADER + length && x < a + live[a]
      ensures r + (x - a) in m' && m'[r + (x - a)] == m[x]
    {
      assert MovedAt(m, m', a + HEADER, r + HEADER, x - a - HEADER);
    }
  }

  lemma ResizedNot(live: map<nat, nat>, m: map<nat, bv8>, a: nat, length: nat)
    requires a in live && a > 0 && a % ALIGN == 0 && live[a] >= length + HEADER
    ensures Resized(live, m, live, m, a, a, length)
  {
    assert live == (live - {a})[a := live[a]];
    NothingMoved(m, a + HEADER, Kept(live[a], length + HEADER));
  }

  lemma ResizedInPlace(t: map<nat, Tile>, u: map<nat, Tile>, big: map<nat, nat>, m: map<nat, bv8>, m': map<nat, bv8>,
                       a: nat, length: nat)
    requires a in t && t[a].used && a in u && u[a].used && UsedBut(t, u, a) && a !in big && a > 0 && a % ALIGN == 0
    requires t[a].len >= HEADER && u[a].len >= length + HEADER && Preserved(Shorter(t, u, a), big, m, m')
    ensures Resized(Blocks(t, big), m, Blocks(u, big), m', a, a, length)
  {
    BlocksResize(t, u, big, a);
    PreservedIntact(Shorter(t, u, a), big, m, m');
    ResizedStill(Blocks(t, big), Blocks(u, big), m, m', a, u[a].len, length);
  }

  lemma ResizedStill(live: map<nat, nat>, live': map<nat, nat>, m: map<nat, bv8>, m': map<nat, bv8>, a: nat, n: nat,
                     length: nat)
    requires a in live && a > 0 && a % ALIGN == 0 && live[a] >= HEADER && n >= length + HEADER && live' == live[a := n]
    requires Intact(live[a := if n < live[a] then n else live[a]], m, m')
    ensures Resized(live, m, live', m', a, a, length)
  {
    var kept: map<nat, nat> := live[a := if n < live[a] then n else live[a]];
    IntactLess(kept, live - {a}, m, m');
    StayedMoved(m, m', a + HEADER, Kept(live[a], length + HEADER), kept, a);
    assert live' == (live - {a})[a := n];
  }

  lemma CarriedKeeps(tiles: map<nat, Tile>, pages: set<nat>, big: map<nat, nat>, m: map<nat, bv8>, m': map<nat, bv8>,
                     a: nat, len: nat, at: nat, n: nat)
    requires Tiling(tiles, pages) && AreaFree(pages, big, a, len) && AreaFree(pages, big, at, n)
             && Carried(m, m', a, len, at, n)
    ensures Preserved(tiles, big, m, m')
  {
    forall x: nat | x in m && !(a <= x < a + len) && !(at <= x < at + n)
      ensures x in m' && m'[x] == m[x]
    {
      assert LeftAt(m, m', x);
    }
    forall b | b in tiles && tiles[b].used
      ensures Untouched(m, m', b + HEADER, b + tiles[b].len)
    {
      assert TileOk(tiles, pages, b);
      assert Base(b) in pages;
    }
    forall b | b in big
      ensures Untouched(m, m', b + HEADER, b + big[b])
    {
    }
  }

  lemma CarriedMoves(m: map<nat, bv8>, m': map<nat, bv8>, a: nat, len: nat, at: nat, n: nat)
    requires Carried(m, m', a, len, at, n)
    ensures Moved(m, m', a + HEADER, at + HEADER, Kept(len, n))
  {
    var src, dst := a + HEADER, at + HEADER;
    forall i: nat | i < Kept(len, n)
      ensures MovedAt(m, m', src, dst, i)
    {
      assert CarriedAt(m, m', a, at, i + HEADER);
    }
  }

  /** The paging layer can do what it promises. */
  lemma CarriedExists(m: map<nat, bv8>, a: nat, len: nat, at: nat, n: nat)
    ensures exists m' :: Carried(m, m', a, len, at, n)
  {
    var m' := Copied(m, m, a, at, if len < n then len else n);
    forall i: nat | i < len && i < n
      ensures CarriedAt(m, m', a, at, i)
    {
      assert Within(at, if len < n then len else n, at + i);
    }
    forall x: nat | !(a <= x < a + len) && !(at <= x < at + n)
      ensures LeftAt(m, m', x)
    {
      CopiedElsewhere(m, m, a, at, if len < n then len else n, x, x + 1);
    }
    assert Carried(m, m', a, len, at, n);
  }

  /** The header at the start of the block is part of its bytes; headers outside both areas stay. */
  predicate HeaderCarried(hdr: map<nat, Header>, hdr': map<nat, Header>, a: nat, len: nat, at: nat, n: nat) {
    && (a in hdr && HEADER <= len && HEADER <= n ==> at in hdr' && hdr'[at] == hdr[a])
    && (forall h :: h in hdr && !(a <= h < a + len) && !(at <= h < at + n) ==> h in hdr' && hdr'[h] == hdr[h])
  }

  lemma HeaderCarriedExists(hdr: map<nat, Header>, a: nat, len: nat, at: nat, n: nat)
    ensures exists hdr' :: HeaderCarried(hdr, hdr', a, len, at, n)
  {
    var hdr' := if a in hdr && n > 0 then hdr[at := hdr[a]] else hdr;
    assert HeaderCarried(hdr, hdr', a, len, at, n);
  }

  /** What the move leaves of the headers outside the block. */
  lemma HeadersLeft(hdr: map<nat, Header>, moved: map<nat, Header>, hdr': map<nat, Header>, a: nat, len: nat, at: nat,
                    n: nat)
    requires HeaderCarried(hdr, moved, a, len, at, n) && at in hdr' && hdr' == moved[at := hdr'[at]] && n > 0
    ensures forall h :: h in hdr - Span(a, len) && !(at <= h < at + n) ==> h in hdr' && hdr'[h] == hdr[h]
  {
    forall h | h in hdr - Span(a, len) && !(at <= h < at + n)
      ensures h in hdr' && hdr'[h] == hdr[h]
    {
      assert !Within(a, len, h);
    }
  }

  /** A large block with other pages, seen from the clients. */
  lemma CarriedBlocks(tiles: map<nat, Tile>, pages: set<nat>, big: map<nat, nat>, a: nat, at: nat, n: nat,
                      m: map<nat, bv8>, m': map<nat, bv8>,
                      length: nat)
    requires Tiling(tiles, pages) && a in big && a !in tiles && at !in tiles && at !in big - {a}
    requires at > 0 && at % ALIGN == 0 && n >= length + HEADER && AreaFree(pages, big - {a}, a, big[a])
             && AreaFree(pages, big - {a}, at, n)
    requires Carried(m, m', a, big[a], at, n)
    ensures Resized(Blocks(tiles, big), m, Blocks(tiles, (big - {a})[at := n]), m', a, at, length)
  {
    var live: map<nat, nat>, big': map<nat, nat> := Blocks(tiles, big), big - {a};
    MovedBlock(tiles, big, a, at, n);
    CarriedKeeps(tiles, pages, big', m, m', a, big[a], at, n);
    PreservedIntact(tiles, big', m, m');
    CarriedMoves(m, m', a, big[a], at, n);
    MovedLess(m, m', a + HEADER, at + HEADER, Kept(live[a], n), Kept(live[a], length + HEADER));
  }

  lemma MovedBlock(tiles: map<nat, Tile>, big: map<nat, nat>, a: nat, at: nat, n: nat)
    requires a in big && a !in tiles && at !in tiles && at !in big - {a}
    ensures Blocks(tiles, big)[a] == big[a] && at !in Blocks(tiles, big) - {a}
    ensures Blocks(tiles, big - {a}) == Blocks(tiles, big) - {a}
    ensures Blocks(tiles, (big - {a})[at := n]) == (Blocks(tiles, big) - {a})[at := n]
  {
  }

  /** Block b is new and has the kept bytes of block a; all payloads are untouched. */
  ghost predicate Duplicated(live: map<nat, nat>, m: map<nat, bv8>, live1: map<nat, nat>, m1: map<nat, bv8>, a: nat,
                             b: nat, length: nat) {
    && a in live && Allocated(live, m, live1, m1, b, length)
    && Moved(m, m1, a + HEADER, b + HEADER, Kept(live[a], length + HEADER))
  }

  lemma CopiedNew(live: map<nat, nat>, live1: map<nat, nat>, m: map<nat, bv8>, m1: map<nat, bv8>, m2: map<nat, bv8>,
                  a: nat, b: nat, length: nat)
    requires a in live && live[a] >= HEADER && Allocated(live, m, live1, m1, b, length)
    requires Intact(live1 - {b}, m1, m2) && Moved(m1, m2, a + HEADER, b + HEADER, Kept(live[a], length + HEADER))
    ensures Duplicated(live, m, live1, m2, a, b, length)
  {
    assert live1 - {b} == live;
    IntactTrans(live, m, m1, m2);
    MovedFrom(m, m1, m2, a + HEADER, b + HEADER, Kept(live[a], length + HEADER), live);
  }

  /** After the copy the old block goes; the copy and all other payloads stay. */
  lemma CopyRest(live: map<nat, nat>, live1: map<nat, nat>, m: map<nat, bv8>, m1: map<nat, bv8>, m2: map<nat, bv8>,
                 a: nat, b: nat, length: nat)
    requires Duplicated(live, m, live1, m1, a, b, length) && Intact(live1 - {a}, m1, m2)
    ensures Resized(live, m, live1 - {a}, m2, a, b, length)
  {
    var rest: map<nat, nat>, left: map<nat, nat> := live - {a}, live1 - {a};
    IntactLess(live, rest, m, m1);
    IntactLess(left, rest, m1, m2);
    IntactTrans(rest, m, m1, m2);
    assert left == rest[b := left[b]];
    MovedAndKept(m, m1, m2, a + HEADER, b + HEADER, Kept(live[a], length + HEADER), left);
  }

  /** A copy whose block is then kept. */
  lemma MovedAndKept(m: map<nat, bv8>, m1: map<nat, bv8>, m2: map<nat, bv8>, src: nat, dst: nat, k: nat,
                     blocks: map<nat, nat>)
    requires dst >= HEADER && dst - HEADER in blocks && k + HEADER <= blocks[dst - HEADER]
    requires Moved(m, m1, src, dst, k) && Intact(blocks, m1, m2)
    ensures Moved(m, m2, src, dst, k)
  {
    assert Untouched(m1, m2, dst, dst - HEADER + blocks[dst - HEADER]);
    forall i: nat | i < k
      ensures MovedAt(m, m2, src, dst, i)
    {
      assert MovedAt(m, m1, src, dst, i);
    }
  }

  lemma OfferLess(pages: set<nat>, big: map<nat, nat>, at: nat, length: nat, a: nat)
    requires Offer(pages, big, at, length)
    ensures Offer(pages, big - {a}, at, length)
  {}
}
