/** The blocks of the small-block heap as values: how blocks tile a page, and what splitting, merging
    and giving back a page do to the tiling. */
module HeapTiles {

  const PAGE := 0x1000
  const HEADER := 16          // sizeof(struct heapEntry)
  const ALIGN := 16
  const MIN_BLOCK := 32       // a header and one alignment unit

  datatype Tile = Tile(len: nat, used: bool)

  function Base(a: nat): nat { a / PAGE * PAGE }

  function PageEnd(a: nat): nat { Base(a) + PAGE }

  /** A block is aligned, large enough, inside its page, and followed by a block or the page's end. */
  predicate TileOk(tiles: map<nat, Tile>, pages: set<nat>, a: nat)
    requires a in tiles
  {
    var n := tiles[a].len;
    && a % ALIGN == 0 && n % ALIGN == 0 && MIN_BLOCK <= n
    && Base(a) in pages && a + n <= PageEnd(a)
    && (a + n < PageEnd(a) ==> a + n in tiles)
  }

  predicate Apart(tiles: map<nat, Tile>, a: nat, b: nat)
    requires a in tiles && b in tiles
  {
    a < b ==> a + tiles[a].len <= b
  }

  /** The blocks tile exactly the pages held. */
  ghost predicate Tiling(tiles: map<nat, Tile>, pages: set<nat>) {
    && (forall a {:trigger TileOk(tiles, pages, a)} :: a in tiles ==> TileOk(tiles, pages, a))
    && (forall b :: b in pages ==> b % PAGE == 0 && b in tiles)
    && (forall a, b {:trigger Apart(tiles, a, b)} :: a in tiles && b in tiles ==> Apart(tiles, a, b))
  }

  /** Two neighbouring blocks of a page are not both free. */
  predicate Barred(tiles: map<nat, Tile>, a: nat)
    requires a in tiles
  {
    !tiles[a].used ==>
      && tiles[a].len < PAGE
      && (a + tiles[a].len in tiles && a + tiles[a].len < PageEnd(a) ==> tiles[a + tiles[a].len].used)
  }

  /** Free blocks are coalesced and none is a whole page; the block at `d`, if any, is in transit and
      neither it nor the block before it is held to that. */
  ghost predicate Coalesced(tiles: map<nat, Tile>, d: int) {
    forall a {:trigger Barred(tiles, a)} ::
        a in tiles && a != d && !(a + tiles[a].len == d < PageEnd(a)) ==> Barred(tiles, a)
  }

  // ----- tilings under the allocator's moves -----

  lemma NextInPage(a: nat, n: nat)
    requires a + n < PageEnd(a)
    ensures Base(a + n) == Base(a)
  {}

  lemma PageIsAligned(b: nat)
    requires b % PAGE == 0
    ensures b % ALIGN == 0
  {
    assert b == ALIGN * (PAGE / ALIGN * (b / PAGE));
  }

  lemma PageOf(b: nat, a: nat)
    requires b % PAGE == 0
    ensures b <= a < b + PAGE <==> Base(a) == b
  {}

  /** Blocks lie between their page's neighbours. */
  lemma ClearOfPage(tiles: map<nat, Tile>, pages: set<nat>, a: nat, b: nat)
    requires Tiling(tiles, pages) && a in tiles && b % PAGE == 0 && Base(a) != b
    ensures a + tiles[a].len <= b || b + PAGE <= a
  {
    assert TileOk(tiles, pages, a);
    PageOf(b, a);
  }

  lemma Split(tiles: map<nat, Tile>, pages: set<nat>, a: nat, n: nat, used: bool, tiles': map<nat, Tile>)
    requires Tiling(tiles, pages) && a in tiles && n % ALIGN == 0 && MIN_BLOCK <= n && n + MIN_BLOCK <= tiles[a].len
    requires tiles' == tiles[a := Tile(n, used)][a + n := Tile(tiles[a].len - n, false)]
    ensures Tiling(tiles', pages) && a + n !in tiles && Base(a + n) == Base(a)
  {
    assert TileOk(tiles, pages, a);
    SplitBase(a, n, tiles[a].len);
    assert a + n in tiles ==> Apart(tiles, a, a + n);
    forall b | b in tiles'
      ensures TileOk(tiles', pages, b)
    {
      assert b in tiles ==> TileOk(tiles, pages, b);
    }
    SplitApart(tiles, a, n, used, tiles');
  }

  /** Both parts of a split block are aligned and in the same page. */
  lemma SplitBase(a: nat, n: nat, m: nat)
    requires a % ALIGN == 0 && n % ALIGN == 0 && m % ALIGN == 0 && n < m && a + m <= PageEnd(a)
    ensures Base(a + n) == Base(a) && (a + n) % ALIGN == 0 && (m - n) % ALIGN == 0
  {}

  lemma SplitApart(tiles: map<nat, Tile>, a: nat, n: nat, used: bool, tiles': map<nat, Tile>)
    requires (forall x, y {:trigger Apart(tiles, x, y)} :: x in tiles && y in tiles ==> Apart(tiles, x, y))
    requires a in tiles && 0 < n < tiles[a].len
             && tiles' == tiles[a := Tile(n, used)][a + n := Tile(tiles[a].len - n, false)]
    ensures forall x, y {:trigger Apart(tiles', x, y)} :: x in tiles' && y in tiles' ==> Apart(tiles', x, y)
  {
    forall x, y | x in tiles' && y in tiles'
      ensures Apart(tiles', x, y)
    {
      var x', y' := if x == a + n then a else x, if y == a + n then a else y;
      assert Apart(tiles, x', y') && Apart(tiles, y', x');
    }
  }

  lemma Merge(tiles: map<nat, Tile>, pages: set<nat>, a: nat, b: nat, used: bool, tiles': map<nat, Tile>)
    requires Tiling(tiles, pages) && a in tiles && b in tiles && a + tiles[a].len == b && b < PageEnd(a)
    requires tiles' == (tiles - {b})[a := Tile(tiles[a].len + tiles[b].len, used)]
    ensures Tiling(tiles', pages)
  {
    assert TileOk(tiles, pages, a) && TileOk(tiles, pages, b);
    NextInPage(a, tiles[a].len);
    forall c | c in tiles'
      ensures TileOk(tiles', pages, c)
    {
      assert TileOk(tiles, pages, c);
      assert Apart(tiles, c, a) && Apart(tiles, a, c);
    }
    forall x, y | x in tiles' && y in tiles'
      ensures Apart(tiles', x, y)
    {
      assert Apart(tiles, x, y) && Apart(tiles, b, y);
    }
    assert forall p :: p in pages ==> p != b;
  }

  lemma AddPage(tiles: map<nat, Tile>, pages: set<nat>, b: nat, t: Tile)
    requires Tiling(tiles, pages) && b % PAGE == 0 && b !in pages && t.len == PAGE
    ensures Tiling(tiles[b := t], pages + {b}) && b !in tiles
  {
    var tiles', pages' := tiles[b := t], pages + {b};
    PageIsAligned(b);
    assert b !in tiles by {
      assert b in tiles ==> TileOk(tiles, pages, b);
    }
    forall a | a in tiles'
      ensures TileOk(tiles', pages', a)
    {
      if a != b { assert TileOk(tiles, pages, a); }
    }
    forall x, y | x in tiles' && y in tiles'
      ensures Apart(tiles', x, y)
    {
      var z := if x == b then y else x;
      if x in tiles && y in tiles {
        assert Apart(tiles, x, y);
      } else if z != b {
        assert TileOk(tiles, pages, z);
        ClearOfPage(tiles, pages, z, b);
      }
    }
  }

  lemma DropPage(tiles: map<nat, Tile>, pages: set<nat>, b: nat)
    requires Tiling(tiles, pages) && b in tiles && b % PAGE == 0 && tiles[b].len == PAGE
    ensures Tiling(tiles - {b}, pages - {b})
    ensures forall a :: a in tiles && a != b ==> Base(a) != b
  {
    assert TileOk(tiles, pages, b);
    var tiles', pages' := tiles - {b}, pages - {b};
    forall a | a in tiles'
      ensures Base(a) != b && TileOk(tiles', pages', a)
    {
      assert TileOk(tiles, pages, a);
      assert Apart(tiles, b, a);
    }
    forall x, y | x in tiles' && y in tiles'
      ensures Apart(tiles', x, y)
    {
      assert Apart(tiles, x, y);
    }
  }

  lemma Retag(tiles: map<nat, Tile>, pages: set<nat>, a: nat, used: bool)
    requires Tiling(tiles, pages) && a in tiles
    ensures Tiling(tiles[a := Tile(tiles[a].len, used)], pages)
  {
    var tiles' := tiles[a := Tile(tiles[a].len, used)];
    forall b | b in tiles'
      ensures TileOk(tiles', pages, b)
    {
      assert TileOk(tiles, pages, b);
    }
    forall x, y | x in tiles' && y in tiles'
      ensures Apart(tiles', x, y)
    {
      assert Apart(tiles, x, y);
    }
  }

  /** Every page held has a block in use. */
  lemma EveryPageInUse(tiles: map<nat, Tile>, pages: set<nat>, b: nat) returns (a: nat)
    requires Tiling(tiles, pages) && Coalesced(tiles, -1) && b in pages
    ensures a in tiles && tiles[a].used && Base(a) == b
  {
    assert TileOk(tiles, pages, b);
    if tiles[b].used {
      a := b;
    } else {
      assert Barred(tiles, b);
      a := b + tiles[b].len;
      NextInPage(b, tiles[b].len);
    }
  }

  /** Nothing in use means nothing held: freeing every block returns every page. */
  lemma NothingUsedNothingHeld(tiles: map<nat, Tile>, pages: set<nat>)
    requires Tiling(tiles, pages) && Coalesced(tiles, -1)
    requires forall a :: a in tiles ==> !tiles[a].used
    ensures pages == {} && tiles == map[]
  {
    if b :| b in pages {
      var a := EveryPageInUse(tiles, pages, b);
    }
    assert forall a :: a in tiles ==> TileOk(tiles, pages, a);
  }
}
