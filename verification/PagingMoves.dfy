/** Moving a block of pages to another place of the same address space, and growing it. */
module PagingMoves {
  import opened Sequences
  import opened FrameAccounting
  import opened PageTables
  import opened AreaSearch
  import opened PagingSteps
  import opened KernelBytes

  /** The entry of slot k now stands in slot c. */
  function MovedEntry(slots: map<Slot, Entry>, k: Slot, c: Slot): map<Slot, Entry>
    requires k in slots
  {
    (slots - {k})[c := slots[k]]
  }

  lemma MoveKeepsAccounts(used: set<nat>, extra: map<nat, nat>, slots: map<Slot, Entry>, pend: multiset<nat>,
                          holes: set<nat>, k: Slot, c: Slot)
    requires Accounts(used, extra, slots, pend, holes) && k in slots && slots[k].Present? && c !in slots
    ensures Accounts(used, extra, MovedEntry(slots, k, c), pend, holes)
  {
    var e := slots[k];
    ClearKeepsAccounts(used, extra, slots, pend, holes, k);
    PutKeepsAccounts(used, extra, slots - {k}, pend + multiset{e.frame}, holes, c, e);
    assert pend + multiset{e.frame} - multiset{e.frame} == pend;
  }

  lemma MovedUnnamed(slots: map<Slot, Entry>, k: Slot, c: Slot, f: nat)
    requires k in slots && c !in slots && Namers(slots, f) == {}
    ensures Namers(MovedEntry(slots, k, c), f) == {}
  {
    forall x | x in MovedEntry(slots, k, c)
      ensures !Names(MovedEntry(slots, k, c)[x], f)
    {
      NamersEmpty(slots, f, if x == c then k else x);
    }
  }

  lemma IsolatedMove(slots: map<Slot, Entry>, k: Slot, c: Slot)
    requires Isolated(slots, {}) && k in slots && c !in slots && k.Pte? && c.Pte? && k.space == c.space
    ensures Isolated(MovedEntry(slots, k, c), {})
  {
    var t := MovedEntry(slots, k, c);
    forall i, j | i in t && j in t
      ensures Compat(t, {}, i, j)
    {
      assert Compat(slots, {}, if i == c then k else i, if j == c then k else j);
    }
  }

  lemma MoveSound(sh: Shape, k: Slot, c: Slot)
    requires Sound(sh) && sh.temp == {} && k in sh.slots && sh.slots[k].Present? && c !in sh.slots
    requires k.Pte? && c.Pte? && k.space == c.space && PageOk(c.space, c.page)
             && Pde(c.space, c.page / TABLE_COUNT) in sh.slots
    requires k.space.Kernel? ==> forall o :: o in sh.kmap ==> sh.kmap[o] != k.page
    ensures Sound(sh.(slots := MovedEntry(sh.slots, k, c)))
  {
    assert SlotOk(sh, k);
    var mid := sh.(slots := sh.slots - {k});
    assert sh.resv - {k} == sh.resv;
    SlotsDrop(sh, k, mid);
    IsolatedMove(sh.slots, k, c);
    SlotsPut(mid, c, sh.slots[k], sh.(slots := MovedEntry(sh.slots, k, c)));
  }

  /** `t` is `s` with the pages [src, src + n) of space s0 moved to [dst, dst + n), plus kernel bookkeeping. */
  ghost predicate Relocated(s: map<Slot, Entry>, t: map<Slot, Entry>, s0: Space, dst: nat, src: nat, n: nat) {
    && (forall k {:trigger k in s} :: k in s && !InBlock(k, s0, src, n) ==> k in t && t[k] == s[k])
    && (forall k {:trigger k in t} ::
       k in t && k !in s && k.Pte? && (k.space.User? || s0.Kernel?) ==> InBlock(k, s0, dst, n))
    && (forall v {:trigger RelocatedAt(s, t, s0, dst, src, v)} :: 0 <= v < n ==> RelocatedAt(s, t, s0, dst, src, v))
  }

  predicate InBlock(k: Slot, s0: Space, base: nat, n: nat) { k.Pte? && k.space == s0 && base <= k.page < base + n }

  predicate RelocatedAt(s: map<Slot, Entry>, t: map<Slot, Entry>, s0: Space, dst: nat, src: nat, v: nat) {
    && Pte(s0, src + v) in s && Pte(s0, src + v) !in t
    && Pte(s0, dst + v) in t && t[Pte(s0, dst + v)] == s[Pte(s0, src + v)]
  }

  /** No page of the range is mapped. */
  ghost predicate Vacant(s: map<Slot, Entry>, s0: Space, base: nat, n: nat) {
    forall v {:trigger Pte(s0, v)} :: base <= v < base + n ==> Pte(s0, v) !in s
  }

  predicate Apart(a: nat, b: nat, n: nat) { a + n <= b || b + n <= a }

  lemma RelocatedNone(s: map<Slot, Entry>, s0: Space, dst: nat, src: nat)
    ensures Relocated(s, s, s0, dst, src, 0)
  {
  }

  /** One page more: the table exists (bookkeeping from t to u), then the entry moves. */
  lemma RelocatedStep(s: map<Slot, Entry>, t: map<Slot, Entry>, u: map<Slot, Entry>, s0: Space, dst: nat, src: nat,
                      n: nat, length: nat)
    requires Relocated(s, t, s0, dst, src, n) && n < length && Apart(dst, src, length)
    requires Pte(s0, src + n) in s && Vacant(s, s0, dst, length)
    requires Extends(t, u) && (s0.Kernel? ==> forall k :: k in u && k !in t ==> k.Pde?)
    ensures Pte(s0, src + n) in u && Pte(s0, dst + n) !in u
    ensures Relocated(s, MovedEntry(u, Pte(s0, src + n), Pte(s0, dst + n)), s0, dst, src, n + 1)
  {
    var k, c := Pte(s0, src + n), Pte(s0, dst + n);
    assert !InBlock(k, s0, src, n);
    assert c !in t by {
      assert c in t ==> InBlock(c, s0, dst, n);
    }
    var w := MovedEntry(u, k, c);
    forall x | x in s && !InBlock(x, s0, src, n + 1)
      ensures x in w && w[x] == s[x]
    {
      assert x in t && t[x] == s[x];
    }
    forall x | x in w && x !in s && x.Pte? && (x.space.User? || s0.Kernel?)
      ensures InBlock(x, s0, dst, n + 1)
    {
      assert x != c ==> x in t;
    }
    forall v | 0 <= v < n + 1
      ensures RelocatedAt(s, w, s0, dst, src, v)
    {
      assert v < n ==> RelocatedAt(s, t, s0, dst, src, v);
    }
  }

  // ----- a block of kernel pages that grows, moving if it must -----

  /** Instead of the block of len pages at base in `s`, `t` has a block at `at` with these entries; everything
      else is as it was, but for page tables. */
  ghost predicate Reblocked(s: map<Slot, Entry>, t: map<Slot, Entry>, base: nat, len: nat, at: nat, ent: seq<Entry>) {
    && (forall k {:trigger k in s} ::
       k in s && !InBlock(k, Kernel, base, len) ==> k in t && t[k] == s[k] && !InBlock(k, Kernel, at, |ent|))
    && (forall k {:trigger k in t} ::
       k in t && k.Pte? && (k !in s || InBlock(k, Kernel, base, len)) ==> InBlock(k, Kernel, at, |ent|))
    && (forall i {:trigger EntryAt(t, at, ent, i)} :: 0 <= i < |ent| ==> EntryAt(t, at, ent, i))
  }

  predicate EntryAt(t: map<Slot, Entry>, at: nat, ent: seq<Entry>, i: nat)
    requires i < |ent|
  {
    Pte(Kernel, at + i) in t && t[Pte(Kernel, at + i)] == ent[i]
  }

  /** One page more behind the block. */
  lemma ReblockedGrow(s: map<Slot, Entry>, t: map<Slot, Entry>, u: map<Slot, Entry>, base: nat, len: nat, at: nat,
                      ent: seq<Entry>, e: Entry)
    requires Reblocked(s, t, base, len, at, ent) && Pte(Kernel, at + |ent|) !in t
    requires (forall k :: k in t ==> k in u && u[k] == t[k])
             && (forall k :: k in u && k !in t && k.Pte? ==> k == Pte(Kernel, at + |ent|))
    requires Pte(Kernel, at + |ent|) in u && u[Pte(Kernel, at + |ent|)] == e
    ensures Reblocked(s, u, base, len, at, ent + [e])
  {
    var more := ent + [e];
    forall i | 0 <= i < |more|
      ensures EntryAt(u, at, more, i)
    {
      assert i < |ent| ==> EntryAt(t, at, ent, i);
    }
    forall k | k in u && k.Pte? && (k !in s || InBlock(k, Kernel, base, len))
      ensures InBlock(k, Kernel, at, |more|)
    {
      assert k in t ==> InBlock(k, Kernel, at, |ent|);
    }
  }

  /** The whole block at another place. */
  lemma ReblockedMove(s: map<Slot, Entry>, t: map<Slot, Entry>, u: map<Slot, Entry>, base: nat, len: nat, at: nat,
                      ent: seq<Entry>, dst: nat)
    requires Reblocked(s, t, base, len, at, ent) && Relocated(t, u, Kernel, dst, at, |ent|)
             && Vacant(t, Kernel, dst, |ent|)
    ensures Reblocked(s, u, base, len, dst, ent)
  {
    forall k | k in s && !InBlock(k, Kernel, base, len)
      ensures k in u && u[k] == s[k] && !InBlock(k, Kernel, dst, |ent|)
    {
      assert k in t && t[k] == s[k];
    }
    forall i | 0 <= i < |ent|
      ensures EntryAt(u, dst, ent, i)
    {
      assert RelocatedAt(t, u, Kernel, dst, at, i) && EntryAt(t, at, ent, i);
    }
    forall k | k in u && k.Pte? && (k !in s || InBlock(k, Kernel, base, len))
      ensures InBlock(k, Kernel, dst, |ent|)
    {
      assert k in t ==> InBlock(k, Kernel, at, |ent|);
      assert InBlock(k, Kernel, at, |ent|) ==> RelocatedAt(t, u, Kernel, dst, at, k.page - at);
    }
  }

  /** Entries a grown block has: the old ones, then fresh pages with the given permissions. */
  ghost predicate Grown(was: seq<Entry>, ent: seq<Entry>, rw: bool, user: bool) {
    && was <= ent && forall i ::
       |was| <= i < |ent| ==> ent[i].Present? && ent[i] == Present(rw, user, Plain, ent[i].frame)
  }

  /** The entries behind the first len have frames that were free (not in `was`), each its own. */
  ghost predicate NewFrames(ent: seq<Entry>, len: nat, was: set<nat>, used: set<nat>) {
    && was <= used
    && (forall i :: len <= i < |ent| ==> ent[i].Present? && ent[i].frame in used - was)
    && (forall i, j :: len <= i < j < |ent| && ent[i].Present? && ent[j].Present? ==> ent[i].frame != ent[j].frame)
  }

  lemma NewFramesMore(ent: seq<Entry>, len: nat, was: set<nat>, used: set<nat>, used': set<nat>, e: Entry)
    requires NewFrames(ent, len, was, used) && used <= used' && e.Present? && e.frame in used' - used && len <= |ent|
    ensures NewFrames(ent + [e], len, was, used')
  {
  }

  /** New page tables change nothing about blocks. */
  lemma ReblockedTables(s: map<Slot, Entry>, t: map<Slot, Entry>, u: map<Slot, Entry>, base: nat, len: nat, at: nat,
                        ent: seq<Entry>)
    requires Reblocked(s, t, base, len, at, ent) && Extends(t, u) && forall k :: k in u && k !in t ==> k.Pde?
    ensures Reblocked(s, u, base, len, at, ent)
  {
    forall k | k in s && !InBlock(k, Kernel, base, len)
      ensures k in u && u[k] == s[k] && !InBlock(k, Kernel, at, |ent|)
    {
      assert k in t && t[k] == s[k];
    }
    forall i | 0 <= i < |ent|
      ensures EntryAt(u, at, ent, i)
    {
      assert EntryAt(t, at, ent, i);
    }
  }

  /** First fit looks at pages only, not at page tables. */
  lemma SameFit(t: map<Slot, Entry>, u: map<Slot, Entry>, length: nat, r: Option<nat>)
    requires Extends(t, u) && (forall k :: k in u && k !in t ==> k.Pde?) && FirstFit(u, Kernel, length, r)
    ensures FirstFit(t, Kernel, length, r)
  {
    forall b: int
      ensures FreeRun(t, Kernel, b, length) <==> FreeRun(u, Kernel, b, length)
    {
    }
  }

  /** A free run and a block of mapped pages do not meet. */
  lemma BlockApart(s: map<Slot, Entry>, t: map<Slot, Entry>, base: nat, len: nat, at: nat, ent: seq<Entry>, b: nat,
                   total: nat)
    requires Reblocked(s, t, base, len, at, ent) && FreeRun(t, Kernel, b, total) && |ent| < total
    ensures Apart(b, at, |ent|) && Vacant(t, Kernel, b, |ent|)
    ensures forall v {:trigger Pte(Kernel, v)} ::
              at <= v < at + |ent| ==> Pte(Kernel, v) in t && t[Pte(Kernel, v)] == ent[v - at]
  {
    forall v | at <= v < at + |ent|
      ensures Pte(Kernel, v) in t && t[Pte(Kernel, v)] == ent[v - at]
    {
      assert EntryAt(t, at, ent, v - at);
    }
    assert at <= b < at + |ent| ==> Pte(Kernel, b) in t;
    assert b <= at < b + |ent| && |ent| > 0 ==> Pte(Kernel, at) in t;
  }

  /** The page behind the moved block is still free. */
  lemma StillVacant(t: map<Slot, Entry>, u: map<Slot, Entry>, b: nat, at: nat, n: nat, total: nat)
    requires FreeRun(t, Kernel, b, total) && n < total && Relocated(t, u, Kernel, b, at, n)
    ensures Pte(Kernel, b + n) !in u
  {
    assert Pte(Kernel, b + n) !in t;
  }

  /** The entries of a block. */
  ghost function EntriesOf(s: map<Slot, Entry>, base: nat, n: nat): seq<Entry>
    requires forall v {:trigger Pte(Kernel, v)} :: base <= v < base + n ==> Pte(Kernel, v) in s
  {
    seq(n, i requires 0 <= i < n => s[Pte(Kernel, base + i)])
  }

  lemma ReblockedNone(s: map<Slot, Entry>, base: nat, n: nat)
    requires forall v {:trigger Pte(Kernel, v)} :: base <= v < base + n ==> Pte(Kernel, v) in s
    ensures Reblocked(s, s, base, n, base, EntriesOf(s, base, n))
  {
  }

  /** Pages that belong to the kernel's bookkeeping stay outside the block. */
  lemma BlockNotOwned(sh: Shape, t: map<Slot, Entry>, base: nat, len: nat, at: nat, ent: seq<Entry>)
    requires Sound(sh) && Reblocked(sh.slots, t, base, len, at, ent)
    requires forall o :: o in sh.kmap ==> !(base <= sh.kmap[o] < base + len)
    ensures forall o :: o in sh.kmap ==> !(at <= sh.kmap[o] < at + |ent|)
  {
    forall o | o in sh.kmap
      ensures !(at <= sh.kmap[o] < at + |ent|)
    {
      assert OwnerOk(sh, o);
      assert !InBlock(Pte(Kernel, sh.kmap[o]), Kernel, base, len);
    }
  }

  /** No process sees kernel pages come, go or move. */
  lemma ReblockedView(s: map<Slot, Entry>, t: map<Slot, Entry>, data: map<nat, Page>, base: nat, len: nat, at: nat,
                      ent: seq<Entry>)
    requires Reblocked(s, t, base, len, at, ent)
    ensures View(t, data) == View(s, data)
  {
    forall k
      ensures k in View(t, data) <==> k in View(s, data)
      ensures k in View(s, data) ==> View(t, data)[k] == View(s, data)[k]
    {
      assert k in s ==> k in s;
      if k in t && k.Pte? && k.space.User? {
        assert k in s;
      }
    }
  }

  /** Fewer pages of the block. */
  lemma ReblockedCut(s: map<Slot, Entry>, base: nat, n: nat, keep: nat, gone: set<Slot>)
    requires (forall v {:trigger Pte(Kernel, v)} :: base <= v < base + n ==> Pte(Kernel, v) in s) && keep <= n
    requires forall k :: k in s ==> (k in gone <==> InBlock(k, Kernel, base + keep, n - keep))
    ensures Reblocked(s, s - gone, base, n, base, EntriesOf(s, base, n)[..keep])
  {
    var ent, t := EntriesOf(s, base, n)[..keep], s - gone;
    forall k | k in s && !InBlock(k, Kernel, base, n)
      ensures k in t && t[k] == s[k] && !InBlock(k, Kernel, base, |ent|)
    {
    }
    forall i | 0 <= i < |ent|
      ensures EntryAt(t, base, ent, i)
    {
      assert Pte(Kernel, base + i) in s;
    }
  }

  lemma CutView(s: map<Slot, Entry>, data: map<nat, Page>, base: nat, n: nat, keep: nat, gone: set<Slot>)
    requires (forall v {:trigger Pte(Kernel, v)} :: base <= v < base + n ==> Pte(Kernel, v) in s) && keep <= n
    requires forall k :: k in s ==> (k in gone <==> InBlock(k, Kernel, base + keep, n - keep))
    ensures Reblocked(s, s - gone, base, n, base, EntriesOf(s, base, n)[..keep])
            && View(s - gone, data) == View(s, data)
  {
    ReblockedCut(s, base, n, keep, gone);
    ReblockedView(s, s - gone, data, base, n, base, EntriesOf(s, base, n)[..keep]);
  }

  lemma GrownPresent(s: map<Slot, Entry>, base: nat, len: nat, ent: seq<Entry>, rw: bool, user: bool)
    requires forall v {:trigger Pte(Kernel, v)} ::
               base <= v < base + len ==> Pte(Kernel, v) in s && s[Pte(Kernel, v)].Present?
    requires Grown(EntriesOf(s, base, len), ent, rw, user)
    ensures forall i :: 0 <= i < |ent| ==> ent[i].Present?
  {
    forall i | 0 <= i < |ent|
      ensures ent[i].Present?
    {
      if i < len {
        assert ent[i] == EntriesOf(s, base, len)[i] == s[Pte(Kernel, base + i)];
      }
    }
  }

  /** What a grown or cut block has in common with the old one. */
  lemma CommonPart(s: map<Slot, Entry>, base: nat, len: nat, ent: seq<Entry>, rw: bool, user: bool)
    requires forall v {:trigger Pte(Kernel, v)} :: base <= v < base + len ==> Pte(Kernel, v) in s
    requires Grown(EntriesOf(s, base, len), ent, rw, user) || ent <= EntriesOf(s, base, len)
    ensures forall i :: 0 <= i < len && i < |ent| ==> Pte(Kernel, base + i) in s && ent[i] == s[Pte(Kernel, base + i)]
  {
    var was := EntriesOf(s, base, len);
    forall i | 0 <= i < len && i < |ent|
      ensures Pte(Kernel, base + i) in s && ent[i] == s[Pte(Kernel, base + i)]
    {
      assert ent[i] == was[i];
    }
  }

  lemma GrownMore(was: seq<Entry>, ent: seq<Entry>, rw: bool, user: bool, f: nat)
    requires Grown(was, ent, rw, user)
    ensures Grown(was, ent + [Present(rw, user, Plain, f)], rw, user)
  {
  }

  /** While the block stands where it stood, the pages behind it are free if they were. */
  lemma BehindFree(s: map<Slot, Entry>, t: map<Slot, Entry>, base: nat, len: nat, at: nat, ent: seq<Entry>, total: nat)
    requires Reblocked(s, t, base, len, at, ent) && len <= |ent| < total
    ensures Vacant(s, Kernel, base + len, total - len) && at == base ==> Pte(Kernel, at + |ent|) !in t
  {
    var k := Pte(Kernel, at + |ent|);
    if Vacant(s, Kernel, base + len, total - len) && at == base {
      assert k !in s;
      assert k in t ==> InBlock(k, Kernel, at, |ent|);
    }
  }

  /** A block that did not exist has no start. */
  lemma SameStart(s: map<Slot, Entry>, t: map<Slot, Entry>, base: nat, base': nat, len: nat, at: nat, ent: seq<Entry>)
    requires Reblocked(s, t, base', len, at, ent) && (base == base' || len == 0)
    ensures Reblocked(s, t, base, len, at, ent)
  {
    assert len == 0 ==> forall k :: !InBlock(k, Kernel, base, len) && !InBlock(k, Kernel, base', len);
  }

  /** The slots hit by releasing the end of a block. */
  lemma CutRange(sh: Shape, base: nat, len: nat, keep: nat)
    requires Sound(sh) && keep <= len && base + len <= KERNEL_LIMIT && forall o ::
               o in sh.kmap ==> !(base <= sh.kmap[o] < base + len)
    ensures forall k ::
              k in sh.slots ==>
              (k in Hits(sh.slots, Kernel, base + keep, len - keep, false) <==>
              InBlock(k, Kernel, base + keep, len - keep))
    ensures forall o :: o in sh.kmap ==> !InRange(base + keep, len - keep, sh.kmap[o])
    ensures (forall v {:trigger Pte(Kernel, v)} :: base <= v < base + len ==> Pte(Kernel, v) in sh.slots) ==>
              AllThere(sh.slots, Kernel, base + keep, len - keep, false)
  {
    InRangeSimple(base + keep, len - keep);
    forall o | o in sh.kmap
      ensures !InRange(base + keep, len - keep, sh.kmap[o])
    {
      assert OwnerOk(sh, o) && SlotOk(sh, Pte(Kernel, sh.kmap[o]));
    }
    forall k | k in sh.slots
      ensures k in Hits(sh.slots, Kernel, base + keep, len - keep, false) <==>
                InBlock(k, Kernel, base + keep, len - keep)
    {
      assert SlotOk(sh, k);
    }
  }

  // ----- what the kernel reads -----

  function ByteOf(data: map<nat, Page>, f: nat, offset: nat): bv8 {
    if f in data && offset < |data[f]| then data[f][offset] else 0
  }

  predicate Readable(slots: map<Slot, Entry>, x: nat) {
    Pte(Kernel, x / PAGE_SIZE) in slots && slots[Pte(Kernel, x / PAGE_SIZE)].Present?
  }

  /** The bytes at all kernel addresses that are mapped. */
  ghost function KernelMemory(slots: map<Slot, Entry>, data: map<nat, Page>): map<nat, bv8> {
    map x: nat | x < KERNEL_LIMIT * PAGE_SIZE && Readable(slots, x) ::
      ByteOf(data, slots[Pte(Kernel, x / PAGE_SIZE)].frame, x % PAGE_SIZE)
  }

  lemma PageAndOffset(page: nat, i: nat)
    ensures (page * PAGE_SIZE + i) / PAGE_SIZE == page + i / PAGE_SIZE
            && (page * PAGE_SIZE + i) % PAGE_SIZE == i % PAGE_SIZE
  {
  }

  /** Entries that moved take their bytes along. */
  lemma BytesCarried(s: map<Slot, Entry>, t: map<Slot, Entry>, data: map<nat, Page>, base: nat, len: nat, at: nat,
                     ent: seq<Entry>)
    requires Reblocked(s, t, base, len, at, ent) && at + |ent| <= KERNEL_LIMIT
    requires forall i :: 0 <= i < len && i < |ent| ==> Pte(Kernel, base + i) in s && ent[i] == s[Pte(Kernel, base + i)]
    ensures Carried(KernelMemory(s, data), KernelMemory(t, data), base * PAGE_SIZE, len * PAGE_SIZE, at * PAGE_SIZE,
                |ent| * PAGE_SIZE)
  {
    var m, m' := KernelMemory(s, data), KernelMemory(t, data);
    var a, b, k, n := base * PAGE_SIZE, at * PAGE_SIZE, len * PAGE_SIZE, |ent| * PAGE_SIZE;
    forall i: nat | i < k && i < n
      ensures CarriedAt(m, m', a, b, i)
    {
      PageAndOffset(base, i);
      PageAndOffset(at, i);
      assert EntryAt(t, at, ent, i / PAGE_SIZE);
    }
    forall x: nat | !(a <= x < a + k) && !(b <= x < b + n)
      ensures LeftAt(m, m', x)
    {
      assert !InBlock(Pte(Kernel, x / PAGE_SIZE), Kernel, base, len);
    }
  }
}
