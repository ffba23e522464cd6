/** What the loops of paging.c do to the slots, and what the processes see of it. */
module PagingSteps {
  import opened Sequences
  import opened FrameAccounting
  import opened PageTables

  /** Page x is visited by a loop over `length` pages from `page`, addresses wrapping at 4 GB. */
  predicate InRange(page: nat, length: nat, x: nat) { (x - page) % PAGE_COUNT < length }

  predicate Hit(k: Slot, e: Entry, s: Space, page: nat, length: nat, userOnly: bool) {
    k.Pte? && k.space == s && InRange(page, length, k.page) && (userOnly ==> e.user)
  }

  /** The slots that releasing the range takes away. */
  ghost function Hits(slots: map<Slot, Entry>, s: Space, page: nat, length: nat, userOnly: bool): set<Slot> {
    set k | k in slots && Hit(k, slots[k], s, page, length, userOnly)
  }

  /** One more page: at most its own slot goes, and nothing once all pages were visited. */
  lemma HitsStep(slots: map<Slot, Entry>, s: Space, page: nat, n: nat, userOnly: bool)
    requires page < PAGE_COUNT
    requires forall k :: k in slots && k.Pte? ==> k.page < PAGE_COUNT
    ensures var k := Pte(s, (page + n) % PAGE_COUNT);
            Hits(slots, s, page, n + 1, userOnly) == Hits(slots, s, page, n, userOnly) +
              if k in slots && (userOnly ==> slots[k].user) then {k} else {}
    ensures n < PAGE_COUNT ==> Pte(s, (page + n) % PAGE_COUNT) !in Hits(slots, s, page, n, userOnly)
    ensures n >= PAGE_COUNT ==> Hits(slots, s, page, n + 1, userOnly) == Hits(slots, s, page, n, userOnly)
  {
    if n < PAGE_COUNT {
      RangeStep(page, n);
    } else {
      assert forall x: nat :: InRange(page, n, x) && InRange(page, n + 1, x);
    }
  }

  ghost predicate AllThere(slots: map<Slot, Entry>, s: Space, page: nat, length: nat, userOnly: bool) {
    forall x {:trigger Pte(s, x)} :: 0 <= x < PAGE_COUNT && InRange(page, length, x) ==>
      Pte(s, x) in slots && (userOnly ==> slots[Pte(s, x)].user)
  }

  lemma ThereStep(slots: map<Slot, Entry>, s: Space, page: nat, n: nat, userOnly: bool)
    requires page < PAGE_COUNT
    ensures var k := Pte(s, (page + n) % PAGE_COUNT);
            n < PAGE_COUNT ==>
              (AllThere(slots, s, page, n + 1, userOnly) <==>
               AllThere(slots, s, page, n, userOnly) && k in slots && (userOnly ==> slots[k].user))
  {
    if n < PAGE_COUNT {
      RangeStep(page, n);
      assert InRange(page, n + 1, (page + n) % PAGE_COUNT);
    }
  }

  /** The slots hit so far are gone, with their reservations and temporary mappings. */
  ghost predicate Released(slots0: map<Slot, Entry>, resv0: set<Slot>, temp0: set<nat>,
                           slots: map<Slot, Entry>, resv: set<Slot>, temp: set<nat>, s: Space, page: nat, n: nat,
                               userOnly: bool)
  {
    var hits := Hits(slots0, s, page, n, userOnly);
    && slots == slots0 - hits && resv == resv0 - hits
    && temp == if s.Kernel? then set t | t in temp0 && Pte(s, t) !in hits else temp0
  }

  lemma ReleasedNone(slots0: map<Slot, Entry>, resv0: set<Slot>, temp0: set<nat>, s: Space, page: nat, userOnly: bool)
    ensures Released(slots0, resv0, temp0, slots0, resv0, temp0, s, page, 0, userOnly)
  {
    assert Hits(slots0, s, page, 0, userOnly) == {};
  }

  lemma ReleasedStep(slots0: map<Slot, Entry>, resv0: set<Slot>, temp0: set<nat>,
                     slots1: map<Slot, Entry>, resv1: set<Slot>, temp1: set<nat>,
                     slots: map<Slot, Entry>, resv: set<Slot>, temp: set<nat>, s: Space, page: nat, n: nat,
                         userOnly: bool, there: bool)
    requires page < PAGE_COUNT && forall k :: k in slots0 && k.Pte? ==> k.page < PAGE_COUNT
    requires Released(slots0, resv0, temp0, slots1, resv1, temp1, s, page, n, userOnly)
    requires var k := Pte(s, (page + n) % PAGE_COUNT);
             && there == (k in slots1 && (userOnly ==> slots1[k].user))
             && slots == (if there then slots1 - {k} else slots1) && resv == (if there then resv1 - {k} else resv1)
             && temp == if there && s.Kernel? then temp1 - {k.page} else temp1
    ensures Released(slots0, resv0, temp0, slots, resv, temp, s, page, n + 1, userOnly)
    ensures n + 1 <= PAGE_COUNT && AllThere(slots0, s, page, n + 1, userOnly) <==>
            there && n <= PAGE_COUNT && AllThere(slots0, s, page, n, userOnly)
  {
    HitsStep(slots0, s, page, n, userOnly);
    ThereStep(slots0, s, page, n, userOnly);
    var k := Pte(s, (page + n) % PAGE_COUNT);
    var hits, more := Hits(slots0, s, page, n, userOnly), Hits(slots0, s, page, n + 1, userOnly);
    if n >= PAGE_COUNT {
      assert k in slots0 && (userOnly ==> slots0[k].user) ==> k in hits;
    }
    assert there ==> more == hits + {k};
    assert !there ==> more == hits;
  }

  lemma DropView(slots: map<Slot, Entry>, data: map<nat, Page>, gone: set<Slot>)
    ensures View(slots - gone, data) == View(slots, data) - gone
  {}

  /** `t` is `s` with pages [base, base + n) of space `s0` filled, plus kernel bookkeeping. */
  ghost predicate Filled(s: map<Slot, Entry>, t: map<Slot, Entry>, s0: Space, base: nat, n: nat, rw: bool, user: bool) {
    && (forall k :: k in s ==> k in t && t[k] == s[k])
    && (forall k ::
       k in t && k !in s && k.Pte? && (k.space.User? || s0.Kernel?) ==> k.space == s0 && base <= k.page < base + n)
    && (forall v {:trigger Pte(s0, v)} :: base <= v < base + n ==>
          Pte(s0, v) in t && t[Pte(s0, v)].Present? && t[Pte(s0, v)] == Present(rw, user, Plain, t[Pte(s0, v)].frame))
  }

  /** Bookkeeping only grows, and only for processes. */
  ghost predicate MoreOwners(s: Space, a: map<Owner, nat>, b: map<Owner, nat>) {
    && (forall o :: o in a ==> o in b && b[o] == a[o])
    && (forall o :: o in b && o !in a ==> o.TableOf?)
    && (s.Kernel? ==> b == a)
  }

  lemma FilledStep(s: map<Slot, Entry>, t: map<Slot, Entry>, u: map<Slot, Entry>, s0: Space, base: nat, n: nat,
                   rw: bool, user: bool)
    requires Filled(s, t, s0, base, n, rw, user) && Filled(t, u, s0, base + n, 1, rw, user)
    ensures Filled(s, u, s0, base, n + 1, rw, user)
  {}

  function FrameAt(t: map<Slot, Entry>, k: Slot): nat { if k in t && t[k].Present? then t[k].frame else 0 }

  /** The pages [base, base + n) have frames that were free (not in `was`), each its own. */
  ghost predicate OwnFrames(t: map<Slot, Entry>, s0: Space, base: nat, n: nat, was: set<nat>, used: set<nat>) {
    && was <= used
    && (forall v {:trigger Pte(s0, v)} :: base <= v < base + n ==> FrameAt(t, Pte(s0, v)) in used - was)
    && (forall v, w {:trigger Pte(s0, v), Pte(s0, w)} ::
       base <= v < w < base + n ==> FrameAt(t, Pte(s0, v)) != FrameAt(t, Pte(s0, w)))
  }

  lemma OwnFramesStep(t: map<Slot, Entry>, u: map<Slot, Entry>, s0: Space, base: nat, n: nat, was: set<nat>,
                      used: set<nat>, used': set<nat>,
                      rw: bool, user: bool)
    requires OwnFrames(t, s0, base, n, was, used) && OwnFrames(u, s0, base + n, 1, used, used')
    requires (forall v {:trigger Pte(s0, v)} :: base <= v < base + n ==> Pte(s0, v) in t)
             && Filled(t, u, s0, base + n, 1, rw, user)
    ensures OwnFrames(u, s0, base, n + 1, was, used')
  {
    forall v | base <= v < base + n
      ensures FrameAt(u, Pte(s0, v)) == FrameAt(t, Pte(s0, v))
    {
    }
  }

  /** Kernel pages that can be lent to a process. */
  predicate Lendable(slots: map<Slot, Entry>, src: nat, n: nat) {
    forall v {:trigger Pte(Kernel, v)} :: src <= v < src + n ==>
      Pte(Kernel, v) in slots && slots[Pte(Kernel, v)].Present? && slots[Pte(Kernel, v)].avail == Plain
  }

  /** `t` is `s` with n kernel pages from src on lent to process p at dst, plus kernel bookkeeping. */
  ghost predicate Lent(s: map<Slot, Entry>, t: map<Slot, Entry>, p: nat, dst: nat, src: nat, n: nat, rw: bool) {
    && (forall k :: k in s ==> k in t && t[k] == s[k])
    && (forall k :: k in t && k !in s && k.Pte? && k.space.User? ==>
          k.space == User(p) && dst <= k.page < dst + n && !t[k].user)
    && (forall v {:trigger LentAt(s, t, p, dst, src, v, rw)} :: 0 <= v < n ==> LentAt(s, t, p, dst, src, v, rw))
  }

  predicate LentAt(s: map<Slot, Entry>, t: map<Slot, Entry>, p: nat, dst: nat, src: nat, v: nat, rw: bool) {
    var k, c := Pte(Kernel, src + v), Pte(User(p), dst + v);
    k in s && s[k].Present? && c !in s && c in t && t[c] == Present(rw, false, Plain, s[k].frame)
  }

  lemma LentOne(s: map<Slot, Entry>, m: map<Slot, Entry>, p: nat, dst: nat, src: nat, rw: bool)
    requires Extends(s, m) && Lendable(s, src, 1) && Pte(User(p), dst) !in m
    ensures Pte(Kernel, src) in m && m[Pte(Kernel, src)].Present?
    ensures Lent(s, m[Pte(User(p), dst) := Present(rw, false, Plain, m[Pte(Kernel, src)].frame)], p, dst, src, 1, rw)
  {
    assert Pte(Kernel, src) in s;
  }

  lemma LentStep(s: map<Slot, Entry>, t: map<Slot, Entry>, u: map<Slot, Entry>, p: nat, dst: nat, src: nat, n: nat,
                 length: nat, rw: bool)
    requires Lent(s, t, p, dst, src, n, rw) && Lent(t, u, p, dst + n, src + n, 1, rw) && Lendable(s, src, length)
             && n < length
    ensures Lent(s, u, p, dst, src, n + 1, rw)
  {
    forall v | 0 <= v < n + 1
      ensures LentAt(s, u, p, dst, src, v, rw)
    {
      if v < n {
        assert LentAt(s, t, p, dst, src, v, rw);
      } else {
        assert LentAt(t, u, p, dst + n, src + n, 0, rw);
        assert Pte(Kernel, src + n) in s;
      }
    }
  }

  lemma LentView(s: map<Slot, Entry>, t: map<Slot, Entry>, data: map<nat, Page>, p: nat, dst: nat, src: nat, n: nat,
                 rw: bool)
    requires Lent(s, t, p, dst, src, n, rw)
    ensures View(t, data) == View(s, data)
  {
  }

  lemma FilledKernelView(s: map<Slot, Entry>, t: map<Slot, Entry>, data: map<nat, Page>, base: nat, n: nat, rw: bool,
                         user: bool)
    requires Filled(s, t, Kernel, base, n, rw, user)
    ensures View(t, data) == View(s, data)
  {
    assert Extends(s, t);
    ExtendsView(s, t, data);
  }

  /** A page table (bookkeeping from s to m), then one page. */
  lemma FilledOne(s: map<Slot, Entry>, m: map<Slot, Entry>, s0: Space, page: nat, rw: bool, user: bool, f: nat,
                  was: set<nat>, used: set<nat>)
    requires Extends(s, m) && (s0.Kernel? ==> forall k :: k in m && k !in s ==> k.Pde?) && Pte(s0, page) !in m
    requires was <= used && f in used - was
    ensures var t := m[Pte(s0, page) := Present(rw, user, Plain, f)];
            Filled(s, t, s0, page, 1, rw, user) && OwnFrames(t, s0, page, 1, was, used)
  {
  }

  /** What fork leaves in the parent's slot, and puts into the child's. */
  function Cowed(e: Entry): Entry {
    if e.Present? && e.avail == Plain && e.rw then e.(rw := false, avail := Cow) else e
  }

  /** `t` is `s` after the pages [lo, hi) of src were forked into dst, plus kernel bookkeeping. */
  ghost predicate Forked(s: map<Slot, Entry>, t: map<Slot, Entry>, src: nat, dst: nat, lo: nat, hi: nat) {
    && (forall k :: k in s ==>
          k in t && t[k] == if k.Pte? && k.space == User(src) && lo <= k.page < hi then Cowed(s[k]) else s[k])
    && (forall k :: k in t && k !in s && k.Pte? && k.space.User? ==>
          k.space == User(dst) && lo <= k.page < hi && Pte(User(src), k.page) in s)
    && (forall v {:trigger Pte(User(src), v)} :: lo <= v < hi && Pte(User(src), v) in s ==>
          Pte(User(dst), v) in t && t[Pte(User(dst), v)] == Cowed(s[Pte(User(src), v)]))
  }

  lemma ForkedOne(s: map<Slot, Entry>, m: map<Slot, Entry>, t: map<Slot, Entry>, src: nat, dst: nat, page: nat)
    requires src != dst && Extends(s, m) && Pte(User(src), page) in s && Pte(User(dst), page) !in s
    requires var e := Cowed(s[Pte(User(src), page)]);
             t == m[Pte(User(src), page) := e][Pte(User(dst), page) := e]
    ensures Forked(s, t, src, dst, page, page + 1)
  {}

  lemma ForkedStep(s: map<Slot, Entry>, t: map<Slot, Entry>, u: map<Slot, Entry>, src: nat, dst: nat, i: nat)
    requires src != dst && (forall page :: Pte(User(dst), page) !in s)
    requires Forked(s, t, src, dst, 0, i) && Forked(t, u, src, dst, i, i + 1)
    ensures Forked(s, u, src, dst, 0, i + 1)
  {
    forall v | 0 <= v < i + 1 && Pte(User(src), v) in s
      ensures Pte(User(dst), v) in u && u[Pte(User(dst), v)] == Cowed(s[Pte(User(src), v)])
    {
      assert Pte(User(src), v) in t;
    }
  }

  lemma ForkedSkip(s: map<Slot, Entry>, t: map<Slot, Entry>, src: nat, dst: nat, i: nat, next: nat)
    requires Forked(s, t, src, dst, 0, i) && i <= next
    requires next == i / TABLE_COUNT * TABLE_COUNT + TABLE_COUNT && Pde(User(src), i / TABLE_COUNT) !in t
    requires forall k :: k in s && k.Pte? ==> Pde(k.space, k.page / TABLE_COUNT) in s
    ensures Forked(s, t, src, dst, 0, next)
  {
    forall v: nat | i <= v < next
      ensures Pte(User(src), v) !in s
    {
      assert v / TABLE_COUNT == i / TABLE_COUNT;
      assert Pde(User(src), v / TABLE_COUNT) !in s;
    }
  }

  lemma ForkedView(s: map<Slot, Entry>, t: map<Slot, Entry>, data: map<nat, Page>, src: nat, dst: nat)
    requires Forked(s, t, src, dst, 0, PAGE_COUNT) && src != dst
    requires forall k :: k in s && k.Pte? ==> k.page < PAGE_COUNT
    requires forall page :: Pte(User(dst), page) !in s
    ensures View(t, data) == ForkView(View(s, data), src, dst)
  {
    var w, x := View(t, data), ForkView(View(s, data), src, dst);
    forall k
      ensures k in w <==> k in x
      ensures k in w ==> w[k] == x[k]
    {
      ForkedViewAt(s, t, data, src, dst, k);
    }
  }

  lemma ForkedViewAt(s: map<Slot, Entry>, t: map<Slot, Entry>, data: map<nat, Page>, src: nat, dst: nat, k: Slot)
    requires Forked(s, t, src, dst, 0, PAGE_COUNT) && src != dst
    requires forall k :: k in s && k.Pte? ==> k.page < PAGE_COUNT
    requires forall page :: Pte(User(dst), page) !in s
    ensures var w, x := View(t, data), ForkView(View(s, data), src, dst);
            (k in w <==> k in x) && (k in w ==> w[k] == x[k])
  {
    var v, w := View(s, data), View(t, data);
    if k.Pte? && k.space == User(dst) {
      assert k !in v;
      assert Pte(User(src), k.page) in v <==> k in w;
    } else {
      assert k in w <==> k in v;
    }
  }

  lemma RefsGrow(s: map<Slot, Entry>, t: map<Slot, Entry>, pend: multiset<nat>, f: nat)
    requires Extends(s, t)
    ensures Refs(t, pend, f) >= Refs(s, pend, f)
  {
    SubsetSize(Namers(s, f), Namers(t, f));
  }

  /** Two free kernel pages of `s` were mapped. */
  ghost predicate TwoMapped(s: map<Slot, Entry>, t: map<Slot, Entry>, a: nat, b: nat, f: nat, g: nat) {
    && Pte(Kernel, a) !in s && Pte(Kernel, b) !in s && Pte(Kernel, a) in t && Pte(Kernel, b) in t
    && Names(t[Pte(Kernel, a)], f) && Names(t[Pte(Kernel, b)], g)
    && Extends(s, t)
  }

  lemma DuplicateView(s: map<Slot, Entry>, t: map<Slot, Entry>, data: map<nat, Page>, k: Slot, f: nat)
    requires k in s && IsUser(k, s[k]) && s[k].avail == Cow && Namers(s, f) == {}
    requires Extends(s[k := Present(true, true, Plain, f)], t)
    ensures View(t, data[f := Content(data, s[k].frame)]) == View(s, data)
  {
    Unnamed(s, f);
  }

  ghost function Poke(v: map<Slot, VPage>, k: Slot, offset: nat, b: bv8): map<Slot, VPage>
    requires k in v && offset < |v[k].bytes|
  {
    v[k := v[k].(bytes := v[k].bytes[offset := b])]
  }

  /** Bytes behind a writable user page are seen at that page only. */
  lemma WriteView(slots: map<Slot, Entry>, temp: set<nat>, data: map<nat, Page>, k: Slot, pg: Page)
    requires Isolated(slots, temp) && k in slots && IsUser(k, slots[k]) && slots[k].rw
    ensures View(slots, data[slots[k].frame := pg]) == View(slots, data)[k := VPage(true, pg)]
  {
    forall j | j in slots && IsUser(j, slots[j]) && j != k
      ensures slots[j].frame != slots[k].frame
    {
      assert Compat(slots, temp, k, j);
    }
  }

  ghost function PagesOf(slots: map<Slot, Entry>, p: nat, n: nat): set<Slot> {
    set k | k in slots && k.Pte? && k.space == User(p) && k.page < n
  }

  lemma PagesOfStep(slots: map<Slot, Entry>, p: nat, n: nat)
    ensures PagesOf(slots, p, n + 1) == PagesOf(slots, p, n) + if Pte(User(p),
                n) in slots then {Pte(User(p), n)} else {}
    ensures Pte(User(p), n) !in PagesOf(slots, p, n)
  {}

  lemma PagesOfSkip(slots: map<Slot, Entry>, p: nat, i: nat, next: nat)
    requires next == i / TABLE_COUNT * TABLE_COUNT + TABLE_COUNT
             && Pde(User(p), i / TABLE_COUNT) !in slots - PagesOf(slots, p, i)
    requires forall k :: k in slots && k.Pte? ==> Pde(k.space, k.page / TABLE_COUNT) in slots
    ensures PagesOf(slots, p, next) == PagesOf(slots, p, i)
  {
    forall k | k in PagesOf(slots, p, next)
      ensures k in PagesOf(slots, p, i)
    {
      if k.page >= i {
        assert k.page / TABLE_COUNT == i / TABLE_COUNT;
      }
    }
  }

  lemma NoPagesLeft(s: map<Slot, Entry>, t: map<Slot, Entry>, p: nat)
    requires t == s - PagesOf(s, p, PAGE_COUNT) && forall k :: k in s && k.Pte? ==> k.page < PAGE_COUNT
    ensures forall v :: Pte(User(p), v) !in t
  {}

  lemma PagesOfView(slots: map<Slot, Entry>, data: map<nat, Page>, p: nat)
    requires forall k :: k in slots && k.Pte? ==> k.page < PAGE_COUNT
    ensures View(slots - PagesOf(slots, p, PAGE_COUNT), data) == View(slots, data) - OfProcess(View(slots, data), p)
  {}

  /** Only kernel slots and page-directory entries of `s0` disappear. */
  ghost predicate Shrinks(s: map<Slot, Entry>, t: map<Slot, Entry>, s0: Space) {
    && (forall k :: k in t ==> k in s && t[k] == s[k])
    && (forall k :: k in s && k !in t ==> k.space.Kernel? || (k.Pde? && k.space == s0))
  }

  lemma ShrinksView(s: map<Slot, Entry>, t: map<Slot, Entry>, data: map<nat, Page>, s0: Space)
    requires Shrinks(s, t, s0)
    ensures View(t, data) == View(s, data)
  {}

  ghost function KernelPages(lo: nat, hi: nat): set<Slot> {
    set v | lo <= v < hi :: Pte(Kernel, v)
  }

  /** The kernel pages [base, base + n) were free and are reserved now. */
  ghost predicate Held(s: map<Slot, Entry>, t: map<Slot, Entry>, base: nat, n: nat) {
    && (forall k :: k in s ==> k in t && t[k] == s[k])
    && (forall k :: k in t && k !in s && k.Pte? ==> k.space == Kernel && base <= k.page < base + n)
    && (forall v {:trigger Pte(Kernel, v)} :: base <= v < base + n ==>
          Pte(Kernel, v) !in s && Pte(Kernel, v) in t && t[Pte(Kernel, v)].Reserved?)
  }

  /** A reserved slot takes a frame that is held. */
  lemma FillKeepsAccounts(used: set<nat>, extra: map<nat, nat>, slots: map<Slot, Entry>, pend: multiset<nat>,
                          holes: set<nat>, w: Slot, e: Entry)
    requires Accounts(used, extra, slots, pend, holes) && w in slots && slots[w].Reserved? && e.Present?
             && pend[e.frame] > 0
    ensures Accounts(used, extra, slots[w := e], pend - multiset{e.frame}, holes)
  {
    UnreserveKeepsAccounts(used, extra, slots, pend, holes, w);
    PutKeepsAccounts(used, extra, slots - {w}, pend, holes, w, e);
    assert (slots - {w})[w := e] == slots[w := e];
  }

  lemma IsolatedWindow(slots: map<Slot, Entry>, temp: set<nat>, page: nat, e: Entry)
    requires Isolated(slots, temp) && Pte(Kernel, page) in slots && slots[Pte(Kernel, page)].Reserved?
    ensures Isolated(slots[Pte(Kernel, page) := e], temp + {page})
  {
    var t := slots[Pte(Kernel, page) := e];
    forall i, j | i in t && j in t
      ensures Compat(t, temp + {page}, i, j)
    {
      assert Compat(slots, temp, i, j);
    }
  }

  lemma WindowView(s: map<Slot, Entry>, t: map<Slot, Entry>, data: map<nat, Page>, page: nat)
    requires Pte(Kernel, page) in s && Pte(Kernel, page) in t && t == s[Pte(Kernel, page) := t[Pte(Kernel, page)]]
    ensures View(t, data) == View(s, data)
  {}

  /** The process may access all the pages of the range, for writing if `rw`. */
  ghost predicate Accessible(v: map<Slot, VPage>, p: nat, page: nat, length: nat, rw: bool) {
    forall x {:trigger Pte(User(p), x)} :: 0 <= x < PAGE_COUNT && InRange(page, length, x) ==>
      Pte(User(p), x) in v && (rw ==> v[Pte(User(p), x)].writable)
  }

  lemma AccessibleStep(v: map<Slot, VPage>, p: nat, page: nat, n: nat, rw: bool)
    requires page < PAGE_COUNT && n < PAGE_COUNT
    ensures var k := Pte(User(p), (page + n) % PAGE_COUNT);
            Accessible(v, p, page, n + 1, rw) <==> Accessible(v, p, page, n, rw) && k in v && (rw ==> v[k].writable)
  {
    var k := Pte(User(p), (page + n) % PAGE_COUNT);
    RangeStep(page, n);
    assert InRange(page, n + 1, k.page);
  }

  lemma AccessibleLess(v: map<Slot, VPage>, p: nat, page: nat, m: nat, n: nat, rw: bool)
    requires m <= n && !Accessible(v, p, page, m, rw)
    ensures !Accessible(v, p, page, n, rw)
  {}

  /** Going one page further adds exactly one page. */
  lemma RangeStep(page: nat, n: nat)
    requires page < PAGE_COUNT && n < PAGE_COUNT
    ensures forall x {:trigger InRange(page, n + 1, x)} :: 0 <= x < PAGE_COUNT ==>
              (InRange(page, n + 1, x) <==> InRange(page, n, x) || x == (page + n) % PAGE_COUNT)
    ensures !InRange(page, n, (page + n) % PAGE_COUNT)
  {
    forall x | 0 <= x < PAGE_COUNT
      ensures InRange(page, n + 1, x) <==> InRange(page, n, x) || x == (page + n) % PAGE_COUNT
    {
      RangeOffset(page, n, x);
    }
    RangeOffset(page, n, (page + n) % PAGE_COUNT);
  }

  lemma RangeOffset(page: nat, n: nat, x: nat)
    requires page < PAGE_COUNT && n < PAGE_COUNT && x < PAGE_COUNT
    ensures (x - page) % PAGE_COUNT == n <==> x == (page + n) % PAGE_COUNT
  {
    assert (x - page) % PAGE_COUNT == if x >= page then x - page else x - page + PAGE_COUNT;
    assert (page + n) % PAGE_COUNT == if page + n < PAGE_COUNT then page + n else page + n - PAGE_COUNT;
  }

  lemma InRangeSimple(base: nat, length: nat)
    requires base + length <= PAGE_COUNT
    ensures forall x: nat {:trigger InRange(base, length, x)} :: x < PAGE_COUNT ==>
              (InRange(base, length, x) <==> base <= x < base + length)
  {
    forall x: nat | x < PAGE_COUNT
      ensures InRange(base, length, x) <==> base <= x < base + length
    {
      assert (x - base) % PAGE_COUNT == if x >= base then x - base else x - base + PAGE_COUNT;
    }
  }

  /** Kernel page v shows page `page + (v - base)` of process p. */
  predicate WindowOk(slots: map<Slot, Entry>, p: nat, page: nat, base: nat, v: nat, rw: bool)
    requires base <= v
  {
    var k, w := Pte(User(p), (page + (v - base)) % PAGE_COUNT), Pte(Kernel, v);
    && k in slots && IsUser(k, slots[k]) && (rw ==> slots[k].rw)
    && w in slots && slots[w].Present? && slots[w].frame == slots[k].frame
  }

  ghost predicate Windowed(slots: map<Slot, Entry>, p: nat, page: nat, base: nat, n: nat, rw: bool) {
    forall v: nat {:trigger WindowOk(slots, p, page, base, v, rw)} ::
      base <= v < base + n ==> WindowOk(slots, p, page, base, v, rw)
  }

  lemma WindowedStep(s: map<Slot, Entry>, t: map<Slot, Entry>, p: nat, page: nat, base: nat, n: nat, rw: bool)
    requires Windowed(s, p, page, base, n, rw) && page < PAGE_COUNT && n < PAGE_COUNT
    requires var k := Pte(User(p), (page + n) % PAGE_COUNT);
             && k in s && k in t && IsUser(k, t[k]) && (rw ==> t[k].rw)
             && Extends(s[k := t[k]][Pte(Kernel, base + n) := t[k].(rw := rw, user := false)], t)
    ensures Windowed(t, p, page, base, n + 1, rw)
  {
    var k := Pte(User(p), (page + n) % PAGE_COUNT);
    forall v: nat | base <= v < base + n + 1
      ensures WindowOk(t, p, page, base, v, rw)
    {
      if v < base + n {
        assert WindowOk(s, p, page, base, v, rw);
        OtherPage(page, v - base, n);
      } else {
        assert Pte(Kernel, v) in t;
      }
    }
  }

  lemma OtherPage(page: nat, m: nat, n: nat)
    requires m < n < PAGE_COUNT && page < PAGE_COUNT
    ensures (page + m) % PAGE_COUNT != (page + n) % PAGE_COUNT
  {
    assert (page + m) % PAGE_COUNT == if page + m < PAGE_COUNT then page + m else page + m - PAGE_COUNT;
    assert (page + n) % PAGE_COUNT == if page + n < PAGE_COUNT then page + n else page + n - PAGE_COUNT;
  }

  /** All temporary and reserved pages lie in [base, base + n). */
  ghost predicate Borrowed(temp: set<nat>, resv: set<Slot>, base: nat, n: nat) {
    && (forall t :: t in temp ==> base <= t < base + n)
    && (forall k :: k in resv ==> k.Pte? && k.space == Kernel && base <= k.page < base + n)
  }

  ghost predicate Waiting(resv: set<Slot>, lo: nat, hi: nat) {
    forall v {:trigger Pte(Kernel, v)} :: lo <= v < hi ==> Pte(Kernel, v) in resv
  }

  lemma OwnersMissed(kmap: map<Owner, nat>, s: Space, page: nat, n: nat, length: nat)
    requires page < PAGE_COUNT && n < length
             && (s.Kernel? ==> forall o :: o in kmap ==> !InRange(page, length, kmap[o]))
    ensures s.Kernel? ==> forall o :: o in kmap ==> kmap[o] != (page + n) % PAGE_COUNT
  {
    assert InRange(page, length, (page + n) % PAGE_COUNT);
  }

  /** All kernel pages of the range are in use. */
  ghost predicate Spanned(slots: map<Slot, Entry>, base: nat, n: nat) {
    forall v {:trigger Pte(Kernel, v)} :: base <= v < base + n ==> Pte(Kernel, v) in slots
  }

  /** Pages that became windows and pages still reserved. */
  lemma WindowsSpan(sh: Shape, p: nat, page: nat, base: nat, n: nat, length: nat, rw: bool)
    requires Sound(sh) && Windowed(sh.slots, p, page, base, n, rw) && Waiting(sh.resv, base + n, base + length)
             && n <= length
    ensures Spanned(sh.slots, base, length)
  {
    forall v | base <= v < base + length
      ensures Pte(Kernel, v) in sh.slots
    {
      if v < base + n { assert WindowOk(sh.slots, p, page, base, v, rw); }
    }
  }

  lemma OwnersBounded(sh: Shape)
    requires Sound(sh)
    ensures forall o :: o in sh.kmap ==> sh.kmap[o] < PAGE_COUNT
  {
    forall o | o in sh.kmap
      ensures sh.kmap[o] < PAGE_COUNT
    {
      assert OwnerOk(sh, o);
      assert SlotOk(sh, Pte(Kernel, sh.kmap[o]));
    }
  }

  /** Releasing the borrowed range releases everything borrowed. */
  lemma BorrowedHit(sh: Shape, base: nat, n: nat)
    requires Sound(sh) && Borrowed(sh.temp, sh.resv, base, n) && base + n <= PAGE_COUNT
    ensures sh.resv <= Hits(sh.slots, Kernel, base, n, false)
    ensures forall t :: t in sh.temp ==> Pte(Kernel, t) in Hits(sh.slots, Kernel, base, n, false)
  {
    InRangeSimple(base, n);
  }

  lemma OwnersOutside(sh: Shape, base: nat, length: nat)
    requires Sound(sh) && forall v {:trigger Pte(Kernel, v)} ::
               base <= v < base + length ==> Pte(Kernel, v) !in sh.slots
    ensures forall o :: o in sh.kmap ==> !(base <= sh.kmap[o] < base + length)
  {
    forall o | o in sh.kmap
      ensures !(base <= sh.kmap[o] < base + length)
    {
      assert OwnerOk(sh, o);
    }
  }

  lemma HeldView(s: map<Slot, Entry>, t: map<Slot, Entry>, data: map<nat, Page>, base: nat, n: nat)
    requires Held(s, t, base, n)
    ensures View(t, data) == View(s, data)
  {}

  lemma KernelGone(v: map<Slot, VPage>, slots: map<Slot, Entry>, data: map<nat, Page>, gone: set<Slot>)
    requires v == View(slots, data) && forall k :: k in gone ==> k.space == Kernel
    ensures v - gone == v
  {}

  /** The kernel's copy as the process sees it: page after page replaced. */
  ghost function Stored(v: map<Slot, VPage>, p: nat, page: nat, pages: seq<Page>): map<Slot, VPage> {
    map k | k in v ::
      if k.Pte? && k.space == User(p) && InRange(page, |pages|, k.page)
      then v[k].(bytes := pages[(k.page - page) % PAGE_COUNT]) else v[k]
  }

  lemma StoredNone(v: map<Slot, VPage>, p: nat, page: nat, pages: seq<Page>)
    ensures Stored(v, p, page, pages[..0]) == v
  {}

  lemma StoredStep(v: map<Slot, VPage>, w: map<Slot, VPage>, p: nat, page: nat, pages: seq<Page>, n: nat)
    requires page < PAGE_COUNT && n < |pages| && n < PAGE_COUNT && w == Stored(v, p, page, pages[..n])
    requires forall k :: k in w && k.Pte? ==> k.page < PAGE_COUNT
    requires Pte(User(p), (page + n) % PAGE_COUNT) in w && w[Pte(User(p), (page + n) % PAGE_COUNT)].writable
    ensures Stored(v, p, page, pages[..n + 1]) == w[Pte(User(p), (page + n) % PAGE_COUNT) := VPage(true, pages[n])]
  {
    var k := Pte(User(p), (page + n) % PAGE_COUNT);
    assert w.Keys == v.Keys;
    RangeStep(page, n);
    RangeOffset(page, n, k.page);
    forall j | j in v && j.Pte? && j.space == User(p) && j != k
      ensures InRange(page, n + 1, j.page) <==> InRange(page, n, j.page)
    {
    }
  }

  predicate ShowsAt(v: map<Slot, VPage>, p: nat, page: nat, got: seq<Page>, j: nat)
    requires j < |got|
  {
    var k := Pte(User(p), (page + j) % PAGE_COUNT);
    k in v && got[j] == v[k].bytes
  }

  /** `got` are the bytes the process sees from `page` on. */
  ghost predicate Shows(v: map<Slot, VPage>, p: nat, page: nat, got: seq<Page>) {
    forall j: nat {:trigger ShowsAt(v, p, page, got, j)} :: j < |got| ==> ShowsAt(v, p, page, got, j)
  }

  lemma ShowsStep(v: map<Slot, VPage>, p: nat, page: nat, got: seq<Page>, next: Page)
    requires Shows(v, p, page, got)
    requires var k := Pte(User(p), (page + |got|) % PAGE_COUNT); k in v && next == v[k].bytes
    ensures Shows(v, p, page, got + [next])
  {
    var more := got + [next];
    forall j: nat | j < |more|
      ensures ShowsAt(v, p, page, more, j)
    {
      assert j < |got| ==> ShowsAt(v, p, page, got, j);
    }
  }

  // ----- the machine without sharing -----

  /** Processes and the pages they see; a fork copies every page at once. */
  datatype Ideal = Ideal(live: set<nat>, mem: map<Slot, VPage>)

  datatype Op =
    | Spawn(p: nat)
    | Exit(p: nat)
    | Fork(src: nat, dst: nat)
    | Alloc(p: nat, length: nat)
    | Release(p: nat, page: nat, length: nat)
    | Store(p: nat, page: nat, offset: nat, b: bv8)
    | KernelStore(p: nat, page: nat, pages: seq<Page>)
    | KernelLoad(p: nat, page: nat, length: nat)
    | AllocFixed(p: nat, page: nat, length: nat)
    | MapRemote(p: nat, dst: nat, src: nat, length: nat, rw: bool)
    | KernelAlloc(length: nat)
    | KernelRelease(page: nat, length: nat)
    | KernelReAlloc(page: nat, length: nat, total: nat)

  predicate OpOk(op: Op) {
    match op
    case Alloc(_, length) => length <= 0xFFFF_FFFF - KERNEL_LIMIT
    case AllocFixed(_, page, length) => page + length <= PAGE_COUNT
    case MapRemote(_, dst, _, length, _) => dst + length <= PAGE_COUNT
    case Release(_, page, _) => page < PAGE_COUNT
    case Store(_, _, offset, _) => offset < PAGE_SIZE
    case KernelStore(_, page, pages) =>
      page < PAGE_COUNT && 0 < |pages| <= 0xFFFF_FFFF - KERNEL_LIMIT && forall j ::
          0 <= j < |pages| ==> |pages[j]| == PAGE_SIZE
    case KernelLoad(_, page, length) => page < PAGE_COUNT && 0 < length <= 0xFFFF_FFFF - KERNEL_LIMIT
    case KernelAlloc(length) => length <= 0xFFFF_FFFF - KERNEL_LIMIT
    case KernelRelease(page, _) => page < PAGE_COUNT
    case KernelReAlloc(page, length, total) =>
      if page == 0 then length == 0 && total <= KERNEL_LIMIT
      else page + length <= KERNEL_LIMIT && page + total <= KERNEL_LIMIT
    case _ => true
  }

  /** What the processes can see of the operation happens; they see nothing of what the kernel does for itself. */
  predicate Enabled(live: set<nat>, op: Op) {
    match op
    case Spawn(p) => p !in live
    case Fork(src, dst) => src in live && dst !in live
    case KernelAlloc(_) => false
    case KernelRelease(_, _) => false
    case KernelReAlloc(_, _, _) => false
    case _ => op.p in live
  }

  /** Out of frames, or without room for one of these lengths in the kernel, or with a reference count that is full. */
  predicate StopKind(why: Failure, lengths: set<nat>, refs: bool) {
    match why
    case OutOfFrames => true
    case RefOverflow(_) => refs
    case SpaceFull(n) => n in lengths
    case AddressInUse(_, _) => false
  }

  predicate InUseWithin(why: Failure, p: nat, page: nat, length: nat) {
    why.AddressInUse? && why.space == User(p) && page <= why.page < page + length
  }

  /** The reasons for which the kernel can stop in an operation. */
  predicate MayStop(op: Op, why: Failure) {
    match op
    case Spawn(_) => StopKind(why, {1}, false)
    case Exit(_) => false
    case Fork(_, _) => StopKind(why, {1}, true)
    case Alloc(_, _) => StopKind(why, {1}, false)
    case Release(_, _, _) => false
    case Store(_, _, _, _) => StopKind(why, {1}, true)
    case KernelStore(_, _, pages) => StopKind(why, {1, |pages|}, true)
    case KernelLoad(_, _, length) => StopKind(why, {1, length}, true)
    case AllocFixed(p, page, length) =>
      StopKind(why, {1}, false) || InUseWithin(why, p, page, length) || (page == 0 && why == AddressInUse(User(p), 0))
    case MapRemote(p, dst, _, length, _) => StopKind(why, {1}, true) || InUseWithin(why, p, dst, length)
    case KernelAlloc(_) => StopKind(why, {1}, false)
    case KernelRelease(_, _) => false
    case KernelReAlloc(_, _, total) => StopKind(why, {total}, false)
  }

  /** Exactly the given pages of process p, none of which it had, have appeared, all writable. */
  ghost predicate NewPages(v: map<Slot, VPage>, w: map<Slot, VPage>, p: nat, base: nat, length: nat) {
    && (forall k :: k in v ==> k in w && w[k] == v[k])
    && (forall k ::
       k in w && k !in v ==> k.Pte? && k.space == User(p) && base <= k.page < base + length && w[k].writable)
    && (forall x {:trigger Pte(User(p), x)} ::
       base <= x < base + length ==> Pte(User(p), x) in w && Pte(User(p), x) !in v)
  }

  lemma FilledPages(s: map<Slot, Entry>, t: map<Slot, Entry>, data: map<nat, Page>, p: nat, base: nat, length: nat)
    requires Filled(s, t, User(p), base, length, true, true)
    requires forall x {:trigger Pte(User(p), x)} :: base <= x < base + length ==> Pte(User(p), x) !in s
    ensures NewPages(View(s, data), View(t, data), p, base, length)
  {
    var v, w := View(s, data), View(t, data);
    forall x | base <= x < base + length
      ensures Pte(User(p), x) in w && Pte(User(p), x) !in v
    {
      assert Pte(User(p), x) in t;
    }
  }

  ghost predicate IdealStep(i: Ideal, op: Op, j: Ideal) {
    if !Enabled(i.live, op) then j == i else
    match op
    case Spawn(p) => j == Ideal(i.live + {p}, i.mem)
    case Exit(p) => j == Ideal(i.live - {p}, i.mem - OfProcess(i.mem, p))
    case Fork(src, dst) => j == Ideal(i.live + {dst}, ForkView(i.mem, src, dst))
    case Alloc(p, length) => j == i || (j.live == i.live && exists base :: NewPages(i.mem, j.mem, p, base, length))
    case AllocFixed(p, page, length) => j.live == i.live && NewPages(i.mem, j.mem, p, page, length)
    case Release(p, page, length) =>
      j == Ideal(i.live, i.mem - set k | k in i.mem && k.Pte? && k.space == User(p) && InRange(page, length, k.page))
    case Store(p, page, offset, b) =>
      var k := Pte(User(p), page);
      j == if k in i.mem && i.mem[k].writable
          && offset < |i.mem[k].bytes| then Ideal(i.live, Poke(i.mem, k, offset, b)) else i
    case KernelStore(p, page, pages) =>
      j == if Accessible(i.mem, p, page, |pages|, true) then Ideal(i.live, Stored(i.mem, p, page, pages)) else i
    case _ => j == i
  }
}
