/** What operations need: free frames, free kernel pages, and room in the reference counts. */
module PagingBudget {
  import opened Sequences
  import opened FrameAccounting
  import opened PageTables
  import opened AreaSearch
  import opened PagingSteps

  // ----- frames and kernel pages -----

  ghost function FreeFrames(used: set<nat>): set<nat> { set f: nat | LOW_LIMIT <= f < PAGE_COUNT && f !in used }

  ghost function FreePages(slots: map<Slot, Entry>): set<nat> {
    set v: nat | 1 <= v < KERNEL_LIMIT && Pte(Kernel, v) !in slots
  }

  /** Number of frames that can be allocated. */
  ghost function Frames(used: set<nat>): nat { |FreeFrames(used)| }

  /** Number of kernel pages that are free. */
  ghost function Room(slots: map<Slot, Entry>): nat { |FreePages(slots)| }

  lemma FrameTaken(used: set<nat>, f: nat)
    requires f !in used && LOW_LIMIT <= f < PAGE_COUNT
    ensures Frames(used + {f}) == Frames(used) - 1
  {
    assert f in FreeFrames(used);
    assert FreeFrames(used + {f}) == FreeFrames(used) - {f};
  }

  lemma NoFrames(used: set<nat>)
    requires forall f :: LOW_LIMIT <= f < PAGE_COUNT ==> f in used
    ensures Frames(used) == 0
  {
    assert FreeFrames(used) == {};
  }

  /** Slots that are not kernel pages do not take kernel pages. */
  lemma SameRoom(s: map<Slot, Entry>, t: map<Slot, Entry>)
    requires forall v: nat :: Pte(Kernel, v) in s <==> Pte(Kernel, v) in t
    ensures Room(t) == Room(s)
  {
    assert FreePages(t) == FreePages(s);
  }

  lemma PageTaken(s: map<Slot, Entry>, page: nat, e: Entry)
    requires 1 <= page < KERNEL_LIMIT && Pte(Kernel, page) !in s
    ensures Room(s[Pte(Kernel, page) := e]) == Room(s) - 1
  {
    assert page in FreePages(s);
    assert FreePages(s[Pte(Kernel, page) := e]) == FreePages(s) - {page};
  }

  lemma NoPages(s: map<Slot, Entry>)
    requires forall v :: 1 <= v < KERNEL_LIMIT ==> Pte(Kernel, v) in s
    ensures Room(s) == 0
  {
    assert FreePages(s) == {};
  }

  /** At most so many frames and kernel pages went, and what is new names frames that were free. */
  ghost predicate Spent(slots: map<Slot, Entry>, used: set<nat>, slots': map<Slot, Entry>, used': set<nat>, frames: nat,
                        pages: nat) {
    && used <= used' && NamesFresh(slots, slots', used) && (forall k :: k in slots ==> k in slots')
    && Frames(used') + frames >= Frames(used) && Room(slots') + pages >= Room(slots)
  }

  lemma SpentTrans(s: map<Slot, Entry>, x: set<nat>, t: map<Slot, Entry>, y: set<nat>, u: map<Slot, Entry>, z: set<nat>,
                   frames: nat, pages: nat, frames': nat, pages': nat)
    requires Spent(s, x, t, y, frames, pages) && Spent(t, y, u, z, frames', pages')
    requires forall k :: k in t ==> k in u && u[k] == t[k]
    ensures Spent(s, x, u, z, frames + frames', pages + pages')
  {
  }

  // ----- fork -----

  /** The page tables of a process. */
  ghost function Tables(slots: map<Slot, Entry>, p: nat): set<nat> {
    set i: nat | i < TABLE_COUNT && Pde(User(p), i) in slots
  }

  /** The pages of a process that name the frame. */
  ghost function NamersIn(slots: map<Slot, Entry>, p: nat, f: nat): set<Slot> {
    set k | k in Namers(slots, f) && k.Pte? && k.space == User(p)
  }

  /** The references to a frame there would be after a fork. */
  ghost function ForkCount(slots: map<Slot, Entry>, src: nat, f: nat): nat {
    |Namers(slots, f)| + |NamersIn(slots, src, f)|
  }

  /** Besides the pages of dst, what is new names frames that were free. */
  ghost predicate BookFresh(s: map<Slot, Entry>, t: map<Slot, Entry>, dst: nat, used: set<nat>) {
    forall k :: k in t && k !in s ==> (k.Pte? && k.space == User(dst)) || (t[k].Present? && t[k].frame !in used)
  }

  /** Each page table of dst cost at most two frames and a kernel page. */
  ghost predicate Budget(slots0: map<Slot, Entry>, used0: set<nat>, slots: map<Slot, Entry>, used: set<nat>, dst: nat) {
    && Frames(used) + 2 * |Tables(slots, dst)| >= Frames(used0) + 2 * |Tables(slots0, dst)|
    && Room(slots) + |Tables(slots, dst)| >= Room(slots0) + |Tables(slots0, dst)|
  }

  /** Fork has no more tables to make than the parent has. */
  ghost predicate Forking(slots0: map<Slot, Entry>, used0: set<nat>, slots: map<Slot, Entry>, used: set<nat>, src: nat,
                          dst: nat) {
    && used0 <= used && BookFresh(slots0, slots, dst, used0) && Tables(slots0, dst) == {}
    && Tables(slots, dst) <= Tables(slots0, src) && Budget(slots0, used0, slots, used, dst)
  }

  /** What keeps a fork from going through, page directory aside. */
  ghost predicate ForkShort(slots: map<Slot, Entry>, used: set<nat>, src: nat) {
    || Frames(used) < 2 * |Tables(slots, src)| || Room(slots) < |Tables(slots, src)| || ForkOverflows(slots, src)
  }

  /** The count of a frame of the process would exceed the limit. */
  ghost predicate ForkOverflows(slots: map<Slot, Entry>, src: nat) {
    exists f {:trigger ForkCount(slots, src, f)} :: NamersIn(slots, src, f) != {} && ForkCount(slots, src, f) > REF_MAX
  }

  /** What a fork needs: a page directory, and a page table for each that the parent has. */
  ghost predicate ForkFits(slots: map<Slot, Entry>, used: set<nat>, src: nat) {
    Frames(used) >= 3 + 2 * |Tables(slots, src)| && Room(slots) >= 2 + |Tables(slots, src)|
  }

  lemma TableMade(s: map<Slot, Entry>, x: set<nat>, t: map<Slot, Entry>, y: set<nat>, dst: nat, i: nat)
    requires Frames(y) + 2 >= Frames(x) && Room(t) + 1 >= Room(s) && i < TABLE_COUNT
    requires Pde(User(dst), i) !in s && Pde(User(dst), i) in t && (forall k :: k in s ==> k in t)
    requires forall k :: k in t && k !in s ==> !(k.Pde? && k.space == User(dst)) || k == Pde(User(dst), i)
    ensures Tables(t, dst) == Tables(s, dst) + {i} && Budget(s, x, t, y, dst)
  {
  }

  lemma ForkingStep(slots0: map<Slot, Entry>, used0: set<nat>, was: map<Slot, Entry>, used1: set<nat>,
                    now: map<Slot, Entry>, used2: set<nat>, src: nat, dst: nat, i: nat)
    requires Forking(slots0, used0, was, used1, src, dst) && used1 <= used2 && BookFresh(was, now, dst, used1)
    requires Budget(was, used1, now, used2, dst) && Tables(now, dst) <= Tables(was, dst) + {i}
             && i in Tables(slots0, src)
    requires forall k :: k in was ==> k in now && (was[k].Present? ==> now[k].Present? && now[k].frame == was[k].frame)
    ensures Forking(slots0, used0, now, used2, src, dst)
  {
  }

  /** Not enough for one more table. */
  lemma NoTableLeft(slots0: map<Slot, Entry>, used0: set<nat>, slots: map<Slot, Entry>, used: set<nat>, src: nat,
                    dst: nat,
                    i: nat)
    requires Forking(slots0, used0, slots, used, src, dst) && i in Tables(slots0, src) && i !in Tables(slots, dst)
    requires Frames(used) < 2 || Room(slots) == 0
    ensures ForkShort(slots0, used0, src)
  {
    assert Tables(slots, dst) <= Tables(slots0, src) - {i};
    SubsetSize(Tables(slots, dst), Tables(slots0, src) - {i});
  }

  /** The pages of src before i that name the frame. */
  ghost function NamersBefore(slots: map<Slot, Entry>, src: nat, f: nat, i: nat): set<Slot> {
    set k | k in NamersIn(slots, src, f) && k.page < i
  }

  /** Where fork puts the copies of these pages. */
  ghost function Copies(pages: set<Slot>, dst: nat): set<Slot> {
    set k | k in pages && k.Pte? :: Pte(User(dst), k.page)
  }

  lemma {:induction false} SameSize(pages: set<Slot>, src: nat, dst: nat)
    requires forall k :: k in pages ==> k.Pte? && k.space == User(src)
    ensures |Copies(pages, dst)| == |pages|
    decreases |pages|
  {
    if pages == {} {
      assert Copies(pages, dst) == {};
    } else {
      var k :| k in pages;
      SameSize(pages - {k}, src, dst);
      assert Pte(User(dst), k.page) !in Copies(pages - {k}, dst);
      assert Copies(pages, dst) == Copies(pages - {k}, dst) + {Pte(User(dst), k.page)};
    }
  }

  /** Who names a frame of the parent while the first i pages have been shared. */
  lemma ForkedNamers(slots0: map<Slot, Entry>, used0: set<nat>, slots: map<Slot, Entry>, src: nat, dst: nat, i: nat,
                     f: nat)
    requires src != dst && Forked(slots0, slots, src, dst, 0, i) && (forall page :: Pte(User(dst), page) !in slots0)
    requires BookFresh(slots0, slots, dst, used0) && f in used0
    requires forall k :: k in slots0 && k.Pte? && k.space == User(src) ==> slots0[k].Present?
    ensures |Namers(slots, f)| == |Namers(slots0, f)| + |NamersBefore(slots0, src, f, i)|
  {
    var copies := Copies(NamersBefore(slots0, src, f, i), dst);
    forall k
      ensures k in Namers(slots, f) <==> k in Namers(slots0, f) || k in copies
    {
      if k in slots && k !in slots0 && k.Pte? && k.space == User(dst) {
        assert Pte(User(src), k.page) in slots0;
      }
    }
    assert Namers(slots, f) == Namers(slots0, f) + copies;
    SameSize(NamersBefore(slots0, src, f, i), src, dst);
  }

  /** The count of page i's frame is full before the page is shared. */
  lemma CountFull(slots0: map<Slot, Entry>, used0: set<nat>, slots: map<Slot, Entry>, src: nat, dst: nat, i: nat)
    requires src != dst && Forked(slots0, slots, src, dst, 0, i) && (forall page :: Pte(User(dst), page) !in slots0)
    requires BookFresh(slots0, slots, dst, used0) && Pte(User(src), i) in slots0 && slots0[Pte(User(src), i)].Present?
    requires forall k :: k in slots0 && k.Pte? && k.space == User(src) ==> slots0[k].Present?
    requires slots0[Pte(User(src), i)].frame in used0 && |Namers(slots, slots0[Pte(User(src), i)].frame)| >= REF_MAX
    ensures ForkOverflows(slots0, src)
  {
    var k, f := Pte(User(src), i), slots0[Pte(User(src), i)].frame;
    ForkedNamers(slots0, used0, slots, src, dst, i, f);
    var before := NamersBefore(slots0, src, f, i);
    assert k in NamersIn(slots0, src, f) && k !in before;
    SubsetSize(before, NamersIn(slots0, src, f) - {k});
    assert ForkCount(slots0, src, f) > REF_MAX;
  }

  lemma NoRunNoPages(slots: map<Slot, Entry>)
    requires FirstFit(slots, Kernel, 1, None)
    ensures Room(slots) == 0
  {
    forall v | 1 <= v < KERNEL_LIMIT
      ensures Pte(Kernel, v) in slots
    {
      assert !FreeRun(slots, Kernel, v, 1);
    }
    NoPages(slots);
  }

  /** A page table that is there, or is made. */
  lemma TableBudget(s: map<Slot, Entry>, x: set<nat>, t: map<Slot, Entry>, y: set<nat>, dst: nat, i: nat)
    requires i < TABLE_COUNT && Pde(User(dst), i) in t && (forall k :: k in s ==> k in t)
    requires Pde(User(dst), i) in s ==> t == s && y == x
    requires Frames(y) + 2 >= Frames(x) && Room(t) + 1 >= Room(s)
    requires forall k :: k in t && k !in s ==> k.space.Kernel? || k == Pde(User(dst), i)
    ensures Budget(s, x, t, y, dst) && Tables(t, dst) <= Tables(s, dst) + {i}
  {
    if Pde(User(dst), i) !in s { TableMade(s, x, t, y, dst, i); }
  }

  /** New page tables do not name the frame of a page that is there. */
  lemma SameNamers(slots: map<Slot, Entry>, used: set<nat>, extra: map<nat, nat>, pend: multiset<nat>, holes: set<nat>,
                   t: map<Slot, Entry>, k: Slot)
    requires Accounts(used, extra, slots, pend, holes) && k in slots && slots[k].Present?
    requires Extends(slots, t) && NamesFresh(slots, t, used)
    ensures Namers(t, slots[k].frame) == Namers(slots, slots[k].frame)
  {
    var f := slots[k].frame;
    NamedHasRef(slots, pend, k);
    assert FrameOk(used, extra, slots, pend, holes, f);
  }

  lemma DemotedNamers(slots: map<Slot, Entry>, k: Slot)
    requires k in slots && slots[k].Present?
    ensures Namers(slots[k := Cowed(slots[k])], slots[k].frame) == Namers(slots, slots[k].frame)
  {
  }

  /** Sharing a page costs nothing more. */
  lemma SharedBudget(s: map<Slot, Entry>, x: set<nat>, m: map<Slot, Entry>, y: set<nat>, k: Slot, c: Slot, dst: nat)
    requires Budget(s, x, m, y, dst) && k in s && k in m && m[k].Present? && k.Pte? && k.space.User?
    requires c.Pte? && c.space == User(dst) && NamesFresh(s, m, x)
    ensures var t := m[k := Cowed(m[k])][c := Cowed(m[k])];
            BookFresh(s, t, dst, x) && Budget(s, x, t, y, dst) && Tables(t, dst) == Tables(m, dst)
  {
    var t := m[k := Cowed(m[k])][c := Cowed(m[k])];
    SameRoom(m, t);
    assert Tables(t, dst) == Tables(m, dst);
  }

  /** The pages of a process are there and their frames in use. */
  ghost predicate Backed(slots: map<Slot, Entry>, used: set<nat>, p: nat) {
    forall k :: k in slots && k.Pte? && k.space == User(p) ==> slots[k].Present? && slots[k].frame in used
  }

  lemma ForkStopped(slots0: map<Slot, Entry>, used0: set<nat>, slots: map<Slot, Entry>, used: set<nat>, src: nat,
                    dst: nat,
                    i: nat)
    requires src != dst && Forked(slots0, slots, src, dst, 0, i) && (forall page :: Pte(User(dst), page) !in slots0)
    requires Forking(slots0, used0, slots, used, src, dst) && Backed(slots0, used0, src)
    requires Pte(User(src), i) in slots0 && Pte(User(src), i) in slots && slots[Pte(User(src), i)].Present?
    requires i / TABLE_COUNT in Tables(slots0, src)
    requires || (Pde(User(dst), i / TABLE_COUNT) !in slots && (Frames(used) < 2 || Room(slots) == 0))
             || |Namers(slots, FrameAt(slots, Pte(User(src), i)))| >= REF_MAX
    ensures ForkShort(slots0, used0, src)
  {
    if Pde(User(dst), i / TABLE_COUNT) !in slots && (Frames(used) < 2 || Room(slots) == 0) {
      NoTableLeft(slots0, used0, slots, used, src, dst, i / TABLE_COUNT);
    } else {
      CountFull(slots0, used0, slots, src, dst, i);
    }
  }

  /** After a fork no count exceeds the limit. */
  lemma ForkCounted(slots0: map<Slot, Entry>, used0: set<nat>, slots: map<Slot, Entry>, used: set<nat>,
                    extra: map<nat, nat>,
                    holes: set<nat>, src: nat, dst: nat, f: nat)
    requires src != dst && Forked(slots0, slots, src, dst, 0, PAGE_COUNT) && Backed(slots0, used0, src)
    requires (forall page :: Pte(User(dst), page) !in slots0) && BookFresh(slots0, slots, dst, used0)
    requires Accounts(used, extra, slots, multiset{}, holes) && f in used0
    requires forall k :: k in slots0 && k.Pte? ==> k.page < PAGE_COUNT
    ensures ForkCount(slots0, src, f) <= REF_MAX
  {
    ForkedNamers(slots0, used0, slots, src, dst, PAGE_COUNT, f);
    assert NamersBefore(slots0, src, f, PAGE_COUNT) == NamersIn(slots0, src, f);
    assert FrameOk(used, extra, slots, multiset{}, holes, f);
  }

  /** Bookkeeping that names fresh frames does not change what a fork adds up to. */
  lemma SameForkCount(s: map<Slot, Entry>, used: set<nat>, t: map<Slot, Entry>, src: nat, f: nat)
    requires Extends(s, t) && NamesFresh(s, t, used)
    ensures NamersIn(t, src, f) == NamersIn(s, src, f)
    ensures f in used ==> ForkCount(t, src, f) == ForkCount(s, src, f)
  {
    assert NamersIn(t, src, f) == NamersIn(s, src, f);
    if f in used { assert Namers(t, f) == Namers(s, f); }
  }

  /** What is short for the pages is short from the start. */
  lemma StillShort(s: map<Slot, Entry>, x: set<nat>, t: map<Slot, Entry>, y: set<nat>, src: nat)
    requires Spent(s, x, t, y, 3, 2) && Extends(s, t) && ForkShort(t, y, src) && Backed(s, x, src)
    requires Tables(t, src) == Tables(s, src)
    ensures !ForkFits(s, x, src) || ForkOverflows(s, src)
  {
    if ForkOverflows(t, src) {
      var f :| NamersIn(t, src, f) != {} && ForkCount(t, src, f) > REF_MAX;
      SameForkCount(s, x, t, src, f);
      var k :| k in NamersIn(s, src, f);
      assert ForkCount(s, src, f) > REF_MAX;
    }
  }

  /** A run of pages is being filled. */
  ghost predicate Filling(s: map<Slot, Entry>, x: set<nat>, t: map<Slot, Entry>, y: set<nat>, s0: Space, base: nat,
                          n: nat,
                          rw: bool, user: bool) {
    Filled(s, t, s0, base, n, rw, user) && OwnFrames(t, s0, base, n, x, y) && Spent(s, x, t, y, 3 * n, 2 * n)
  }

  lemma FillingNone(s: map<Slot, Entry>, x: set<nat>, s0: Space, base: nat, rw: bool, user: bool)
    ensures Filling(s, x, s, x, s0, base, 0, rw, user)
  {
  }

  lemma FillingStep(s: map<Slot, Entry>, x: set<nat>, t: map<Slot, Entry>, y: set<nat>, u: map<Slot, Entry>,
                    z: set<nat>,
                    s0: Space, base: nat, n: nat, rw: bool, user: bool)
    requires Filling(s, x, t, y, s0, base, n, rw, user) && Filled(t, u, s0, base + n, 1, rw, user)
    requires OwnFrames(u, s0, base + n, 1, y, z) && Spent(t, y, u, z, 3, 2)
    ensures Filling(s, x, u, z, s0, base, n + 1, rw, user)
  {
    OwnFramesStep(t, u, s0, base, n, x, y, z, rw, user);
    FilledStep(s, t, u, s0, base, n, rw, user);
    SpentTrans(s, x, t, y, u, z, 3 * n, 2 * n, 3, 2);
  }

  /** Creation, fork and allocation stop only if there is too little for them at the start; a fixed allocation also if
      it asks for the NULL page or one in use. */
  ghost predicate Lacks(op: Op, slots: map<Slot, Entry>, used: set<nat>) {
    match op
    case Spawn(_) => Frames(used) < 3 || Room(slots) < 2
    case Fork(src, _) => !ForkFits(slots, used, src) || ForkOverflows(slots, src)
    case Alloc(_, length) => Frames(used) < 3 * length || Room(slots) < 2 * length
    case AllocFixed(p, page, length) =>
      || Frames(used) < 3 * length || Room(slots) < 2 * length || page == 0
      || exists v :: page <= v < page + length && Pte(User(p), v) in slots
    case KernelAlloc(length) => Frames(used) < 3 * length || Room(slots) < 2 * length
    case _ => true
  }
}
