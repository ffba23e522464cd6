/** Page tables as values: which entries may share a frame, how the kernel reaches the tables of a
    process, and what each process sees. */
module PageTables {
  import opened FrameAccounting

  /** Kernel pages through which the kernel reaches a process's page directory and page tables
      (the pageDirectory and pageTables fields of struct process). */
  datatype Owner = DirOf(pid: nat) | TableOf(pid: nat, index: nat)

  /** `temp` holds kernel pages that map user frames only within the running operation, `resv` the
      slots reserved within it, `open` the page tables that are half built or half torn down.  All
      three are empty between operations. */
  datatype Shape = Shape(slots: map<Slot, Entry>, kmap: map<Owner, nat>,
                         temp: set<nat>, resv: set<Slot>, open: set<Owner>)

  type Page = seq<bv8>

  predicate IsUser(k: Slot, e: Entry) { k.Pte? && k.space.User? && e.Present? && e.user }

  predicate IsTemp(k: Slot, temp: set<nat>) { k.Pte? && k.space.Kernel? && k.page in temp }

  /** A user page shares its frame only with other user pages, and then none of them is writable. */
  ghost predicate Compat(slots: map<Slot, Entry>, temp: set<nat>, k: Slot, j: Slot)
    requires k in slots && j in slots
  {
    IsUser(k, slots[k]) && j != k && Names(slots[j], slots[k].frame) ==>
      (IsUser(j, slots[j]) && !slots[k].rw && !slots[j].rw) || IsTemp(j, temp)
  }

  ghost predicate Isolated(slots: map<Slot, Entry>, temp: set<nat>) {
    forall k, j {:trigger Compat(slots, temp, k, j)} :: k in slots && j in slots ==> Compat(slots, temp, k, j)
  }

  /** No entry is ever marked shared or no-fork, and copy-on-write entries are read-only. */
  predicate BitsOk(k: Slot, e: Entry, resv: set<Slot>) {
    && (e.Reserved? <==> k in resv)
    && (e.Present? ==> (e.avail == Plain || e.avail == Cow) && (e.avail == Cow ==> !e.rw))
  }

  predicate PageOk(s: Space, page: nat) {
    1 <= page < PAGE_COUNT && (s.Kernel? ==> page < KERNEL_LIMIT)
  }

  predicate TableOk(sh: Shape, k: Slot)
    requires k in sh.slots
  {
    match k
    case Pte(s, page) => PageOk(s, page) && Pde(s, page / TABLE_COUNT) in sh.slots
    case Pde(s, i) =>
      && sh.slots[k].Present? && i < TABLE_COUNT
      && (s.User? ==> TableOf(s.pid, i) in sh.kmap || TableOf(s.pid, i) in sh.open)
  }

  ghost predicate SlotOk(sh: Shape, k: Slot)
    requires k in sh.slots
  {
    BitsOk(k, sh.slots[k], sh.resv) && TableOk(sh, k)
  }

  ghost predicate OwnerOk(sh: Shape, o: Owner)
    requires o in sh.kmap
  {
    var k := Pte(Kernel, sh.kmap[o]);
    && k in sh.slots && sh.slots[k].Present? && sh.kmap[o] !in sh.temp
    && (o.TableOf? ==>
          && DirOf(o.pid) in sh.kmap
          && Pde(User(o.pid), o.index) in sh.slots
          && sh.slots[Pde(User(o.pid), o.index)].Present?
          && sh.slots[k].frame == sh.slots[Pde(User(o.pid), o.index)].frame)
  }

  ghost predicate Injective(kmap: map<Owner, nat>) {
    forall o, q :: o in kmap && q in kmap && kmap[o] == kmap[q] ==> o == q
  }

  ghost predicate Sound(sh: Shape) {
    && Isolated(sh.slots, sh.temp)
    && (forall k {:trigger SlotOk(sh, k)} :: k in sh.slots ==> SlotOk(sh, k))
    && (forall o {:trigger OwnerOk(sh, o)} :: o in sh.kmap ==> OwnerOk(sh, o))
    && Injective(sh.kmap)
    && sh.resv <= sh.slots.Keys
    && (forall t {:trigger t in sh.temp} :: t in sh.temp ==> Pte(Kernel, t) in sh.slots)
  }

  // ----- what the processes see -----

  datatype VPage = VPage(writable: bool, bytes: Page)

  function Content(data: map<nat, Page>, f: nat): Page { if f in data then data[f] else [] }

  /** A page promised to be writable: either it is, or the fault handler will make it so. */
  predicate MayWrite(e: Entry) { e.Present? && (e.rw || e.avail == Cow) }

  ghost function View(slots: map<Slot, Entry>, data: map<nat, Page>): map<Slot, VPage> {
    map k | k in slots && IsUser(k, slots[k]) :: VPage(MayWrite(slots[k]), Content(data, slots[k].frame))
  }

  /** The machine that copies every user page at once when it forks. */
  ghost function ForkView(v: map<Slot, VPage>, src: nat, dst: nat): map<Slot, VPage> {
    var children := set k | k in v && k.Pte? && k.space == User(src) :: Pte(User(dst), k.page);
    v + map c | c in children && Pte(User(src), c.page) in v :: v[Pte(User(src), c.page)]
  }

  ghost function OfProcess(v: map<Slot, VPage>, p: nat): set<Slot> {
    set k | k in v && k.Pte? && k.space == User(p)
  }

  // ----- growth that no process can see -----

  /** Everything stays, and what is new is kernel bookkeeping. */
  ghost predicate Extends(s: map<Slot, Entry>, t: map<Slot, Entry>) {
    && (forall k :: k in s ==> k in t && t[k] == s[k])
    && (forall k :: k in t && k !in s ==> !(k.Pte? && k.space.User?))
  }

  /** What is new names only frames that were free before. */
  ghost predicate NamesFresh(s: map<Slot, Entry>, t: map<Slot, Entry>, used: set<nat>) {
    forall k :: k in t && k !in s ==> t[k].Present? && t[k].frame !in used
  }

  lemma StillUnnamed(s: map<Slot, Entry>, t: map<Slot, Entry>, used: set<nat>, f: nat)
    requires Extends(s, t) && NamesFresh(s, t, used) && f in used && Namers(s, f) == {}
    ensures Namers(t, f) == {}
  {
    forall k | k in t
      ensures !Names(t[k], f)
    {
      if k in s { NamersEmpty(s, f, k); }
    }
  }

  /** Page tables were added, in frames that were free. */
  ghost predicate MoreTables(s: map<Slot, Entry>, t: map<Slot, Entry>, used: set<nat>, used': set<nat>) {
    && Extends(s, t) && NamesFresh(s, t, used) && used <= used'
    && forall k :: k in t && k !in s ==> k.Pde? && k.space.Kernel?
  }

  lemma ExtendsTrans(s: map<Slot, Entry>, t: map<Slot, Entry>, u: map<Slot, Entry>)
    requires Extends(s, t) && Extends(t, u)
    ensures Extends(s, u)
  {}

  lemma ExtendsView(s: map<Slot, Entry>, t: map<Slot, Entry>, data: map<nat, Page>)
    requires Extends(s, t)
    ensures View(t, data) == View(s, data)
  {}

  // ----- the primitive steps keep the shape sound -----

  ghost predicate NoUserNames(slots: map<Slot, Entry>, f: nat) {
    forall k :: k in slots && IsUser(k, slots[k]) ==> slots[k].frame != f
  }

  lemma Unnamed(slots: map<Slot, Entry>, f: nat)
    requires Namers(slots, f) == {}
    ensures NoUserNames(slots, f)
  {
    forall k | k in slots && IsUser(k, slots[k])
      ensures slots[k].frame != f
    {
      NamersEmpty(slots, f, k);
    }
  }

  lemma IsolatedPut(slots: map<Slot, Entry>, temp: set<nat>, k: Slot, e: Entry)
    requires Isolated(slots, temp) && k !in slots
    requires e.Reserved? || (!IsUser(k, e) && (IsTemp(k, temp) || NoUserNames(slots, e.frame)))
          || (IsUser(k, e) && Namers(slots, e.frame) == {})
    ensures Isolated(slots[k := e], temp)
  {
    var t := slots[k := e];
    forall i, j | i in t && j in t
      ensures Compat(t, temp, i, j)
    {
      if i != k && j != k {
        assert Compat(slots, temp, i, j);
      } else if i == k && j != k && IsUser(k, e) {
        NamersEmpty(slots, e.frame, j);
      } else if j == k && i != k && IsUser(k, e) && IsUser(i, slots[i]) {
        NamersEmpty(slots, e.frame, i);
      }
    }
  }

  lemma IsolatedDrop(slots: map<Slot, Entry>, temp: set<nat>, k: Slot)
    requires Isolated(slots, temp)
    ensures Isolated(slots - {k}, temp)
    ensures k.Pte? && k.space.Kernel? ==> Isolated(slots - {k}, temp - {k.page})
  {
    var t := slots - {k};
    forall i, j | i in t && j in t
      ensures Compat(t, temp, i, j)
      ensures k.Pte? && k.space.Kernel? ==> Compat(t, temp - {k.page}, i, j)
    {
      assert Compat(slots, temp, i, j);
    }
  }

  lemma IsolatedMoreTemp(slots: map<Slot, Entry>, temp: set<nat>, page: nat)
    requires Isolated(slots, temp)
    ensures Isolated(slots, temp + {page})
  {
    forall i, j | i in slots && j in slots
      ensures Compat(slots, temp + {page}, i, j)
    {
      assert Compat(slots, temp, i, j);
    }
  }

  /** Taking the write permission away (fork marking the parent's page). */
  lemma IsolatedDemote(slots: map<Slot, Entry>, temp: set<nat>, k: Slot, e: Entry)
    requires Isolated(slots, temp) && k in slots && slots[k].Present?
    requires e.Present? && e == slots[k].(rw := false, avail := e.avail)
    ensures Isolated(slots[k := e], temp)
  {
    var t := slots[k := e];
    forall i, j | i in t && j in t
      ensures Compat(t, temp, i, j)
    {
      assert Compat(slots, temp, i, j);
    }
  }

  /** Giving the write permission back to the only slot that names the frame. */
  lemma IsolatedPromote(slots: map<Slot, Entry>, temp: set<nat>, k: Slot, e: Entry)
    requires Isolated(slots, temp) && k in slots && slots[k].Present?
    requires e == slots[k].(rw := true, avail := Plain)
    requires |Namers(slots, slots[k].frame)| <= 1
    ensures Isolated(slots[k := e], temp)
  {
    var t := slots[k := e];
    forall i, j | i in t && j in t
      ensures Compat(t, temp, i, j)
    {
      assert Compat(slots, temp, i, j);
      if Names(slots[i], slots[k].frame) { SoleNamer(slots, slots[k].frame, k, i); }
      if Names(slots[j], slots[k].frame) { SoleNamer(slots, slots[k].frame, k, j); }
    }
  }

  /** The child shares the parent's read-only page, when nothing temporary maps it. */
  lemma IsolatedShare(slots: map<Slot, Entry>, k: Slot, c: Slot)
    requires Isolated(slots, {}) && k in slots && c !in slots && slots[k].Present? && !slots[k].rw
    requires k.Pte? && k.space.User? && c.Pte? && c.space.User?
    ensures Isolated(slots[c := slots[k]], {})
  {
    var t := slots[c := slots[k]];
    forall i, j | i in t && j in t
      ensures Compat(t, {}, i, j)
    {
      var i', j' := if i == c then k else i, if j == c then k else j;
      assert Compat(slots, {}, i', j');
      assert Compat(slots, {}, j', i');
    }
  }

  /** An empty kernel slot is not a page of the kernel's own bookkeeping. */
  lemma OwnersElsewhere(sh: Shape, k: Slot)
    requires Sound(sh) && k !in sh.slots && k.Pte? && k.space.Kernel?
    ensures forall o :: o in sh.kmap ==> sh.kmap[o] != k.page
  {
    forall o | o in sh.kmap
      ensures sh.kmap[o] != k.page
    {
      assert OwnerOk(sh, o);
    }
  }

  lemma SlotsPut(sh: Shape, k: Slot, e: Entry, sh': Shape)
    requires Sound(sh) && k !in sh.slots && e.Present?
    requires e.avail == Plain || e.avail == Cow
    requires e.avail == Cow ==> !e.rw
    requires sh' == sh.(slots := sh.slots[k := e], temp := sh'.temp)
    requires sh.temp <= sh'.temp && forall o :: o in sh.kmap ==> sh.kmap[o] !in sh'.temp - sh.temp
    requires forall t {:trigger t in sh'.temp} :: t in sh'.temp ==> Pte(Kernel, t) in sh'.slots
    requires TableOk(sh', k)
    requires Isolated(sh'.slots, sh'.temp)
    ensures Sound(sh')
  {
    forall j | j in sh'.slots
      ensures SlotOk(sh', j)
    {
      if j != k { assert SlotOk(sh, j); }
    }
    forall o | o in sh'.kmap
      ensures OwnerOk(sh', o)
    {
      assert OwnerOk(sh, o);
    }
  }

  /** A kernel page starts to name a frame, either one that no process sees or temporarily. */
  lemma SlotsMapKernel(sh: Shape, page: nat, e: Entry, asTemp: bool, sh': Shape)
    requires Sound(sh) && PageOk(Kernel, page) && Pte(Kernel, page) !in sh.slots
             && Pde(Kernel, page / TABLE_COUNT) in sh.slots
    requires e.Present? && e.avail == Plain && (asTemp || NoUserNames(sh.slots, e.frame))
    requires sh' == sh.(slots := sh.slots[Pte(Kernel, page) := e], temp := if asTemp then sh.temp + {page} else sh.temp)
    ensures Sound(sh')
  {
    var k := Pte(Kernel, page);
    if asTemp { IsolatedMoreTemp(sh.slots, sh.temp, page); }
    IsolatedPut(sh.slots, sh'.temp, k, e);
    OwnersElsewhere(sh, k);
    SlotsPut(sh, k, e, sh');
  }

  /** A page table is created for a process, its kernel mapping still missing. */
  lemma SlotsAddPde(sh: Shape, p: nat, i: nat, f: nat, sh': Shape)
    requires Sound(sh) && Namers(sh.slots, f) == {} && i < TABLE_COUNT && Pde(User(p), i) !in sh.slots
    requires sh' == sh.(slots := sh.slots[Pde(User(p), i) := Present(true, true, Plain, f)],
                 open := sh.open + {TableOf(p, i)})
    ensures Sound(sh')
  {
    var k, e := Pde(User(p), i), Present(true, true, Plain, f);
    Unnamed(sh.slots, f);
    OpenAdd(sh, TableOf(p, i));
    IsolatedPut(sh.slots, sh.temp, k, e);
    SlotsPut(sh.(open := sh'.open), k, e, sh');
  }

  /** A page-table slot receives a frame that nothing else names. */
  lemma SlotsPutFresh(sh: Shape, k: Slot, e: Entry, sh': Shape)
    requires Sound(sh) && k !in sh.slots && e.Present? && e.avail == Plain && Namers(sh.slots, e.frame) == {}
    requires sh' == sh.(slots := sh.slots[k := e])
    requires TableOk(sh', k)
    ensures Sound(sh')
  {
    Unnamed(sh.slots, e.frame);
    IsolatedPut(sh.slots, sh.temp, k, e);
    SlotsPut(sh, k, e, sh');
  }

  /** A user page moves to a frame that nothing names. */
  lemma RetargetSound(sh: Shape, k: Slot, e: Entry)
    requires Sound(sh) && k in sh.slots && IsUser(k, sh.slots[k]) && e.Present? && e.avail == Plain
    requires Namers(sh.slots, e.frame) == {}
    ensures Sound(sh.(slots := sh.slots[k := e]))
  {
    var mid := sh.(slots := sh.slots - {k}, resv := sh.resv - {k});
    assert SlotOk(sh, k);
    SlotsDrop(sh, k, mid);
    assert Namers(mid.slots, e.frame) <= Namers(sh.slots, e.frame);
    var end := mid.(slots := mid.slots[k := e]);
    SlotsPutFresh(mid, k, e, end);
    assert end == sh.(slots := sh.slots[k := e]);
  }

  /** A reserved slot is filled in. */
  lemma SlotsFill(sh: Shape, k: Slot, e: Entry, sh': Shape)
    requires Sound(sh) && k in sh.slots && sh.slots[k].Reserved? && e.Present?
    requires k.Pte? && k.space.Kernel? ==> forall o :: o in sh.kmap ==> sh.kmap[o] != k.page
    requires e.avail == Plain || e.avail == Cow
    requires e.avail == Cow ==> !e.rw
    requires sh' == sh.(slots := sh.slots[k := e], temp := sh'.temp, resv := sh.resv - {k})
    requires sh.temp <= sh'.temp && forall o :: o in sh.kmap ==> sh.kmap[o] !in sh'.temp - sh.temp
    requires forall t {:trigger t in sh'.temp} :: t in sh'.temp ==> Pte(Kernel, t) in sh'.slots
    requires Isolated(sh'.slots, sh'.temp)
    ensures Sound(sh')
  {
    assert SlotOk(sh, k);
    forall j | j in sh'.slots
      ensures SlotOk(sh', j)
    {
      assert SlotOk(sh, j);
    }
    forall o | o in sh'.kmap
      ensures OwnerOk(sh', o)
    {
      assert OwnerOk(sh, o);
    }
  }

  /** Only permission bits of a present slot change. */
  lemma SlotsRemark(sh: Shape, k: Slot, e: Entry)
    requires Sound(sh) && k in sh.slots && sh.slots[k].Present? && e.Present? && e.frame == sh.slots[k].frame
    requires e.avail == Plain || e.avail == Cow
    requires e.avail == Cow ==> !e.rw
    requires Isolated(sh.slots[k := e], sh.temp)
    ensures Sound(sh.(slots := sh.slots[k := e]))
  {
    var sh' := sh.(slots := sh.slots[k := e]);
    forall j | j in sh'.slots
      ensures SlotOk(sh', j)
    {
      assert SlotOk(sh, j);
    }
    forall o | o in sh'.kmap
      ensures OwnerOk(sh', o)
    {
      assert OwnerOk(sh, o);
    }
  }

  /** A page-table slot that is no kernel bookkeeping is emptied. */
  lemma SlotsDrop(sh: Shape, k: Slot, sh': Shape)
    requires Sound(sh) && k in sh.slots && k.Pte?
    requires k.space.Kernel? ==> forall o :: o in sh.kmap ==> sh.kmap[o] != k.page
    requires sh' == sh.(slots := sh.slots - {k}, temp := sh'.temp, resv := sh.resv - {k})
    requires sh'.temp == if k.space.Kernel? then sh.temp - {k.page} else sh.temp
    ensures Sound(sh')
  {
    IsolatedDrop(sh.slots, sh.temp, k);
    forall j | j in sh'.slots
      ensures SlotOk(sh', j)
    {
      assert SlotOk(sh, j);
    }
    forall o | o in sh'.kmap
      ensures OwnerOk(sh', o)
    {
      assert OwnerOk(sh, o);
    }
  }

  lemma SlotsReserve(sh: Shape, k: Slot, user: bool, sh': Shape)
    requires Sound(sh) && k !in sh.slots && k.Pte?
    requires sh' == sh.(slots := sh.slots[k := Reserved(user)], resv := sh.resv + {k})
    requires TableOk(sh', k)
    ensures Sound(sh')
  {
    IsolatedPut(sh.slots, sh.temp, k, Reserved(user));
    forall j | j in sh'.slots
      ensures SlotOk(sh', j)
    {
      if j != k { assert SlotOk(sh, j); }
    }
    forall o | o in sh'.kmap
      ensures OwnerOk(sh', o)
    {
      assert OwnerOk(sh, o);
    }
  }

  lemma OpenAdd(sh: Shape, o: Owner)
    requires Sound(sh)
    ensures Sound(sh.(open := sh.open + {o}))
  {
    var sh' := sh.(open := sh.open + {o});
    forall j | j in sh'.slots
      ensures SlotOk(sh', j)
    {
      assert SlotOk(sh, j);
    }
    forall q | q in sh'.kmap
      ensures OwnerOk(sh', q)
    {
      assert OwnerOk(sh, q);
    }
  }

  lemma NoOrphanTable(sh: Shape, p: nat, i: nat)
    requires Sound(sh) && Pde(User(p), i) !in sh.slots
    ensures TableOf(p, i) !in sh.kmap
  {
    assert TableOf(p, i) in sh.kmap ==> OwnerOk(sh, TableOf(p, i));
  }

  /** A frame named by kernel bookkeeping is no user page. */
  lemma KernelFrame(sh: Shape, k: Slot)
    requires Sound(sh) && k in sh.slots && sh.slots[k].Present? && !IsUser(k, sh.slots[k]) && !IsTemp(k, sh.temp)
    ensures NoUserNames(sh.slots, sh.slots[k].frame)
  {
    forall j | j in sh.slots && IsUser(j, sh.slots[j])
      ensures sh.slots[j].frame != sh.slots[k].frame
    {
      assert Compat(sh.slots, sh.temp, j, k);
    }
  }

  /** The kernel gains, or loses, its own mapping of a page directory or page table. */
  lemma OwnerAdd(sh: Shape, o: Owner, page: nat, sh': Shape)
    requires Sound(sh) && o !in sh.kmap
    requires forall q :: q in sh.kmap ==> sh.kmap[q] != page
    requires sh' == sh.(kmap := sh.kmap[o := page], open := sh.open - {o})
    requires OwnerOk(sh', o)
    ensures Sound(sh')
  {
    forall j | j in sh'.slots
      ensures SlotOk(sh', j)
    {
      assert SlotOk(sh, j);
    }
    forall q | q in sh'.kmap
      ensures OwnerOk(sh', q)
    {
      if q != o { assert OwnerOk(sh, q); }
    }
  }

  lemma OwnerDrop(sh: Shape, o: Owner, sh': Shape)
    requires Sound(sh) && o in sh.kmap
    requires o.DirOf? ==> forall i :: TableOf(o.pid, i) !in sh.kmap
    requires sh' == sh.(kmap := sh.kmap - {o}, open := if o.DirOf? then sh.open else sh.open + {o})
    ensures Sound(sh')
  {
    forall j | j in sh'.slots
      ensures SlotOk(sh', j)
    {
      assert SlotOk(sh, j);
    }
    forall q | q in sh'.kmap
      ensures OwnerOk(sh', q)
    {
      assert OwnerOk(sh, q);
    }
  }

  /** A page-directory entry goes away once its table is empty and unmapped. */
  lemma PdeDrop(sh: Shape, p: nat, i: nat, sh': Shape)
    requires Sound(sh) && Pde(User(p), i) in sh.slots && TableOf(p, i) !in sh.kmap
    requires forall page :: Pte(User(p), page) !in sh.slots
    requires sh' == sh.(slots := sh.slots - {Pde(User(p), i)}, open := sh.open - {TableOf(p, i)})
    ensures Sound(sh')
  {
    assert SlotOk(sh, Pde(User(p), i));
    IsolatedDrop(sh.slots, sh.temp, Pde(User(p), i));
    forall j | j in sh'.slots
      ensures SlotOk(sh', j)
    {
      assert SlotOk(sh, j);
    }
    forall o | o in sh'.kmap
      ensures OwnerOk(sh', o)
    {
      assert OwnerOk(sh, o);
    }
  }

  lemma OpenClear(sh: Shape, p: nat, i: nat)
    requires Sound(sh) && sh.open <= {TableOf(p, i)} && Pde(User(p), i) !in sh.slots
    ensures Sound(sh.(open := {}))
  {
    var sh' := sh.(open := {});
    forall j | j in sh'.slots
      ensures SlotOk(sh', j)
    {
      assert SlotOk(sh, j);
    }
    forall o | o in sh'.kmap
      ensures OwnerOk(sh', o)
    {
      assert OwnerOk(sh, o);
    }
  }

  lemma NoTablesLeft(sh: Shape, p: nat)
    requires Sound(sh) && (forall v :: Pte(User(p), v) !in sh.slots)
    requires forall j :: 0 <= j < TABLE_COUNT ==> Pde(User(p), j) !in sh.slots && TableOf(p, j) !in sh.kmap
    ensures forall k :: k in sh.slots ==> k.space != User(p)
    ensures forall i :: TableOf(p, i) !in sh.kmap
  {
    forall k | k in sh.slots
      ensures k.space != User(p)
    {
      assert SlotOk(sh, k);
    }
    forall i: nat
      ensures TableOf(p, i) !in sh.kmap
    {
      assert TableOf(p, i) in sh.kmap ==> OwnerOk(sh, TableOf(p, i));
    }
  }
}
