/** paging.c and physmem.c as one object: the frame bitmap and reference counts, all page
    directories and page tables, and the bytes of the frames. */
module Paging {
  import opened Sequences
  import opened FrameAccounting
  import opened PageTables

  import opened AreaSearch
  import opened PagingSteps
  import opened PagingMoves
  import opened PagingBudget
  import opened KernelBytes

  class Vm {
    var used: set<nat>               // frames whose bitmap bit is set
    var extra: map<nat, nat>         // reference-count records, created on demand
    var slots: map<Slot, Entry>      // every non-zero page-table and page-directory entry
    var kmap: map<Owner, nat>        // pageDirectory and pageTables of every process
    var data: map<nat, Page>         // what the frames contain

    ghost const holes: set<nat>      // frames that never were available
    ghost var pend: multiset<nat>    // references held in local variables
    ghost var temp: set<nat>
    ghost var resv: set<Slot>
    ghost var open: set<Owner>

    ghost function Sh(): Shape reads this { Shape(slots, kmap, temp, resv, open) }

    ghost predicate Acc() reads this { Accounts(used, extra, slots, pend, holes) }

    ghost predicate Valid()
      reads this
    {
      Acc() && Sound(Sh()) && forall f: nat :: f < PAGE_COUNT ==> f in data && |data[f]| == PAGE_SIZE
    }

    /** Between kernel entries nothing is held, mapped temporarily, reserved or half built. */
    ghost predicate Quiet()
      reads this
    {
      pend == multiset{} && temp == {} && resv == {} && open == {}
    }

    ghost function Memory(): map<Slot, VPage> reads this { View(slots, data) }

    /** The reason given for stopping is true. */
    ghost predicate Justified(why: Failure)
      reads this
    {
      match why
      case OutOfFrames => forall f :: LOW_LIMIT <= f < PAGE_COUNT ==> f in used
      case RefOverflow(f) => f in extra && extra[f] == REF_MAX
      case SpaceFull(n) => forall start :: !FreeRun(slots, Kernel, start, n)
      case AddressInUse(s, page) => page == 0 || Pte(s, page) in slots
    }

    /** … and of the kinds that the operation can have: no kernel area of one of these lengths, and a full reference
        count only if it adds references to pages that are there. */
    ghost predicate Stops(why: Failure, lengths: set<nat>, refs: bool)
      reads this
    {
      Justified(why) && StopKind(why, lengths, refs)
    }

    /** The state in which paging is switched on: one frame, the kernel's page directory, which
        names itself in its last entry. */
    constructor (reserved: set<nat>, dir: nat, contents: map<nat, Page>)
      requires dir !in reserved && dir < PAGE_COUNT
      requires forall f: nat :: f < PAGE_COUNT ==> f in contents && |contents[f]| == PAGE_SIZE
      ensures Valid() && Quiet() && holes == reserved && Memory() == map[]
      ensures used == reserved + {dir} && data == contents
    {
      used, extra := reserved + {dir}, map[];
      slots := map[Pde(Kernel, TABLE_COUNT - 1) := Present(true, false, Plain, dir)];
      kmap, data := map[], contents;
      holes := reserved;
      pend, temp, resv, open := multiset{}, {}, {}, {};
      new;
      var none: map<Slot, Entry> := map[];
      forall f: nat
        ensures FrameOk(used, extra, slots, pend, holes, f)
      {
        NamersPut(none, Pde(Kernel, TABLE_COUNT - 1), Present(true, false, Plain, dir), f);
        assert none[Pde(Kernel, TABLE_COUNT - 1) := Present(true, false, Plain, dir)] == slots;
        assert Namers(none, f) == {};
      }
    }

    // ----- physmem.c -----

    /** Lowest free frame at or above 1 MB. */
    method AllocPage() returns (r: Outcome<nat>)
      requires Acc()
      modifies `used, `pend
      ensures Acc()
      ensures r.Ok? ==>
                && r.value !in old(used) && LOW_LIMIT <= r.value < PAGE_COUNT
                && (forall f :: LOW_LIMIT <= f < r.value ==> f in old(used))
                && used == old(used) + {r.value} && pend == old(pend) + multiset{r.value}
                && Namers(slots, r.value) == {} && old(pend)[r.value] == 0
      ensures r.Halt? ==> used == old(used) && pend == old(pend) && r.why == OutOfFrames && Justified(r.why)
      ensures r.Ok? ==> Frames(used) == Frames(old(used)) - 1
      ensures r.Halt? ==> Frames(old(used)) == 0
    {
      var f := LOW_LIMIT;
      while f < PAGE_COUNT && f in used
        invariant LOW_LIMIT <= f <= PAGE_COUNT
        invariant forall g :: LOW_LIMIT <= g < f ==> g in used
      {
        f := f + 1;
      }
      if f == PAGE_COUNT {
        NoFrames(used);
        return Halt(OutOfFrames);
      }
      FrameTaken(used, f);
      assert FrameOk(used, extra, slots, pend, holes, f);
      AllocKeepsAccounts(used, extra, slots, pend, holes, f);
      used, pend := used + {f}, pend + multiset{f};
      return Ok(f);
    }

    /** Stops the kernel exactly when the 7-bit counter would wrap. */
    method AddRefPage(f: nat) returns (r: Outcome<nat>)
      requires Acc() && Refs(slots, pend, f) > 0
      modifies `extra, `pend
      ensures Acc()
      ensures r.Halt? <==> Refs(slots, old(pend), f) == REF_MAX
      ensures r.Ok? ==>
                r.value == f && extra == old(extra)[f := RefCount(old(extra), f) + 1] && pend == old(pend) + multiset{f}
      ensures r.Halt? ==> extra == old(extra) && pend == old(pend) && r.why == RefOverflow(f) && Justified(r.why)
    {
      assert FrameOk(used, extra, slots, pend, holes, f);
      if RefCount(extra, f) == REF_MAX {
        return Halt(RefOverflow(f));
      }
      AddRefKeepsAccounts(used, extra, slots, pend, holes, f);
      extra, pend := extra[f := RefCount(extra, f) + 1], pend + multiset{f};
      return Ok(f);
    }

    /** Gives one reference back; the bit clears exactly when it was the last. */
    method ReleasePage(f: nat) returns (left: nat)
      requires Acc() && pend[f] > 0
      modifies `used, `extra, `pend
      ensures Acc() && pend == old(pend) - multiset{f}
      ensures left == Refs(slots, pend, f) && used == if left == 0 then old(used) - {f} else old(used)
    {
      ReleaseKeepsAccounts(used, extra, slots, pend, holes, f);
      pend := pend - multiset{f};
      if f in extra {
        var n := extra[f] - 1;
        if n != 0 {
          extra := extra[f := n];
          assert FrameOk(used, extra, slots, pend, holes, f);
          return n;
        }
        extra := extra - {f};
      } else {
        assert extra - {f} == extra;
      }
      used := used - {f};
      return 0;
    }

    method IsLastRef(f: nat) returns (last: bool)
      requires Acc() && Refs(slots, pend, f) > 0
      ensures last <==> Refs(slots, pend, f) == 1
    {
      assert FrameOk(used, extra, slots, pend, holes, f);
      last := f !in extra || extra[f] == 1;
    }

    // ----- paging.c: slots -----

    /** __getPagingEntry(NULL, page, true): the kernel's page table for `page` exists afterwards. */
    method EnsureKernelTable(page: nat) returns (r: Outcome<()>)
      requires Valid() && PageOk(Kernel, page)
      modifies `used, `pend, `slots
      ensures Valid() && (r.Ok? ==> pend == old(pend))
      ensures Extends(old(slots), slots) && NamesFresh(old(slots), slots, old(used)) && old(used) <= used
      ensures forall k :: k in slots && k !in old(slots) ==> k == Pde(Kernel, page / TABLE_COUNT)
      ensures r.Ok? ==> Pde(Kernel, page / TABLE_COUNT) in slots
      ensures r.Halt? ==> Stops(r.why, {}, false)
      ensures Pde(Kernel, page / TABLE_COUNT) in old(slots) ==> r.Ok? && slots == old(slots) && used == old(used)
      ensures r.Ok? ==> Frames(used) + 1 >= Frames(old(used)) && Room(slots) == Room(old(slots))
      ensures r.Halt? ==> Frames(old(used)) == 0
    {
      var k := Pde(Kernel, page / TABLE_COUNT);
      if k in slots {
        return Ok(());
      }
      var f :- AllocPage();
      var e := Present(true, true, Plain, f);
      PutKeepsAccounts(used, extra, slots, pend, holes, k, e);
      ghost var sh := Sh();
      slots, pend := slots[k := e], pend - multiset{f};
      SlotsPutFresh(sh, k, e, Sh());
      SameRoom(old(slots), slots);
      return Ok(());
    }

    /** __pagingMapPhysMem(NULL, f, NULL, rw, false): maps a held frame at the lowest free kernel page. */
    method MapPhysMem(f: nat, rw: bool, ghost asTemp: bool) returns (r: Outcome<nat>)
      requires Valid() && pend[f] > 0 && (asTemp || NoUserNames(slots, f))
      modifies `used, `pend, `slots, `temp
      ensures Valid()
      ensures r.Ok? ==>
                && PageOk(Kernel, r.value) && Pte(Kernel, r.value) !in old(slots)
                && Pte(Kernel, r.value) in slots && slots[Pte(Kernel, r.value)] == Present(rw, false, Plain, f)
                && (forall v :: 1 <= v < r.value ==> Pte(Kernel, v) in old(slots))
                && Extends(old(slots), slots) && old(used) <= used
                && NamesFresh(old(slots)[Pte(Kernel, r.value) := Present(rw, false, Plain, f)], slots, old(used))
                && (forall k ::
                   k in slots && k !in old(slots) ==> (k.Pde? && k.space.Kernel?) || k == Pte(Kernel, r.value))
                && pend == old(pend) - multiset{f}
                && temp == (if asTemp then old(temp) + {r.value} else old(temp))
      ensures r.Halt? ==> Stops(r.why, {1}, false)
      ensures r.Ok? ==> Frames(used) + 1 >= Frames(old(used)) && Room(slots) == Room(old(slots)) - 1
      ensures r.Halt? ==> Frames(old(used)) == 0 || Room(old(slots)) == 0
    {
      var page :- FirstFreePage(f, asTemp);
      MapAt(f, rw, page, asTemp);
      return Ok(page);
    }

    /** The lowest kernel page that is free; its page table exists. */
    method FirstFreePage(ghost f: nat, ghost asTemp: bool) returns (r: Outcome<nat>)
      requires Valid() && (asTemp || NoUserNames(slots, f))
      modifies `used, `pend, `slots
      ensures Valid() && (r.Ok? ==> pend == old(pend))
      ensures r.Ok? ==>
                PageOk(Kernel, r.value) && Pde(Kernel, r.value / TABLE_COUNT) in slots && Pte(Kernel, r.value) !in slots
      ensures r.Ok? ==> MoreTables(old(slots), slots, old(used), used) && (asTemp || NoUserNames(slots, f))
      ensures r.Ok? ==> forall v :: 1 <= v < r.value ==> Pte(Kernel, v) in old(slots)
      ensures r.Halt? ==> Stops(r.why, {1}, false)
      ensures r.Ok? ==> Frames(used) + 1 >= Frames(old(used)) && Room(slots) == Room(old(slots))
      ensures r.Halt? ==> Frames(old(used)) == 0 || Room(old(slots)) == 0
    {
      var i := 1;
      while i < KERNEL_LIMIT
        invariant 1 <= i <= KERNEL_LIMIT && Valid() && pend == old(pend) && slots == old(slots) && used == old(used)
        invariant forall v :: 1 <= v < i ==> Pte(Kernel, v) in slots
      {
        PagesBounded();
        var _ :- EnsureKernelTable(i);
        if Pte(Kernel, i) !in slots {
          return Ok(i);
        }
        i := i + 1;
      }
      NoPages(slots);
      assert forall start :: !FreeRun(slots, Kernel, start, 1) by {
        forall start
          ensures !FreeRun(slots, Kernel, start, 1)
        {
          if 1 <= start < KERNEL_LIMIT { assert Pte(Kernel, start) in slots; }
        }
      }
      return Halt(SpaceFull(1));
    }

    method MapAt(f: nat, rw: bool, page: nat, ghost asTemp: bool)
      requires Valid() && pend[f] > 0 && (asTemp || NoUserNames(slots, f))
      requires PageOk(Kernel, page) && Pde(Kernel, page / TABLE_COUNT) in slots && Pte(Kernel, page) !in slots
      modifies `pend, `slots, `temp
      ensures Valid()
      ensures slots == old(slots)[Pte(Kernel, page) := Present(rw, false, Plain, f)]
      ensures pend == old(pend) - multiset{f} && temp == if asTemp then old(temp) + {page} else old(temp)
      ensures Room(slots) == Room(old(slots)) - 1
    {
      var k, e := Pte(Kernel, page), Present(rw, false, Plain, f);
      PutKeepsAccounts(used, extra, slots, pend, holes, k, e);
      ghost var sh := Sh();
      slots, pend, temp := slots[k := e], pend - multiset{f}, if asTemp then temp + {page} else temp;
      PageTaken(old(slots), page, e);
      SlotsMapKernel(sh, page, e, asTemp, Sh());
    }

    /** __getPagingEntry(p, page, true): the page table for `page` exists afterwards, and for a
        process it is mapped into the kernel. */
    method EnsureTable(s: Space, page: nat) returns (r: Outcome<()>)
      requires Valid() && PageOk(s, page) && (s.User? ==>
                 DirOf(s.pid) in kmap && TableOf(s.pid, page / TABLE_COUNT) !in open)
      modifies `used, `extra, `pend, `slots, `kmap, `temp, `open
      ensures Valid()
      ensures r.Ok? ==>
                && Pde(s, page / TABLE_COUNT) in slots
                && pend == old(pend) && temp == old(temp) && open == old(open)
                && Extends(old(slots), slots) && NamesFresh(old(slots), slots, old(used)) && old(used) <= used
                && (s.Kernel? ==> forall k :: k in slots && k !in old(slots) ==> k.Pde?)
                && MoreOwners(s, old(kmap), kmap)
      ensures r.Halt? ==> Stops(r.why, {1}, false)
      ensures Pde(s, page / TABLE_COUNT) in old(slots) ==> r.Ok? && slots == old(slots) && used == old(used)
      ensures r.Ok? ==>
                forall k :: k in slots && k !in old(slots) ==> k.space.Kernel? || k == Pde(s, page / TABLE_COUNT)
      ensures r.Ok? ==> Frames(used) + 2 >= Frames(old(used)) && Room(slots) + 1 >= Room(old(slots))
      ensures r.Halt? ==> Frames(old(used)) < 2 || Room(old(slots)) == 0
    {
      if s.Kernel? {
        r := EnsureKernelTable(page);
      } else if Pde(s, page / TABLE_COUNT) in slots {
        r := Ok(());
      } else {
        r := AddTable(s.pid, page / TABLE_COUNT);
      }
    }

    /** Allocates a page table for a process. */
    method AddTable(p: nat, i: nat) returns (r: Outcome<()>)
      requires Valid() && i < TABLE_COUNT && DirOf(p) in kmap && TableOf(p, i) !in open && Pde(User(p), i) !in slots
      modifies `used, `extra, `pend, `slots, `kmap, `temp, `open
      ensures Valid()
      ensures r.Ok? ==>
                && Pde(User(p), i) in slots
                && pend == old(pend) && temp == old(temp) && open == old(open)
                && Extends(old(slots), slots) && NamesFresh(old(slots), slots, old(used)) && old(used) <= used
                && MoreOwners(User(p), old(kmap), kmap)
      ensures r.Halt? ==> Stops(r.why, {1}, false)
      ensures r.Ok? ==> forall k :: k in slots && k !in old(slots) ==> k.space.Kernel? || k == Pde(User(p), i)
      ensures r.Ok? ==> Frames(used) + 2 >= Frames(old(used)) && Room(slots) + 1 >= Room(old(slots))
      ensures r.Halt? ==> Frames(old(used)) < 2 || Room(old(slots)) == 0
    {
      NoOrphanTable(Sh(), p, i);
      var f :- NewPde(p, i);
      ghost var mid := slots;
      r := MapTable(TableOf(p, i), f);
      if r.Ok? {
        ExtendsTrans(old(slots), mid, slots);
      }
    }

    /** A fresh frame becomes a page table of process p. */
    method NewPde(p: nat, i: nat) returns (r: Outcome<nat>)
      requires Valid() && i < TABLE_COUNT && Pde(User(p), i) !in slots
      modifies `used, `pend, `slots, `open
      ensures Valid() && Extends(old(slots), slots)
      ensures r.Ok? ==>
                && slots == old(slots)[Pde(User(p), i) := Present(true, true, Plain, r.value)]
                && r.value !in old(used) && old(used) <= used
                && pend == old(pend) && open == old(open) + {TableOf(p, i)}
      ensures r.Halt? ==> Stops(r.why, {}, false)
      ensures r.Ok? ==> Refs(slots, pend, r.value) == 1
      ensures r.Ok? ==> Frames(used) + 1 >= Frames(old(used)) && Room(slots) == Room(old(slots))
      ensures r.Halt? ==> Frames(old(used)) == 0
    {
      var k := Pde(User(p), i);
      var f :- AllocPage();
      var e := Present(true, true, Plain, f);
      PutKeepsAccounts(used, extra, slots, pend, holes, k, e);
      ghost var sh := Sh();
      slots, pend, open := slots[k := e], pend - multiset{f}, open + {TableOf(p, i)};
      NamersPut(sh.slots, k, e, f);
      SameRoom(sh.slots, slots);
      SlotsAddPde(sh, p, i, f, Sh());
      return Ok(f);
    }

    /** Maps a page table into the kernel and remembers where. */
    method MapTable(o: Owner, f: nat) returns (r: Outcome<()>)
      requires Valid() && o.TableOf? && o !in kmap && DirOf(o.pid) in kmap
      requires Pde(User(o.pid), o.index) in slots && Names(slots[Pde(User(o.pid), o.index)], f)
               && Refs(slots, pend, f) == 1
      modifies `used, `extra, `pend, `slots, `kmap, `temp, `open
      ensures Valid()
      ensures r.Ok? ==>
                && pend == old(pend) && temp == old(temp) && open == old(open) - {o}
                && Extends(old(slots), slots) && o in kmap && kmap == old(kmap)[o := kmap[o]]
                && NamesFresh(old(slots), slots, old(used) - {f}) && old(used) <= used
      ensures r.Halt? ==> Stops(r.why, {1}, false)
      ensures r.Ok? ==> forall k :: k in slots && k !in old(slots) ==> k.space.Kernel?
      ensures r.Ok? ==> Frames(used) + 1 >= Frames(old(used)) && Room(slots) + 1 >= Room(old(slots))
      ensures r.Halt? ==> Frames(old(used)) == 0 || Room(old(slots)) == 0
    {
      var k := Pde(User(o.pid), o.index);
      NamedHasRef(slots, pend, k);
      KernelFrame(Sh(), k);
      var ref := AddRefPage(f);
      assert ref.Ok?;
      ghost var sh := Sh();
      var kp :- MapPhysMem(f, true, false);
      OwnersElsewhere(sh, Pte(Kernel, kp));
      AdoptPage(o, kp);
      return Ok(());
    }

    /** Remembers the kernel page of a page directory or page table. */
    method AdoptPage(o: Owner, page: nat)
      requires Valid() && o !in kmap && (forall q :: q in kmap ==> kmap[q] != page)
      requires OwnerOk(Sh().(kmap := kmap[o := page]), o)
      modifies `kmap, `open
      ensures Valid() && kmap == old(kmap)[o := page] && open == old(open) - {o}
    {
      ghost var sh := Sh();
      kmap, open := kmap[o := page], open - {o};
      assert OwnerOk(Sh(), o);
      OwnerAdd(sh, o, page, Sh());
    }

    /** Fills an empty page-table slot with a held frame. */
    method PutPte(s: Space, page: nat, e: Entry)
      requires Valid() && PageOk(s, page) && Pde(s, page / TABLE_COUNT) in slots && Pte(s, page) !in slots
      requires e.Present? && e.avail == Plain && pend[e.frame] > 0 && Namers(slots, e.frame) == {}
      modifies `pend, `slots
      ensures Valid() && slots == old(slots)[Pte(s, page) := e] && pend == old(pend) - multiset{e.frame}
      ensures Room(slots) + 1 >= Room(old(slots))
    {
      var k := Pte(s, page);
      PutKeepsAccounts(used, extra, slots, pend, holes, k, e);
      ghost var sh := Sh();
      slots, pend := slots[k := e], pend - multiset{e.frame};
      SlotsPutFresh(sh, k, e, Sh());
      if s.Kernel? { PageTaken(old(slots), page, e); } else { SameRoom(old(slots), slots); }
    }

    /** Empties one page-table slot and gives its reference back. */
    method ReleaseSlot(k: Slot)
      requires Valid() && k in slots && k.Pte?
      requires k.space.Kernel? ==> forall o :: o in kmap ==> kmap[o] != k.page
      modifies `used, `extra, `pend, `slots, `temp, `resv
      ensures Valid() && slots == old(slots) - {k} && pend == old(pend)
      ensures temp == (if k.space.Kernel? then old(temp) - {k.page} else old(temp)) && resv == old(resv) - {k}
    {
      var e := slots[k];
      ghost var sh := Sh();
      if e.Reserved? {
        UnreserveKeepsAccounts(used, extra, slots, pend, holes, k);
        slots := slots - {k};
      } else {
        ClearKeepsAccounts(used, extra, slots, pend, holes, k);
        slots, pend := slots - {k}, pend + multiset{e.frame};
        var _ := ReleasePage(e.frame);
      }
      temp, resv := if k.space.Kernel? then temp - {k.page} else temp, resv - {k};
      SlotsDrop(sh, k, Sh());
    }

    lemma PagesBounded()
      requires Valid()
      ensures forall k ::
                k in slots && k.Pte? ==> PageOk(k.space, k.page) && Pde(k.space, k.page / TABLE_COUNT) in slots
      ensures forall s :: Tabled(slots, s)
    {
      forall k | k in slots && k.Pte?
        ensures PageOk(k.space, k.page) && Pde(k.space, k.page / TABLE_COUNT) in slots
      {
        assert SlotOk(Sh(), k);
      }
    }

    /** pagingTryReleasePhysMem and, with `userOnly`, pagingTryReleaseUserMem. */
    method TryRelease(s: Space, page: nat, length: nat, userOnly: bool) returns (success: bool)
      requires Valid() && page < PAGE_COUNT
      requires s.Kernel? ==> forall o :: o in kmap ==> !InRange(page, length, kmap[o])
      modifies `used, `extra, `pend, `slots, `temp, `resv
      ensures Valid() && pend == old(pend)
      ensures slots == old(slots) - Hits(old(slots), s, page, length, userOnly)
      ensures resv == old(resv) - Hits(old(slots), s, page, length, userOnly)
      ensures temp == if s.Kernel? then
                        set t | t in old(temp) && Pte(s, t) !in Hits(old(slots), s, page, length, userOnly)
                      else old(temp)
      ensures Memory() == old(Memory()) - Hits(old(slots), s, page, length, userOnly)
      ensures success <==> length <= PAGE_COUNT && AllThere(old(slots), s, page, length, userOnly)
    {
      ghost var slots0 := slots;
      success := ReleaseRange(s, page, length, userOnly);
      DropView(slots0, data, Hits(slots0, s, page, length, userOnly));
    }

    /** The loop over the pages of the range. */
    method ReleaseRange(s: Space, page: nat, length: nat, userOnly: bool) returns (success: bool)
      requires Valid() && page < PAGE_COUNT
      requires s.Kernel? ==> forall o :: o in kmap ==> !InRange(page, length, kmap[o])
      modifies `used, `extra, `pend, `slots, `temp, `resv
      ensures Valid() && pend == old(pend) && Released(old(slots), old(resv), old(temp), slots, resv, temp, s, page,
                  length, userOnly)
      ensures success <==> length <= PAGE_COUNT && AllThere(old(slots), s, page, length, userOnly)
    {
      success := true;
      var n := 0;
      ghost var slots0 := slots;
      PagesBounded();
      ReleasedNone(slots, resv, temp, s, page, userOnly);
      while n < length
        invariant n <= length && Valid() && pend == old(pend)
        invariant success <==> n <= PAGE_COUNT && AllThere(slots0, s, page, n, userOnly)
        invariant Released(slots0, old(resv), old(temp), slots, resv, temp, s, page, n, userOnly)
      {
        OwnersMissed(kmap, s, page, n, length);
        success := ReleaseNext(s, page, n, userOnly, success, slots0, old(resv), old(temp));
        n := n + 1;
      }
    }

    method ReleaseNext(s: Space, page: nat, n: nat, userOnly: bool, success: bool,
                       ghost slots0: map<Slot, Entry>, ghost resv0: set<Slot>, ghost temp0: set<nat>)
                           returns (success': bool)
      requires Valid() && page < PAGE_COUNT && forall k :: k in slots0 && k.Pte? ==> k.page < PAGE_COUNT
      requires s.Kernel? ==> forall o :: o in kmap ==> kmap[o] != (page + n) % PAGE_COUNT
      requires Released(slots0, resv0, temp0, slots, resv, temp, s, page, n, userOnly)
      requires success <==> n <= PAGE_COUNT && AllThere(slots0, s, page, n, userOnly)
      modifies `used, `extra, `pend, `slots, `temp, `resv
      ensures Valid() && pend == old(pend) && Released(slots0, resv0, temp0, slots, resv, temp, s, page, n + 1,
                  userOnly)
      ensures success' <==> n + 1 <= PAGE_COUNT && AllThere(slots0, s, page, n + 1, userOnly)
    {
      ghost var slots1, resv1, temp1 := slots, resv, temp;
      var there := ReleaseIf(Pte(s, (page + n) % PAGE_COUNT), userOnly);
      ReleasedStep(slots0, resv0, temp0, slots1, resv1, temp1, slots, resv, temp, s, page, n, userOnly, there);
      return success && there;
    }

    method ReleaseIf(k: Slot, userOnly: bool) returns (there: bool)
      requires Valid() && k.Pte? && (k.space.Kernel? ==> forall o :: o in kmap ==> kmap[o] != k.page)
      modifies `used, `extra, `pend, `slots, `temp, `resv
      ensures Valid() && pend == old(pend)
      ensures there == (k in old(slots) && (userOnly ==> old(slots)[k].user))
      ensures slots == if there then old(slots) - {k} else old(slots)
      ensures resv == if there then old(resv) - {k} else old(resv)
      ensures temp == if there && k.space.Kernel? then old(temp) - {k.page} else old(temp)
    {
      there := k in slots && (userOnly ==> slots[k].user);
      if there {
        ReleaseSlot(k);
      }
    }

    /** One page of pagingTryAllocatePhysMem: a fresh frame at a free page. */
    method AllocateAt(s: Space, page: nat, rw: bool, user: bool) returns (r: Outcome<()>)
      requires Valid() && open == {} && PageOk(s, page) && Pte(s, page) !in slots && (s.User? ==> DirOf(s.pid) in kmap)
      modifies `used, `extra, `pend, `slots, `kmap, `temp, `open
      ensures Valid()
      ensures r.Ok? ==>
                && pend == old(pend) && temp == old(temp) && open == {}
                && Filled(old(slots), slots, s, page, 1, rw, user) && OwnFrames(slots, s, page, 1, old(used), used)
                && MoreOwners(s, old(kmap), kmap)
      ensures r.Halt? ==> Stops(r.why, {1}, false)
      ensures r.Ok? ==> Spent(old(slots), old(used), slots, used, 3, 2)
      ensures r.Halt? ==> Frames(old(used)) < 3 || Room(old(slots)) == 0
    {
      var f :- AllocPage();
      ghost var used1 := used;
      var _ :- EnsureTable(s, page);
      StillUnnamed(old(slots), slots, used1, f);
      FilledOne(old(slots), slots, s, page, rw, user, f, old(used), used);
      PutPte(s, page, Present(rw, user, Plain, f));
      return Ok(());
    }

    /** pagingTryAllocatePhysMem: the first free run, filled with fresh frames. */
    method TryAllocatePhysMem(s: Space, length: nat, rw: bool, user: bool) returns (r: Outcome<Option<nat>>)
      requires Valid() && Quiet() && length <= WORD - KERNEL_LIMIT && (s.User? ==> DirOf(s.pid) in kmap)
      modifies `used, `extra, `pend, `slots, `kmap, `temp, `open
      ensures Valid()
      ensures r.Ok? ==> Quiet() && MoreOwners(s, old(kmap), kmap)
      ensures r.Ok? && r.value.Some? ==>
                && FirstFit(old(slots), s, length, r.value) && 0 < length
                && Filled(old(slots), slots, s, r.value.value, length, rw, user)
                && OwnFrames(slots, s, r.value.value, length, old(used), used)
      ensures r.Ok? && r.value.None? ==> slots == old(slots) && (length == 0 || FirstFit(old(slots), s, length, None))
      ensures r.Halt? ==> Stops(r.why, {1}, false)
      ensures r.Ok? && r.value.Some? ==> Spent(old(slots), old(used), slots, used, 3 * length, 2 * length)
      ensures r.Halt? ==> Frames(old(used)) < 3 * length || Room(old(slots)) < 2 * length
    {
      PagesBounded();
      ShortNeverWraps(slots, s, length);
      var base := TrySearchArea(slots, s, length);
      if base.None? {
        return Ok(None);
      }
      FillingNone(slots, used, s, base.value, rw, user);
      var n := 0;
      while n < length
        invariant n <= length && Valid() && Quiet() && MoreOwners(s, old(kmap), kmap)
        invariant Filling(old(slots), old(used), slots, used, s, base.value, n, rw, user)
      {
        assert Pte(s, base.value + n) !in slots;
        var _ :- AllocateNext(s, base.value, n, rw, user, old(slots), old(used));
        n := n + 1;
      }
      return Ok(base);
    }

    /** pagingAllocatePhysMemFixed: the pages of the range, none of which may be in use, are filled with fresh frames.
        The kernel stops for the NULL page and for the first page that is in use. */
    method AllocatePhysMemFixed(s: Space, page: nat, length: nat, rw: bool, user: bool) returns (r: Outcome<()>)
      requires Valid() && Quiet() && (s.User? ==> DirOf(s.pid) in kmap)
      requires page + length <= if s.Kernel? then KERNEL_LIMIT else PAGE_COUNT
      modifies `used, `extra, `pend, `slots, `kmap, `temp, `open
      ensures Valid()
      ensures r.Ok? ==> Quiet() && MoreOwners(s, old(kmap), kmap) && page > 0 && Vacant(old(slots), s, page, length)
      ensures r.Ok? ==>
                Filled(old(slots), slots, s, page, length, rw, user)
                && OwnFrames(slots, s, page, length, old(used), used)
      ensures r.Halt? ==> Stops(r.why, {1}, false) || (Justified(r.why) && r.why.AddressInUse? && r.why.space == s)
      ensures r.Halt? && !r.why.AddressInUse? ==> Frames(old(used)) < 3 * length || Room(old(slots)) < 2 * length
      ensures r.Halt? && r.why.AddressInUse? ==>
                if page == 0 then r.why.page == 0
                else page <= r.why.page < page + length && Pte(s, r.why.page) in old(slots)
    {
      if page == 0 {
        return Halt(AddressInUse(s, 0));
      }
      FillingNone(slots, used, s, page, rw, user);
      var n := 0;
      while n < length
        invariant n <= length && Valid() && Quiet() && MoreOwners(s, old(kmap), kmap) && Vacant(old(slots), s, page, n)
        invariant Filling(old(slots), old(used), slots, used, s, page, n, rw, user)
      {
        var _ :- AllocateFree(s, page, n, rw, user, old(slots), old(used));
        n := n + 1;
      }
      return Ok(());
    }

    /** The next page of the range, unless it is in use. */
    method AllocateFree(s: Space, page: nat, n: nat, rw: bool, user: bool, ghost slots0: map<Slot, Entry>,
                        ghost used0: set<nat>) returns (r: Outcome<()>)
      requires Valid() && Quiet() && PageOk(s, page + n) && (s.User? ==> DirOf(s.pid) in kmap)
      requires Filling(slots0, used0, slots, used, s, page, n, rw, user)
      modifies `used, `extra, `pend, `slots, `kmap, `temp, `open
      ensures Valid() && (r.Ok? ==> Quiet() && MoreOwners(s, old(kmap), kmap))
      ensures r.Ok? ==> Filling(slots0, used0, slots, used, s, page, n + 1, rw, user) && Pte(s, page + n) !in slots0
      ensures r.Halt? ==>
                || (Stops(r.why, {1}, false) && (Frames(used0) < 3 * (n + 1) || Room(slots0) < 2 * (n + 1)))
                || (Justified(r.why) && r.why == AddressInUse(s, page + n) && Pte(s, page + n) in slots0)
    {
      if Pte(s, page + n) !in slots {
        r := AllocateNext(s, page, n, rw, user, slots0, used0);
      } else {
        var _ :- AllocPage();
        return Halt(AddressInUse(s, page + n));
      }
    }

    /** One more page of a run that is being filled. */
    method AllocateNext(s: Space, page: nat, n: nat, rw: bool, user: bool, ghost slots0: map<Slot, Entry>,
                        ghost used0: set<nat>) returns (r: Outcome<()>)
      requires Valid() && Quiet() && PageOk(s, page + n) && Pte(s, page + n) !in slots
      requires (s.User? ==> DirOf(s.pid) in kmap) && Filling(slots0, used0, slots, used, s, page, n, rw, user)
      modifies `used, `extra, `pend, `slots, `kmap, `temp, `open
      ensures Valid() && (r.Ok? ==> Quiet() && MoreOwners(s, old(kmap), kmap))
      ensures r.Ok? ==> Filling(slots0, used0, slots, used, s, page, n + 1, rw, user)
      ensures r.Halt? ==> Stops(r.why, {1}, false) && (Frames(used0) < 3 * (n + 1) || Room(slots0) < 2 * (n + 1))
    {
      ghost var was, used1 := slots, used;
      r := AllocateAt(s, page + n, rw, user);
      if r.Ok? {
        FillingStep(slots0, used0, was, used1, slots, used, s, page, n, rw, user);
      }
    }

    /** pagingMapRemoteMemory as its callers use it: kernel pages appear in a process, which may not access them itself.
        Nothing any process sees changes. */
    method MapRemoteMemory(p: nat, dst: nat, src: nat, length: nat, rw: bool) returns (r: Outcome<()>)
      requires Valid() && Quiet() && DirOf(p) in kmap && dst + length <= PAGE_COUNT && Lendable(slots, src, length)
      modifies `used, `extra, `pend, `slots, `kmap, `temp, `open
      ensures Valid()
      ensures r.Ok? ==> Quiet() && MoreOwners(User(p), old(kmap), kmap) && Memory() == old(Memory())
      ensures r.Ok? ==> Lent(old(slots), slots, p, dst, src, if dst == 0 then 0 else length, rw)
      ensures r.Halt? ==> Stops(r.why, {1}, true) || (Justified(r.why) && r.why.AddressInUse? && r.why.space == User(p))
      ensures r.Halt? && r.why.AddressInUse? ==>
                dst <= r.why.page < dst + length && Pte(User(p), r.why.page) in old(slots)
    {
      if dst == 0 {
        return Ok(());
      }
      var n := 0;
      while n < length
        invariant n <= length && Valid() && Quiet() && MoreOwners(User(p), old(kmap), kmap)
        invariant Lent(old(slots), slots, p, dst, src, n, rw)
      {
        ghost var was := slots;
        var _ :- MapRemotePage(p, dst + n, src + n, rw);
        LentStep(old(slots), was, slots, p, dst, src, n, length, rw);
        n := n + 1;
      }
      LentView(old(slots), slots, data, p, dst, src, length, rw);
      return Ok(());
    }

    method MapRemotePage(p: nat, dst: nat, src: nat, rw: bool) returns (r: Outcome<()>)
      requires Valid() && Quiet() && DirOf(p) in kmap && PageOk(User(p), dst) && Lendable(slots, src, 1)
      modifies `used, `extra, `pend, `slots, `kmap, `temp, `open
      ensures Valid()
      ensures r.Ok? ==> Quiet() && MoreOwners(User(p), old(kmap), kmap) && Lent(old(slots), slots, p, dst, src, 1, rw)
      ensures r.Halt? ==> Stops(r.why, {1}, true) || (Justified(r.why) && r.why == AddressInUse(User(p), dst))
      ensures r.Halt? && r.why.AddressInUse? ==> Pte(User(p), dst) in old(slots)
    {
      var k, c := Pte(Kernel, src), Pte(User(p), dst);
      assert k in slots && slots[k].Present? && slots[k].avail == Plain;
      var _ :- EnsureTable(User(p), dst);
      if c in slots {
        return Halt(AddressInUse(User(p), dst));
      }
      ghost var m := slots;
      r := LendPage(k, c, rw);
      LentOne(old(slots), m, p, dst, src, rw);
    }

    /** A kernel frame gets one more entry, in the space of a process and without user permission. */
    method LendPage(k: Slot, c: Slot, rw: bool) returns (r: Outcome<()>)
      requires Valid() && temp == {} && k in slots && k.Pte? && k.space.Kernel? && slots[k].Present?
               && slots[k].avail == Plain
      requires c !in slots && c.Pte? && c.space.User? && PageOk(c.space, c.page)
      requires Pde(c.space, c.page / TABLE_COUNT) in slots
      modifies `extra, `pend, `slots
      ensures Valid()
      ensures r.Ok? ==> pend == old(pend) && slots == old(slots)[c := Present(rw, false, Plain, old(slots)[k].frame)]
      ensures r.Halt? ==> Stops(r.why, {}, true)
    {
      var f := slots[k].frame;
      var e := Present(rw, false, Plain, f);
      NamedHasRef(slots, pend, k);
      KernelFrame(Sh(), k);
      var _ :- AddRefPage(f);
      PutKeepsAccounts(used, extra, slots, pend, holes, c, e);
      IsolatedPut(slots, temp, c, e);
      SlotsPut(Sh(), c, e, Sh().(slots := slots[c := e]));
      slots, pend := slots[c := e], pend - multiset{f};
      return Ok(());
    }

    // ----- paging.c: growing a block of kernel pages -----

    method MoveEntry(k: Slot, c: Slot)
      requires Valid() && temp == {} && k in slots && slots[k].Present? && c !in slots && k.Pte? && c.Pte?
               && k.space == c.space
      requires PageOk(c.space, c.page) && Pde(c.space, c.page / TABLE_COUNT) in slots
      requires k.space.Kernel? ==> forall o :: o in kmap ==> kmap[o] != k.page
      modifies `slots
      ensures Valid() && slots == MovedEntry(old(slots), k, c)
    {
      MoveKeepsAccounts(used, extra, slots, pend, holes, k, c);
      MoveSound(Sh(), k, c);
      slots := MovedEntry(slots, k, c);
    }

    /** __pagingMove in the kernel: the entries move, so the bytes do; the frame f held by the caller stays unnamed. */
    method Move(dst: nat, src: nat, length: nat, ghost f: nat) returns (r: Outcome<()>)
      requires Valid() && temp == {} && Vacant(slots, Kernel, dst, length) && Apart(dst, src, length)
      requires 1 <= dst && dst + length <= KERNEL_LIMIT && f in used && Namers(slots, f) == {}
      requires forall v {:trigger Pte(Kernel, v)} ::
                 src <= v < src + length ==> Pte(Kernel, v) in slots && slots[Pte(Kernel, v)].Present?
      requires forall o :: o in kmap ==> !(src <= kmap[o] < src + length)
      modifies `used, `pend, `slots
      ensures Valid() && (r.Ok? ==> pend == old(pend) && f in used && Namers(slots, f) == {})
      ensures r.Ok? ==> Relocated(old(slots), slots, Kernel, dst, src, length)
      ensures old(used) <= used
      ensures r.Halt? ==> Stops(r.why, {}, false)
    {
      RelocatedNone(slots, Kernel, dst, src);
      var n := 0;
      while n < length
        invariant n <= length && Valid() && pend == old(pend) && f in used && Namers(slots, f) == {}
        invariant Relocated(old(slots), slots, Kernel, dst, src, n) && old(used) <= used
      {
        var _ :- MoveNext(dst, src, n, length, f, old(slots));
        n := n + 1;
      }
      return Ok(());
    }

    method MoveNext(dst: nat, src: nat, n: nat, length: nat, ghost f: nat, ghost was: map<Slot, Entry>)
                    returns (r: Outcome<()>)
      requires Valid() && temp == {} && Vacant(was, Kernel, dst, length) && Apart(dst, src, length) && n < length
      requires 1 <= dst && dst + length <= KERNEL_LIMIT && f in used && Namers(slots, f) == {}
      requires Pte(Kernel, src + n) in was && was[Pte(Kernel, src + n)].Present?
               && Relocated(was, slots, Kernel, dst, src, n)
      requires forall o :: o in kmap ==> kmap[o] != src + n
      modifies `used, `pend, `slots
      ensures Valid() && (r.Ok? ==> pend == old(pend) && f in used && Namers(slots, f) == {})
      ensures r.Ok? ==> Relocated(was, slots, Kernel, dst, src, n + 1)
      ensures old(used) <= used
      ensures r.Halt? ==> Stops(r.why, {}, false)
    {
      ghost var t, used1 := slots, used;
      var k, c := Pte(Kernel, src + n), Pte(Kernel, dst + n);
      var _ :- EnsureKernelTable(dst + n);
      StillUnnamed(t, slots, used1, f);
      RelocatedStep(was, t, slots, Kernel, dst, src, n, length);
      MovedUnnamed(slots, k, c, f);
      assert !InBlock(k, Kernel, src, n);
      MoveEntry(k, c);
      return Ok(());
    }

    /** The collision path: the block moves to the lowest free run that has room for all of it. */
    method MoveAway(at: nat, n: nat, total: nat, ghost f: nat, ghost was: map<Slot, Entry>, ghost base: nat,
                    ghost len: nat, ghost ent: seq<Entry>)
      returns (r: Outcome<nat>)
      requires Valid() && temp == {} && n < total <= WORD - KERNEL_LIMIT && |ent| == n && f in used
               && Namers(slots, f) == {}
      requires Reblocked(was, slots, base, len, at, ent) && (forall i :: 0 <= i < n ==> ent[i].Present?)
      requires forall o :: o in kmap ==> !(at <= kmap[o] < at + n)
      modifies `used, `pend, `slots
      ensures Valid() && (r.Ok? ==> pend == old(pend) && f in used && Namers(slots, f) == {})
      ensures r.Ok? ==>
                FirstFit(old(slots), Kernel, total, Some(r.value)) && Reblocked(was, slots, base, len, r.value, ent)
      ensures r.Ok? ==> Pte(Kernel, r.value + n) !in slots
      ensures old(used) <= used
      ensures r.Halt? ==> Stops(r.why, {total}, false)
    {
      PagesBounded();
      ShortNeverWraps(slots, Kernel, total);
      var b := TrySearchArea(slots, Kernel, total);
      if b.None? {
        return Halt(SpaceFull(total));
      }
      ghost var t := slots;
      BlockApart(was, t, base, len, at, ent, b.value, total);
      var _ :- Move(b.value, at, n, f);
      ReblockedMove(was, t, slots, base, len, at, ent, b.value);
      StillVacant(t, slots, b.value, at, n, total);
      return Ok(b.value);
    }

    /** One more page for the block; a collision moves the block to a free run first. */
    method GrowPage(at: nat, n: nat, total: nat, rw: bool, user: bool, ghost was: map<Slot, Entry>, ghost base: nat,
                    ghost len: nat, ghost ent: seq<Entry>)
      returns (r: Outcome<nat>, ghost f: nat)
      requires Valid() && Quiet() && n < total <= WORD - KERNEL_LIMIT && 1 <= at && at + n < KERNEL_LIMIT && |ent| == n
      requires Reblocked(was, slots, base, len, at, ent) && (forall i :: 0 <= i < n ==> ent[i].Present?)
      requires forall o :: o in kmap ==> !(at <= kmap[o] < at + n)
      modifies `used, `pend, `slots, `extra, `kmap, `temp, `open
      ensures Valid() && (r.Ok? ==> Quiet() && kmap == old(kmap))
      ensures r.Ok? ==> Reblocked(was, slots, base, len, r.value, ent + [Present(rw, user, Plain, f)])
      ensures r.Ok? ==>
                if Pte(Kernel, at + n) in old(slots) then FirstFit(old(slots), Kernel, total, Some(r.value))
                else r.value == at
      ensures r.Ok? ==> f !in old(used) && f in used && old(used) <= used
      ensures r.Halt? ==> Stops(r.why, {total}, false)
    {
      f := 0;
      ghost var t := slots;
      var g :- AllocPage();
      f := g;
      var place :- FindPlace(at, n, total, g, was, base, len, ent);
      var _ :- AddLast(place, n, g, rw, user, was, base, len, ent);
      return Ok(place), f;
    }

    /** Where the block with one more page will be: here, or where there is room. */
    method FindPlace(at: nat, n: nat, total: nat, ghost f: nat, ghost was: map<Slot, Entry>, ghost base: nat,
                     ghost len: nat, ghost ent: seq<Entry>)
      returns (r: Outcome<nat>)
      requires Valid() && temp == {} && n < total <= WORD - KERNEL_LIMIT && 1 <= at && at + n < KERNEL_LIMIT
               && |ent| == n
      requires f in used && Namers(slots, f) == {}
      requires Reblocked(was, slots, base, len, at, ent) && (forall i :: 0 <= i < n ==> ent[i].Present?)
      requires forall o :: o in kmap ==> !(at <= kmap[o] < at + n)
      modifies `used, `pend, `slots
      ensures Valid() && (r.Ok? ==> pend == old(pend) && f in used && Namers(slots, f) == {})
      ensures r.Ok? ==> Reblocked(was, slots, base, len, r.value, ent) && Pte(Kernel, r.value + n) !in slots
      ensures r.Ok? ==>
                if Pte(Kernel, at + n) in old(slots) then FirstFit(old(slots), Kernel, total, Some(r.value))
                else r.value == at
      ensures old(used) <= used
      ensures r.Halt? ==> Stops(r.why, {total}, false)
    {
      ghost var t, used1 := slots, used;
      var _ :- EnsureKernelTable(at + n);
      StillUnnamed(t, slots, used1, f);
      ReblockedTables(was, t, slots, base, len, at, ent);
      if Pte(Kernel, at + n) !in slots {
        return Ok(at);
      }
      ghost var m := slots;
      r := MoveAway(at, n, total, f, was, base, len, ent);
      if r.Ok? {
        SameFit(t, m, total, Some(r.value));
      }
    }

    method AddLast(place: nat, n: nat, g: nat, rw: bool, user: bool, ghost was: map<Slot, Entry>, ghost base: nat,
                   ghost len: nat, ghost ent: seq<Entry>)
      returns (r: Outcome<()>)
      requires Valid() && 1 <= place && place + n < KERNEL_LIMIT && |ent| == n && pend == multiset{g} && g in used
               && Namers(slots, g) == {}
      requires Reblocked(was, slots, base, len, place, ent) && Pte(Kernel, place + n) !in slots
      modifies `used, `pend, `slots
      ensures Valid() && (r.Ok? ==> pend == multiset{})
      ensures r.Ok? ==> Reblocked(was, slots, base, len, place, ent + [Present(rw, user, Plain, g)])
      ensures old(used) <= used
      ensures r.Halt? ==> Stops(r.why, {}, false)
    {
      ghost var m, used1 := slots, used;
      var _ :- EnsureKernelTable(place + n);
      StillUnnamed(m, slots, used1, g);
      PutPte(Kernel, place + n, Present(rw, user, Plain, g));
      ReblockedGrow(was, m, slots, base, len, place, ent, Present(rw, user, Plain, g));
      return Ok(());
    }

    /** The block of n kernel pages at `at` is mapped, and none of them is bookkeeping. */
    predicate IsBlock(at: nat, n: nat)
      reads this
    {
      && (forall v {:trigger Pte(Kernel, v)} ::
         at <= v < at + n ==> Pte(Kernel, v) in slots && slots[Pte(Kernel, v)].Present?)
      && (forall o :: o in kmap ==> !(at <= kmap[o] < at + n))
    }

    /** The growing half of pagingReAllocatePhysMem. */
    method GrowBlock(addr: nat, len: nat, total: nat, rw: bool, user: bool)
                     returns (r: Outcome<nat>, ghost ent: seq<Entry>)
      requires Valid() && Quiet() && len < total <= WORD - KERNEL_LIMIT && IsBlock(addr, len)
      requires 1 <= addr && addr + total <= KERNEL_LIMIT
      modifies `used, `pend, `slots, `extra, `kmap, `temp, `open
      ensures Valid() && (r.Ok? ==> Quiet() && kmap == old(kmap))
      ensures r.Ok? ==> |ent| == total && Grown(EntriesOf(old(slots), addr, len), ent, rw, user)
      ensures r.Ok? ==> Reblocked(old(slots), slots, addr, len, r.value, ent)
      ensures r.Ok? && Vacant(old(slots), Kernel, addr + len, total - len) ==> r.value == addr
      ensures r.Ok? ==> NewFrames(ent, len, old(used), used)
      ensures r.Ok? ==> r.value + total <= KERNEL_LIMIT
      ensures r.Halt? ==> Stops(r.why, {total}, false)
    {
      ghost var sh, was := Sh(), EntriesOf(slots, addr, len);
      ReblockedNone(slots, addr, len);
      ent := was;
      var at: nat, n := addr, len;
      while n < total
        invariant len <= n <= total && Valid() && Quiet() && kmap == old(kmap)
        invariant |ent| == n && Grown(was, ent, rw, user) && Reblocked(old(slots), slots, addr, len, at, ent)
        invariant 1 <= at && at + total <= KERNEL_LIMIT && NewFrames(ent, len, old(used), used)
        invariant Vacant(old(slots), Kernel, addr + len, total - len) ==> at == addr
      {
        BlockNotOwned(sh, slots, addr, len, at, ent);
        GrownPresent(old(slots), addr, len, ent, rw, user);
        BehindFree(old(slots), slots, addr, len, at, ent, total);
        ghost var used1 := used;
        var place, f := GrowPage(at, n, total, rw, user, old(slots), addr, len, ent);
        if place.Halt? {
          return Halt(place.why), ent;
        }
        GrownMore(was, ent, rw, user, f);
        NewFramesMore(ent, len, old(used), used1, used, Present(rw, user, Plain, f));
        ent := ent + [Present(rw, user, Plain, f)];
        at, n := place.value, n + 1;
      }
      return Ok(at), ent;
    }

    /** pagingReAllocatePhysMem in the kernel; 0 stands for NULL.  The pages that stay keep their entries, and so
        their bytes, wherever the block ends up; new ones get frames of their own; the rest is released. */
    method ReAllocatePhysMem(addr: nat, len: nat, total: nat, rw: bool, user: bool)
                             returns (r: Outcome<nat>, ghost ent: seq<Entry>)
      requires Valid() && Quiet() && total <= WORD - KERNEL_LIMIT && IsBlock(addr, len)
      requires if addr == 0 then len == 0 else addr + len <= KERNEL_LIMIT && addr + total <= KERNEL_LIMIT
      modifies `used, `pend, `slots, `extra, `kmap, `temp, `open, `resv
      ensures Valid() && (r.Ok? ==> Quiet() && kmap == old(kmap) && Memory() == old(Memory()))
      ensures r.Ok? ==>
                |ent| == total && Reblocked(old(slots), slots, addr, len, if total == 0 then addr else r.value, ent)
      ensures r.Ok? && len < total ==> Grown(EntriesOf(old(slots), addr, len), ent, rw, user)
      ensures r.Ok? && len < total ==> NewFrames(ent, len, old(used), used)
      ensures r.Ok? && total <= len ==>
                ent == EntriesOf(old(slots), addr, len)[..total] && r.value == if total == 0 then 0 else addr
      ensures r.Ok? && len < total && addr > 0 && Vacant(old(slots), Kernel, addr + len, total - len) ==>
                r.value == addr
      ensures r.Ok? ==>
                Carried(KernelMemory(old(slots), data), KernelMemory(slots, data), addr * PAGE_SIZE, len * PAGE_SIZE,
                                (if total == 0 then addr else r.value) * PAGE_SIZE, total * PAGE_SIZE)
      ensures r.Halt? ==> Stops(r.why, {total}, false)
    {
      if len >= total {
        ent := EntriesOf(slots, addr, len)[..total];
        CommonPart(slots, addr, len, ent, rw, user);
        CutBlock(addr, len, total, ent);
        BytesCarried(old(slots), slots, data, addr, len, addr, ent);
        r := Ok(if total == 0 then 0 else addr);
        return;
      }
      var from := addr;
      if addr == 0 {
        PagesBounded();
        ShortNeverWraps(slots, Kernel, total);
        var b := TrySearchArea(slots, Kernel, total);
        if b.None? {
          return Halt(SpaceFull(total)), [];
        }
        from := b.value;
      }
      r, ent := GrowBlock(from, len, total, rw, user);
      if r.Ok? {
        SameStart(old(slots), slots, addr, from, len, r.value, ent);
        ReblockedView(old(slots), slots, data, addr, len, r.value, ent);
        CommonPart(old(slots), addr, len, ent, rw, user);
        BytesCarried(old(slots), slots, data, addr, len, r.value, ent);
      }
    }

    /** All pages of the range are there and go; the source's assertions hold. */
    method ReleaseTail(page: nat, n: nat)
      requires Valid() && Quiet() && page < PAGE_COUNT && n <= PAGE_COUNT && AllThere(slots, Kernel, page, n, false)
      requires forall o :: o in kmap ==> !InRange(page, n, kmap[o])
      modifies `used, `pend, `slots, `extra, `temp, `resv
      ensures Valid() && Quiet() && slots == old(slots) - Hits(old(slots), Kernel, page, n, false)
    {
      var there := TryRelease(Kernel, page, n, false);
      assert there;
    }

    /** The shrinking half. */
    method CutBlock(addr: nat, len: nat, total: nat, ghost ent: seq<Entry>)
      requires Valid() && Quiet() && IsBlock(addr, len) && total <= len && addr + len <= KERNEL_LIMIT
      requires ent == EntriesOf(slots, addr, len)[..total]
      modifies `used, `pend, `slots, `extra, `temp, `resv
      ensures Valid() && Quiet() && Memory() == old(Memory()) && Reblocked(old(slots), slots, addr, len, addr, ent)
    {
      CutReady(addr, len, total, ent);
      ReleaseTail(addr + total, len - total);
    }

    /** The end of a block is there to be released; the rest stays. */
    lemma CutReady(addr: nat, len: nat, total: nat, ent: seq<Entry>)
      requires Valid() && IsBlock(addr, len) && total <= len && addr + len <= KERNEL_LIMIT
               && ent == EntriesOf(slots, addr, len)[..total]
      ensures AllThere(slots, Kernel, addr + total, len - total, false)
      ensures forall o :: o in kmap ==> !InRange(addr + total, len - total, kmap[o])
      ensures var t := slots - Hits(slots, Kernel, addr + total, len - total, false);
              Reblocked(slots, t, addr, len, addr, ent) && View(t, data) == Memory()
    {
      CutRange(Sh(), addr, len, total);
      CutView(slots, data, addr, len, total, Hits(slots, Kernel, addr + total, len - total, false));
    }

    /** pagingAllocProcessPageTable: a kernel page for the page directory of p. */
    method AllocProcessPageTable(p: nat) returns (r: Outcome<()>)
      requires Valid() && Quiet() && DirOf(p) !in kmap
      modifies `used, `extra, `pend, `slots, `kmap, `temp, `open
      ensures Valid()
      ensures r.Ok? ==> Quiet() && DirOf(p) in kmap && kmap == old(kmap)[DirOf(p) := kmap[DirOf(p)]]
      ensures r.Ok? ==> Extends(old(slots), slots) && Memory() == old(Memory())
      ensures r.Halt? ==> Stops(r.why, {1}, false)
      ensures r.Ok? ==> Spent(old(slots), old(used), slots, used, 3, 2)
      ensures r.Halt? ==> Frames(old(used)) < 3 || Room(old(slots)) < 2
    {
      ghost var sh := Sh();
      var at :- NewKernelPage();
      OwnersElsewhere(sh, Pte(Kernel, at));
      AdoptPage(DirOf(p), at);
      ExtendsView(old(slots), slots, data);
      return Ok(());
    }

    /** pagingAllocatePhysMem(NULL, 1, true, false). */
    method NewKernelPage() returns (r: Outcome<nat>)
      requires Valid() && Quiet()
      modifies `used, `extra, `pend, `slots, `kmap, `temp, `open
      ensures Valid()
      ensures r.Ok? ==> Quiet() && kmap == old(kmap) && Extends(old(slots), slots)
      ensures r.Ok? ==>
                Pte(Kernel, r.value) !in old(slots) && Pte(Kernel, r.value) in slots
                    && slots[Pte(Kernel, r.value)].Present?
      ensures r.Ok? ==> Spent(old(slots), old(used), slots, used, 3, 2)
      ensures r.Halt? ==> Stops(r.why, {1}, false) && (Frames(old(used)) < 3 || Room(old(slots)) < 2)
    {
      var at :- TryAllocatePhysMem(Kernel, 1, true, false);
      if at.None? {
        NoRunNoPages(slots);
        return Halt(SpaceFull(1));
      }
      assert Pte(Kernel, at.value) !in old(slots) && Pte(Kernel, at.value) in slots;
      return Ok(at.value);
    }

    /** Marks a writable page of the parent copy-on-write. */
    method Demote(k: Slot)
      requires Valid() && k in slots && slots[k].Present?
      modifies `slots
      ensures Valid() && slots == old(slots)[k := Cowed(old(slots)[k])]
    {
      var e := Cowed(slots[k]);
      RemarkKeepsAccounts(used, extra, slots, pend, holes, k, e);
      assert SlotOk(Sh(), k);
      if e != slots[k] { IsolatedDemote(slots, temp, k, e); } else { assert slots[k := e] == slots; }
      SlotsRemark(Sh(), k, e);
      slots := slots[k := e];
    }

    /** The child's slot takes a copy of the parent's read-only entry and one more reference. */
    method ShareInto(k: Slot, c: Slot) returns (r: Outcome<()>)
      requires Valid() && temp == {} && k in slots && c !in slots && slots[k].Present? && !slots[k].rw
      requires k.Pte? && k.space.User? && c.Pte? && c.space.User? && PageOk(c.space, c.page)
      requires Pde(c.space, c.page / TABLE_COUNT) in slots
      modifies `extra, `pend, `slots
      ensures Valid()
      ensures r.Ok? ==> pend == old(pend) && slots == old(slots)[c := old(slots)[k]]
      ensures r.Halt? ==> Stops(r.why, {}, true)
      ensures r.Halt? ==> Refs(old(slots), old(pend), old(slots)[k].frame) == REF_MAX
      ensures used == old(used)
    {
      var e := slots[k];
      NamedHasRef(slots, pend, k);
      var _ :- AddRefPage(e.frame);
      PutKeepsAccounts(used, extra, slots, pend, holes, c, e);
      IsolatedShare(slots, k, c);
      assert SlotOk(Sh(), k);
      SlotsPut(Sh(), c, e, Sh().(slots := slots[c := e]));
      slots, pend := slots[c := e], pend - multiset{e.frame};
      return Ok(());
    }

    /** One page of pagingForkProcessPageTable. */
    method ForkPage(src: nat, dst: nat, page: nat) returns (r: Outcome<()>)
      requires Valid() && Quiet() && src != dst && DirOf(dst) in kmap
      requires Pte(User(src), page) in slots && Pte(User(dst), page) !in slots
      modifies `used, `extra, `pend, `slots, `kmap, `temp, `open
      ensures Valid()
      ensures r.Ok? ==>
                Quiet() && MoreOwners(User(dst), old(kmap), kmap) && Forked(old(slots), slots, src, dst, page, page + 1)
      ensures r.Halt? ==> Stops(r.why, {1}, true)
      ensures r.Ok? ==> old(used) <= used && BookFresh(old(slots), slots, dst, old(used))
      ensures r.Ok? ==> Budget(old(slots), old(used), slots, used, dst)
      ensures r.Ok? ==> Tables(slots, dst) <= Tables(old(slots), dst) + {page / TABLE_COUNT}
      ensures r.Halt? ==>
                || (Pde(User(dst), page / TABLE_COUNT) !in old(slots)
                    && (Frames(old(used)) < 2 || Room(old(slots)) == 0))
                || |Namers(old(slots), FrameAt(old(slots), Pte(User(src), page)))| >= REF_MAX
    {
      var k, c := Pte(User(src), page), Pte(User(dst), page);
      assert SlotOk(Sh(), k);
      var _ :- EnsureTable(User(dst), page);
      ghost var mid := slots;
      TableBudget(old(slots), old(used), mid, used, dst, page / TABLE_COUNT);
      SameNamers(old(slots), old(used), old(extra), old(pend), holes, mid, k);
      Demote(k);
      DemotedNamers(mid, k);
      r := ShareInto(k, c);
      if r.Ok? {
        ForkedOne(old(slots), mid, slots, src, dst, page);
        SharedBudget(old(slots), old(used), mid, used, k, c, dst);
      }
    }

    lemma PagesBacked(p: nat)
      requires Valid() && Quiet()
      ensures Backed(slots, used, p)
    {
      forall k | k in slots && k.Pte? && k.space == User(p)
        ensures slots[k].Present? && slots[k].frame in used
      {
        assert SlotOk(Sh(), k);
        NamedHasRef(slots, pend, k);
        assert FrameOk(used, extra, slots, pend, holes, slots[k].frame);
      }
    }

    /** The page tables of a process are those the kernel has mapped. */
    lemma TablesOwned(p: nat)
      requires Valid() && open == {}
      ensures forall i {:trigger i in Tables(slots, p)} ::
                i in Tables(slots, p) <==> 0 <= i < TABLE_COUNT && TableOf(p, i) in kmap
    {
      forall i: nat | i < TABLE_COUNT
        ensures Pde(User(p), i) in slots <==> TableOf(p, i) in kmap
      {
        assert Pde(User(p), i) in slots ==> SlotOk(Sh(), Pde(User(p), i));
        assert TableOf(p, i) in kmap ==> OwnerOk(Sh(), TableOf(p, i));
      }
    }

    lemma NoOwnedTables(p: nat)
      requires Valid() && DirOf(p) !in kmap
      ensures forall i :: TableOf(p, i) !in kmap
    {
      forall i
        ensures TableOf(p, i) !in kmap
      {
        assert TableOf(p, i) in kmap ==> OwnerOk(Sh(), TableOf(p, i));
      }
    }

    lemma AllBacked()
      requires Valid()
      ensures forall k :: k in slots && slots[k].Present? ==> slots[k].frame in used
    {
      forall k | k in slots && slots[k].Present?
        ensures slots[k].frame in used
      {
        NamedHasRef(slots, pend, k);
        assert FrameOk(used, extra, slots, pend, holes, slots[k].frame);
      }
    }

    /** The loop of pagingForkProcessPageTable, which skips missing page tables. */
    method ForkPages(src: nat, dst: nat) returns (r: Outcome<()>)
      requires Valid() && Quiet() && src != dst && DirOf(dst) in kmap
      requires forall page :: Pte(User(dst), page) !in slots
      modifies `used, `extra, `pend, `slots, `kmap, `temp, `open
      ensures Valid()
      ensures r.Ok? ==>
                Quiet() && MoreOwners(User(dst), old(kmap), kmap) && Forked(old(slots), slots, src, dst, 0, PAGE_COUNT)
      ensures r.Halt? ==> Stops(r.why, {1}, true)
      requires Tables(slots, dst) == {}
      ensures r.Ok? ==> Forking(old(slots), old(used), slots, used, src, dst)
      ensures r.Halt? ==> ForkShort(old(slots), old(used), src)
    {
      var i := 0;
      PagesBounded();
      PagesBacked(src);
      while i < PAGE_COUNT
        invariant i <= PAGE_COUNT && Valid() && Quiet() && MoreOwners(User(dst), old(kmap), kmap)
        invariant Forked(old(slots), slots, src, dst, 0, i) && Forking(old(slots), old(used), slots, used, src, dst)
      {
        i :- ForkNext(src, dst, i, old(slots), old(used));
      }
      return Ok(());
    }

    method ForkNext(src: nat, dst: nat, i: nat, ghost slots0: map<Slot, Entry>, ghost used0: set<nat>)
      returns (r: Outcome<nat>)
      requires Valid() && Quiet() && src != dst && DirOf(dst) in kmap && i < PAGE_COUNT
      requires Forked(slots0, slots, src, dst, 0, i) && forall page :: Pte(User(dst), page) !in slots0
      requires forall k ::
                 k in slots0 && k.Pte? ==> PageOk(k.space, k.page) && Pde(k.space, k.page / TABLE_COUNT) in slots0
      modifies `used, `extra, `pend, `slots, `kmap, `temp, `open
      ensures Valid()
      ensures r.Ok? ==> Quiet() && MoreOwners(User(dst), old(kmap), kmap) && i < r.value <= PAGE_COUNT
      ensures r.Ok? ==> Forked(slots0, slots, src, dst, 0, r.value)
      ensures r.Halt? ==> Stops(r.why, {1}, true)
      requires Forking(slots0, used0, slots, used, src, dst) && Backed(slots0, used0, src)
      ensures r.Ok? ==> Forking(slots0, used0, slots, used, src, dst)
      ensures r.Halt? ==> ForkShort(slots0, used0, src)
    {
      if Pde(User(src), i / TABLE_COUNT) !in slots {
        var next := i / TABLE_COUNT * TABLE_COUNT + TABLE_COUNT;
        ForkedSkip(slots0, slots, src, dst, i, next);
        return Ok(next);
      }
      if Pte(User(src), i) in slots {
        var _ :- ForkThis(src, dst, i, slots0, used0);
      }
      return Ok(i + 1);
    }

    method ForkThis(src: nat, dst: nat, i: nat, ghost slots0: map<Slot, Entry>, ghost used0: set<nat>)
      returns (r: Outcome<()>)
      requires Valid() && Quiet() && src != dst && DirOf(dst) in kmap && i < PAGE_COUNT && Pte(User(src), i) in slots
      requires Forked(slots0, slots, src, dst, 0, i) && forall page :: Pte(User(dst), page) !in slots0
      requires forall k ::
                 k in slots0 && k.Pte? ==> PageOk(k.space, k.page) && Pde(k.space, k.page / TABLE_COUNT) in slots0
      requires Forking(slots0, used0, slots, used, src, dst) && Backed(slots0, used0, src)
      modifies `used, `extra, `pend, `slots, `kmap, `temp, `open
      ensures Valid()
      ensures r.Ok? ==> Quiet() && MoreOwners(User(dst), old(kmap), kmap)
      ensures r.Ok? ==> Forked(slots0, slots, src, dst, 0, i + 1) && Forking(slots0, used0, slots, used, src, dst)
      ensures r.Halt? ==> Stops(r.why, {1}, true) && ForkShort(slots0, used0, src)
    {
      ghost var was, used1 := slots, used;
      assert Pte(User(src), i) in slots0;
      r := ForkPage(src, dst, i);
      if r.Halt? {
        ForkStopped(slots0, used0, was, used1, src, dst, i);
      } else {
        ForkedStep(slots0, was, slots, src, dst, i);
        ForkingStep(slots0, used0, was, used1, slots, used, src, dst, i / TABLE_COUNT);
      }
    }

    lemma NeverOver(slots1: map<Slot, Entry>, used1: set<nat>, slots0: map<Slot, Entry>, used0: set<nat>, src: nat,
                    dst: nat)
      requires Valid() && Quiet() && src != dst && Forked(slots0, slots, src, dst, 0, PAGE_COUNT)
      requires Forking(slots0, used0, slots, used, src, dst) && (forall page :: Pte(User(dst), page) !in slots0)
      requires Backed(slots0, used0, src) && Extends(slots1, slots0) && NamesFresh(slots1, slots0, used1)
               && used1 <= used0
      requires forall k :: k in slots1 && slots1[k].Present? ==> slots1[k].frame in used1
      requires forall k :: k in slots0 && k.Pte? ==> k.page < PAGE_COUNT
      ensures forall f :: ForkCount(slots1, src, f) <= REF_MAX
    {
      forall f
        ensures ForkCount(slots1, src, f) <= REF_MAX
      {
        if f in used1 {
          ForkCounted(slots0, used0, slots, used, extra, holes, src, dst, f);
          SameForkCount(slots1, used1, slots0, src, f);
        } else {
          assert Namers(slots1, f) == {} && NamersIn(slots1, src, f) == {};
        }
      }
    }

    /** pagingForkProcessPageTable: afterwards every process sees what it would see had every user
        page of the parent been copied at once. */
    method ForkProcessPageTable(src: nat, dst: nat) returns (r: Outcome<()>)
      requires Valid() && Quiet() && DirOf(src) in kmap && DirOf(dst) !in kmap
      requires forall page :: Pte(User(dst), page) !in slots
      modifies `used, `extra, `pend, `slots, `kmap, `temp, `open
      ensures Valid()
      ensures r.Ok? ==>
                Quiet() && DirOf(dst) in kmap && MoreOwners(User(dst), old(kmap)[DirOf(dst) := kmap[DirOf(dst)]], kmap)
      ensures r.Ok? ==> Memory() == ForkView(old(Memory()), src, dst)
      ensures r.Halt? ==> Stops(r.why, {1}, true)
      ensures r.Ok? ==> forall f :: ForkCount(old(slots), src, f) <= REF_MAX
      ensures r.Halt? ==> !ForkFits(old(slots), old(used), src) || ForkOverflows(old(slots), src)
    {
      AllBacked();
      var _ :- NewDirectory(src, dst);
      ghost var slots0, used0 := slots, used;
      r := ForkPages(src, dst);
      if r.Halt? {
        StillShort(old(slots), old(used), slots0, used0, src);
        return;
      }
      ForkedView(slots0, slots, data, src, dst);
      NeverOver(old(slots), old(used), slots0, used0, src, dst);
    }

    /** The child's page directory; the parent's tables are what they were. */
    method NewDirectory(src: nat, dst: nat) returns (r: Outcome<()>)
      requires Valid() && Quiet() && DirOf(src) in kmap && DirOf(dst) !in kmap
      requires forall page :: Pte(User(dst), page) !in slots
      modifies `used, `extra, `pend, `slots, `kmap, `temp, `open
      ensures Valid()
      ensures r.Ok? ==> Quiet() && DirOf(dst) in kmap && kmap == old(kmap)[DirOf(dst) := kmap[DirOf(dst)]]
      ensures r.Ok? ==>
                Extends(old(slots), slots) && Memory() == old(Memory())
                && Spent(old(slots), old(used), slots, used, 3, 2)
      ensures r.Ok? ==> Tables(slots, src) == Tables(old(slots), src) && Tables(slots, dst) == {}
      ensures r.Ok? ==> Backed(old(slots), old(used), src) && Backed(slots, used, src)
      ensures r.Ok? ==> forall page :: Pte(User(dst), page) !in slots
      ensures r.Ok? ==> forall k :: k in slots && k.Pte? ==> k.page < PAGE_COUNT
      ensures r.Halt? ==> Stops(r.why, {1}, true) && (Frames(old(used)) < 3 || Room(old(slots)) < 2)
    {
      NoOwnedTables(dst);
      PagesBacked(src);
      TablesOwned(src);
      var _ :- AllocProcessPageTable(dst);
      TablesOwned(src);
      TablesOwned(dst);
      PagesBacked(src);
      PagesBounded();
      return Ok(());
    }

    /** Sole owner of a copy-on-write page: the write permission comes back. */
    method Promote(k: Slot)
      requires Valid() && k in slots && slots[k].Present? && |Namers(slots, slots[k].frame)| <= 1
      modifies `slots
      ensures Valid() && slots == old(slots)[k := old(slots)[k].(rw := true, avail := Plain)]
    {
      var e := slots[k].(rw := true, avail := Plain);
      RemarkKeepsAccounts(used, extra, slots, pend, holes, k, e);
      IsolatedPromote(slots, temp, k, e);
      SlotsRemark(Sh(), k, e);
      slots := slots[k := e];
    }

    /** A user slot is pointed at a fresh frame; the reference to the old one is now held. */
    method Retarget(k: Slot, f: nat)
      requires Valid() && k in slots && IsUser(k, slots[k]) && pend[f] > 0 && Namers(slots, f) == {}
      modifies `slots, `pend
      ensures Valid() && slots == old(slots)[k := Present(true, true, Plain, f)]
      ensures pend == old(pend) + multiset{old(slots)[k].frame} - multiset{f}
    {
      var e := Present(true, true, Plain, f);
      assert SlotOk(Sh(), k);
      ClearKeepsAccounts(used, extra, slots, pend, holes, k);
      PutKeepsAccounts(used, extra, slots - {k}, pend + multiset{slots[k].frame}, holes, k, e);
      RetargetSound(Sh(), k, e);
      assert (slots - {k})[k := e] == slots[k := e];
      slots, pend := slots[k := e], pend + multiset{slots[k].frame} - multiset{f};
    }

    /** Both frames are mapped into the kernel, copied there, and unmapped again. */
    method CopyFrame(to: nat, from: nat) returns (r: Outcome<()>)
      requires Valid() && Refs(slots, pend, to) > 0 && Refs(slots, pend, from) > 0
      modifies `used, `extra, `pend, `slots, `temp, `resv, `data
      ensures Valid()
      ensures r.Ok? ==> Extends(old(slots), slots) && pend == old(pend) && temp == old(temp) && resv == old(resv)
      ensures r.Ok? ==> from in old(data) && data == old(data)[to := old(data)[from]]
      ensures r.Halt? ==> Stops(r.why, {1}, true)
    {
      var ab :- MapTwo(to, from);
      CopyMapped(ab.0, ab.1);
      UnmapTwo(ab.0, ab.1);
      return Ok(());
    }

    method MapTwo(to: nat, from: nat) returns (r: Outcome<(nat, nat)>)
      requires Valid() && Refs(slots, pend, to) > 0 && Refs(slots, pend, from) > 0
      modifies `used, `extra, `pend, `slots, `temp
      ensures Valid()
      ensures r.Ok? ==>
                var (a, b) := r.value;
                && a != b && TwoMapped(old(slots), slots, a, b, to, from)
                && pend == old(pend) && temp == old(temp) + {a, b} && {a, b} !! old(temp)
                && (forall o :: o in kmap ==> kmap[o] != a && kmap[o] != b)
      ensures r.Halt? ==> Stops(r.why, {1}, true)
    {
      var a :- MapTemp(to);
      RefsGrow(old(slots), slots, pend, from);
      var b :- MapTemp(from);
      return Ok((a, b));
    }

    method UnmapTwo(a: nat, b: nat)
      requires Valid() && a != b && Pte(Kernel, a) in slots && Pte(Kernel, b) in slots
      requires slots[Pte(Kernel, a)].Present? && slots[Pte(Kernel, b)].Present?
      requires forall o :: o in kmap ==> kmap[o] != a && kmap[o] != b
      modifies `used, `extra, `pend, `slots, `temp, `resv
      ensures Valid() && slots == old(slots) - {Pte(Kernel, a), Pte(Kernel, b)}
      ensures pend == old(pend) && temp == old(temp) - {a, b} && resv == old(resv)
    {
      assert SlotOk(Sh(), Pte(Kernel, a)) && SlotOk(Sh(), Pte(Kernel, b));
      ReleaseSlot(Pte(Kernel, a));
      ReleaseSlot(Pte(Kernel, b));
    }

    /** __pagingMapPhysMem(NULL, physMemAddRefPage(f), NULL, true, false). */
    method MapTemp(f: nat) returns (r: Outcome<nat>)
      requires Valid() && Refs(slots, pend, f) > 0
      modifies `used, `extra, `pend, `slots, `temp
      ensures Valid()
      ensures r.Ok? ==>
                && pend == old(pend) && temp == old(temp) + {r.value} && r.value !in old(temp)
                && Pte(Kernel, r.value) !in old(slots) && Pte(Kernel, r.value) in slots
                && slots[Pte(Kernel, r.value)] == Present(true, false, Plain, f)
                && Extends(old(slots), slots)
                && (forall o :: o in kmap ==> kmap[o] != r.value)
      ensures r.Halt? ==> Stops(r.why, {1}, true)
    {
      var _ :- AddRefPage(f);
      ghost var sh := Sh();
      r := MapPhysMem(f, true, true);
      if r.Ok? {
        OwnersElsewhere(sh, Pte(Kernel, r.value));
      }
    }

    /** memcpy of one page between two kernel mappings. */
    method CopyMapped(a: nat, b: nat)
      requires Valid() && Pte(Kernel, a) in slots && Pte(Kernel, b) in slots
      requires slots[Pte(Kernel, a)].Present? && slots[Pte(Kernel, b)].Present?
      modifies `data
      ensures Valid() && slots[Pte(Kernel, b)].frame in old(data)
      ensures data == old(data)[slots[Pte(Kernel, a)].frame := old(data)[slots[Pte(Kernel, b)].frame]]
    {
      var to, from := slots[Pte(Kernel, a)].frame, slots[Pte(Kernel, b)].frame;
      NamedHasRef(slots, pend, Pte(Kernel, a));
      NamedHasRef(slots, pend, Pte(Kernel, b));
      assert FrameOk(used, extra, slots, pend, holes, to);
      assert FrameOk(used, extra, slots, pend, holes, from);
      data := data[to := data[from]];
    }

    /** A copy-on-write page becomes private and writable; what every process sees stays the same. */
    method Duplicate(k: Slot) returns (r: Outcome<()>)
      requires Valid() && pend == multiset{} && k in slots && IsUser(k, slots[k]) && slots[k].avail == Cow
      modifies `used, `extra, `pend, `slots, `temp, `resv, `data
      ensures Valid()
      ensures r.Ok? ==>
                && pend == multiset{} && temp == old(temp) && resv == old(resv)
                && k in slots && slots[k].Present? && slots[k] == Present(true, true, Plain, slots[k].frame)
                && Extends(old(slots)[k := slots[k]], slots)
                && Memory() == old(Memory())
      ensures r.Halt? ==> Stops(r.why, {1}, true)
    {
      var was := slots[k].frame;
      NamedHasRef(slots, pend, k);
      var last := IsLastRef(was);
      if last {
        Promote(k);
        return Ok(());
      }
      r := SplitPage(k);
    }

    method SplitPage(k: Slot) returns (r: Outcome<()>)
      requires Valid() && pend == multiset{} && k in slots && IsUser(k, slots[k]) && slots[k].avail == Cow
      modifies `used, `extra, `pend, `slots, `temp, `resv, `data
      ensures Valid()
      ensures r.Ok? ==>
                && pend == multiset{} && temp == old(temp) && resv == old(resv)
                && k in slots && slots[k].Present? && slots[k] == Present(true, true, Plain, slots[k].frame)
                && Extends(old(slots)[k := slots[k]], slots)
                && Memory() == old(Memory())
      ensures r.Halt? ==> Stops(r.why, {1}, true)
    {
      var was := slots[k].frame;
      var f :- MoveToFresh(k);
      r := FillFrom(f, was, k);
      if r.Ok? {
        DuplicateView(old(slots), slots, old(data), k, f);
      }
    }

    method MoveToFresh(k: Slot) returns (r: Outcome<nat>)
      requires Valid() && k in slots && IsUser(k, slots[k])
      modifies `used, `pend, `slots
      ensures Valid()
      ensures r.Ok? ==>
                && slots == old(slots)[k := Present(true, true, Plain, r.value)] && Namers(old(slots), r.value) == {}
                && pend == old(pend) + multiset{old(slots)[k].frame}
      ensures r.Halt? ==> Stops(r.why, {1}, true)
    {
      var f :- AllocPage();
      Retarget(k, f);
      return Ok(f);
    }

    /** The fresh frame gets the old bytes and the old frame loses one reference. */
    method FillFrom(f: nat, was: nat, ghost k: Slot) returns (r: Outcome<()>)
      requires Valid() && k in slots && Names(slots[k], f) && pend[was] > 0
      modifies `used, `extra, `pend, `slots, `temp, `resv, `data
      ensures Valid()
      ensures r.Ok? ==>
                && Extends(old(slots), slots) && pend == old(pend) - multiset{was} && temp == old(temp)
                && resv == old(resv)
                && data == old(data)[f := Content(old(data), was)]
      ensures r.Halt? ==> Stops(r.why, {1}, true)
    {
      NamedHasRef(slots, pend, k);
      var _ :- CopyFrame(f, was);
      var _ := ReleasePage(was);
      return Ok(());
    }

    /** interrupt_0x0E for a user access: the fault is resolved exactly when the process may do what
        it tried, and resolving it changes nothing that any process sees. */
    method PageFault(p: nat, page: nat, write: bool) returns (r: Outcome<bool>)
      requires Valid() && Quiet()
      modifies `used, `extra, `pend, `slots, `temp, `resv, `data
      ensures Valid()
      ensures r.Ok? ==>
                var k := Pte(User(p), page);
                && Quiet() && Memory() == old(Memory())
                && (r.value <==> k in Memory() && (write ==> Memory()[k].writable))
                && (r.value && write ==> k in slots && IsUser(k, slots[k]) && slots[k].rw)
      ensures r.Halt? ==> Stops(r.why, {1}, true)
    {
      var k := Pte(User(p), page);
      if k !in slots || !slots[k].user {
        return Ok(false);
      }
      assert SlotOk(Sh(), k);
      if !slots[k].rw && write {
        if slots[k].avail != Cow {
          return Ok(false);
        }
        var _ :- Duplicate(k);
      }
      return Ok(true);
    }

    /** A load by user code; the processor checks presence and the user bit. */
    method UserRead(p: nat, page: nat, offset: nat) returns (r: Option<bv8>)
      requires Valid() && Quiet() && offset < PAGE_SIZE
      ensures var k := Pte(User(p), page);
              r == if k in Memory() && offset < |Memory()[k].bytes| then Some(Memory()[k].bytes[offset]) else None
    {
      var k := Pte(User(p), page);
      if k in slots && slots[k].Present? && slots[k].user {
        NamedHasRef(slots, pend, k);
        assert FrameOk(used, extra, slots, pend, holes, slots[k].frame);
        return Some(data[slots[k].frame][offset]);
      }
      return None;
    }

    /** A store by user code: on a write-protected page the processor raises the fault and retries. */
    method UserWrite(p: nat, page: nat, offset: nat, b: bv8) returns (r: Outcome<bool>)
      requires Valid() && Quiet() && offset < PAGE_SIZE
      modifies `used, `extra, `pend, `slots, `temp, `resv, `data
      ensures Valid()
      ensures r.Ok? ==>
                var k := Pte(User(p), page);
                && Quiet() && (r.value <==> k in old(Memory()) && old(Memory())[k].writable)
                && Memory() == (if r.value
                    && offset < |old(Memory())[k].bytes| then Poke(old(Memory()), k, offset, b) else old(Memory()))
      ensures r.Halt? ==> Stops(r.why, {1}, true)
    {
      var k := Pte(User(p), page);
      if !(k in slots && slots[k].Present? && slots[k].user && slots[k].rw) {
        var handled :- PageFault(p, page, true);
        if !handled {
          return Ok(false);
        }
      }
      StoreByte(k, offset, b);
      return Ok(true);
    }

    /** The processor's store through a writable user entry. */
    method StoreByte(k: Slot, offset: nat, b: bv8)
      requires Valid() && k in slots && IsUser(k, slots[k]) && slots[k].rw && offset < PAGE_SIZE
      modifies `data
      ensures Valid() && k in old(Memory()) && offset < |old(Memory())[k].bytes|
              && Memory() == Poke(old(Memory()), k, offset, b)
    {
      var f := slots[k].frame;
      NamedHasRef(slots, pend, k);
      assert FrameOk(used, extra, slots, pend, holes, f);
      WriteView(slots, temp, data, k, data[f][offset := b]);
      data := data[f := data[f][offset := b]];
    }

    /** First loop of pagingReleaseProcessPageTable: every page of p is given back. */
    method ReleasePages(p: nat)
      requires Valid() && Quiet()
      modifies `used, `extra, `pend, `slots, `temp, `resv
      ensures Valid() && Quiet() && Memory() == old(Memory()) - OfProcess(old(Memory()), p)
      ensures forall v :: Pte(User(p), v) !in slots
    {
      var i := 0;
      ghost var slots0 := slots;
      PagesBounded();
      while i < PAGE_COUNT
        invariant i <= PAGE_COUNT && Valid() && Quiet() && slots == slots0 - PagesOf(slots0, p, i)
      {
        if Pde(User(p), i / TABLE_COUNT) !in slots {
          var next := i / TABLE_COUNT * TABLE_COUNT + TABLE_COUNT;
          PagesOfSkip(slots0, p, i, next);
          i := next;
        } else {
          PagesOfStep(slots0, p, i);
          if Pte(User(p), i) in slots {
            ReleaseSlot(Pte(User(p), i));
          }
          i := i + 1;
        }
      }
      NoPagesLeft(slots0, slots, p);
      PagesOfView(slots0, data, p);
    }

    /** The kernel's mapping of one page table of p goes, then its page-directory entry. */
    method DropTable(p: nat, i: nat)
      requires Valid() && Quiet() && i < TABLE_COUNT && forall v :: Pte(User(p), v) !in slots
      modifies `used, `extra, `pend, `slots, `temp, `resv, `kmap, `open
      ensures Valid() && Quiet() && kmap == old(kmap) - {TableOf(p, i)}
      ensures Shrinks(old(slots), slots, User(p)) && Pde(User(p), i) !in slots
    {
      var o := TableOf(p, i);
      if o in kmap {
        DropOwner(o);
      }
      DropPde(p, i);
    }

    /** The kernel forgets and unmaps a page directory or page table. */
    method DropOwner(o: Owner)
      requires Valid() && temp == {} && resv == {} && o in kmap && (o.DirOf? ==> forall i :: TableOf(o.pid, i) !in kmap)
      modifies `used, `extra, `pend, `slots, `temp, `resv, `kmap, `open
      ensures Valid() && pend == old(pend) && temp == {} && resv == {} && kmap == old(kmap) - {o}
      ensures open == if o.DirOf? then old(open) else old(open) + {o}
      ensures slots == old(slots) - {Pte(Kernel, old(kmap)[o])}
    {
      var page := kmap[o];
      assert OwnerOk(Sh(), o);
      ghost var sh := Sh();
      kmap, open := kmap - {o}, if o.DirOf? then open else open + {o};
      OwnerDrop(sh, o, Sh());
      ReleaseSlot(Pte(Kernel, page));
    }

    method DropPde(p: nat, i: nat)
      requires Valid() && pend == multiset{} && temp == {} && resv == {} && open <= {TableOf(p, i)}
      requires TableOf(p, i) !in kmap && forall v :: Pte(User(p), v) !in slots
      modifies `used, `extra, `pend, `slots, `open
      ensures Valid() && Quiet() && slots == old(slots) - {Pde(User(p), i)}
    {
      var k := Pde(User(p), i);
      ghost var sh := Sh();
      if k in slots {
        assert SlotOk(sh, k);
        ClearKeepsAccounts(used, extra, slots, pend, holes, k);
        var f := slots[k].frame;
        slots, pend, open := slots - {k}, pend + multiset{f}, open - {TableOf(p, i)};
        PdeDrop(sh, p, i, Sh());
        var _ := ReleasePage(f);
      } else {
        open := {};
        OpenClear(sh, p, i);
      }
    }

    method DropTables(p: nat)
      requires Valid() && Quiet() && forall v :: Pte(User(p), v) !in slots
      modifies `used, `extra, `pend, `slots, `temp, `resv, `kmap, `open
      ensures Valid() && Quiet() && Shrinks(old(slots), slots, User(p))
      ensures forall k :: k in slots ==> k.space != User(p)
      ensures forall i :: TableOf(p, i) !in kmap
      ensures forall o :: o in kmap ==> o in old(kmap)
      ensures forall o :: o in old(kmap) && !(o.TableOf? && o.pid == p) ==> o in kmap
    {
      var i := 0;
      while i < TABLE_COUNT
        invariant i <= TABLE_COUNT && Valid() && Quiet() && Shrinks(old(slots), slots, User(p))
        invariant forall v :: Pte(User(p), v) !in slots
        invariant forall j :: 0 <= j < i ==> Pde(User(p), j) !in slots && TableOf(p, j) !in kmap
        invariant forall o :: o in kmap ==> o in old(kmap)
        invariant forall o :: o in old(kmap) && !(o.TableOf? && o.pid == p) ==> o in kmap
      {
        DropTable(p, i);
        i := i + 1;
      }
      NoTablesLeft(Sh(), p);
    }

    /** pagingReleaseProcessPageTable: nothing of p is left, and no other process sees a change. */
    method ReleaseProcessPageTable(p: nat)
      requires Valid() && Quiet() && DirOf(p) in kmap
      modifies `used, `extra, `pend, `slots, `temp, `resv, `kmap, `open
      ensures Valid() && Quiet() && DirOf(p) !in kmap
      ensures forall k :: k in slots ==> k.space != User(p)
      ensures forall o :: o in kmap ==> o in old(kmap)
      ensures forall o :: o in old(kmap) && o.pid != p ==> o in kmap
      ensures Memory() == old(Memory()) - OfProcess(old(Memory()), p)
    {
      ReleasePages(p);
      DropDirectory(p);
    }

    /** Second half: page tables and page directory go; no process sees it. */
    method DropDirectory(p: nat)
      requires Valid() && Quiet() && DirOf(p) in kmap && forall v :: Pte(User(p), v) !in slots
      modifies `used, `extra, `pend, `slots, `temp, `resv, `kmap, `open
      ensures Valid() && Quiet() && DirOf(p) !in kmap && Memory() == old(Memory())
      ensures forall k :: k in slots ==> k.space != User(p)
      ensures forall o :: o in kmap ==> o in old(kmap)
      ensures forall o :: o in old(kmap) && o.pid != p ==> o in kmap
    {
      DropTables(p);
      ShrinksView(old(slots), slots, data, User(p));
      ghost var mid := slots;
      DropOwner(DirOf(p));
      ShrinksView(mid, slots, data, User(p));
    }

    /** pagingReserveArea(NULL, base, length, false). */
    method ReserveArea(base: nat, length: nat) returns (r: Outcome<()>)
      requires Valid() && Quiet() && FreeRun(slots, Kernel, base, length)
      modifies `used, `pend, `slots, `resv
      ensures Valid()
      ensures r.Ok? ==>
                pend == multiset{} && Held(old(slots), slots, base, length) && resv == KernelPages(base, base + length)
      ensures r.Halt? ==> Stops(r.why, {}, false)
    {
      var n := 0;
      while n < length
        invariant n <= length && Valid() && pend == multiset{}
        invariant Held(old(slots), slots, base, n) && resv == KernelPages(base, base + n)
      {
        assert Pte(Kernel, base + n) !in slots;
        var _ :- ReserveAt(base + n);
        n := n + 1;
      }
      return Ok(());
    }

    method ReserveAt(page: nat) returns (r: Outcome<()>)
      requires Valid() && PageOk(Kernel, page) && Pte(Kernel, page) !in slots
      modifies `used, `pend, `slots, `resv
      ensures Valid()
      ensures r.Ok? ==>
                && pend == old(pend) && resv == old(resv) + {Pte(Kernel, page)}
                && Held(old(slots), slots, page, 1)
      ensures r.Halt? ==> Stops(r.why, {}, false)
    {
      var _ :- EnsureKernelTable(page);
      var k := Pte(Kernel, page);
      ReserveKeepsAccounts(used, extra, slots, pend, holes, k, Reserved(false));
      ghost var sh := Sh();
      slots, resv := slots[k := Reserved(false)], resv + {k};
      SlotsReserve(sh, k, false, Sh());
      return Ok(());
    }

    /** A reserved kernel page becomes a window on a user page. */
    method OpenWindow(k: Slot, page: nat, rw: bool) returns (r: Outcome<()>)
      requires Valid() && k in slots && IsUser(k, slots[k]) && (rw ==> slots[k].rw)
      requires Pte(Kernel, page) in slots && slots[Pte(Kernel, page)].Reserved?
      requires forall o :: o in kmap ==> kmap[o] != page
      modifies `extra, `pend, `slots, `temp, `resv
      ensures Valid()
      ensures r.Ok? ==>
                && pend == old(pend) && temp == old(temp) + {page} && resv == old(resv) - {Pte(Kernel, page)}
                && slots == old(slots)[Pte(Kernel, page) := old(slots)[k].(rw := rw, user := false)]
      ensures r.Halt? ==> Stops(r.why, {}, true)
    {
      var w, e := Pte(Kernel, page), slots[k].(rw := rw, user := false);
      assert SlotOk(Sh(), k);
      NamedHasRef(slots, pend, k);
      var _ :- AddRefPage(e.frame);
      FillKeepsAccounts(used, extra, slots, pend, holes, w, e);
      IsolatedWindow(slots, temp, page, e);
      ghost var sh := Sh();
      slots, pend, temp, resv := slots[w := e], pend - multiset{e.frame}, temp + {page}, resv - {w};
      SlotsFill(sh, w, e, Sh());
      return Ok(());
    }

    /** One page of pagingTryMapUserMem: checked, made private if it will be written, and mapped. */
    method MapUserPage(k: Slot, page: nat, rw: bool) returns (r: Outcome<bool>)
      requires Valid() && pend == multiset{} && k.Pte? && k.space.User? && k !in resv
      requires Pte(Kernel, page) in slots && slots[Pte(Kernel, page)].Reserved?
      requires forall o :: o in kmap ==> kmap[o] != page
      modifies `used, `extra, `pend, `slots, `temp, `resv, `data
      ensures Valid()
      ensures r.Ok? ==>
                && pend == multiset{} && Memory() == old(Memory())
                && (r.value <==> k in Memory() && (rw ==> Memory()[k].writable))
                && (!r.value ==> slots == old(slots) && temp == old(temp) && resv == old(resv))
                && (r.value ==>
                      && temp == old(temp) + {page} && resv == old(resv) - {Pte(Kernel, page)}
                      && k in old(slots) && k in slots && IsUser(k, slots[k]) && (rw ==> slots[k].rw)
                      && Extends(old(slots)[k := slots[k]][Pte(Kernel, page) := slots[k].(rw := rw, user := false)],
                         slots))
      ensures r.Halt? ==> Stops(r.why, {1}, true)
    {
      if k !in slots || !slots[k].user {
        return Ok(false);
      }
      assert SlotOk(Sh(), k);
      if rw && !slots[k].rw {
        if slots[k].avail != Cow {
          return Ok(false);
        }
        var _ :- Duplicate(k);
      }
      ghost var mid := slots;
      var _ :- OpenWindow(k, page, rw);
      WindowView(mid, slots, data, page);
      return Ok(true);
    }

    /** The loop of pagingTryMapUserMem over reserved kernel pages. */
    method MapWindows(p: nat, page: nat, base: nat, length: nat, rw: bool) returns (r: Outcome<bool>)
      requires Valid() && pend == multiset{} && temp == {} && resv == KernelPages(base, base + length)
      requires page < PAGE_COUNT && length < PAGE_COUNT
      requires forall o :: o in kmap ==> !(base <= kmap[o] < base + length)
      modifies `used, `extra, `pend, `slots, `temp, `resv, `data
      ensures Valid()
      ensures r.Ok? ==>
                && pend == multiset{} && Memory() == old(Memory())
                && Borrowed(temp, resv, base, length) && Spanned(slots, base, length)
                && (r.value <==> Accessible(old(Memory()), p, page, length, rw))
                && (r.value ==> Windowed(slots, p, page, base, length, rw))
      ensures r.Halt? ==> Stops(r.why, {1}, true)
    {
      var n := 0;
      while n < length
        invariant n <= length && Valid() && pend == multiset{} && Memory() == old(Memory())
        invariant Borrowed(temp, resv, base, length) && Waiting(resv, base + n, base + length)
        invariant Windowed(slots, p, page, base, n, rw) && Accessible(old(Memory()), p, page, n, rw)
      {
        AccessibleStep(Memory(), p, page, n, rw);
        var ok :- MapNext(p, page, base, n, length, rw);
        if !ok {
          AccessibleLess(Memory(), p, page, n + 1, length, rw);
          WindowsSpan(Sh(), p, page, base, n, length, rw);
          return Ok(false);
        }
        n := n + 1;
      }
      WindowsSpan(Sh(), p, page, base, n, length, rw);
      return Ok(true);
    }

    method MapNext(p: nat, page: nat, base: nat, n: nat, length: nat, rw: bool) returns (r: Outcome<bool>)
      requires Valid() && pend == multiset{} && n < length < PAGE_COUNT && page < PAGE_COUNT
      requires Borrowed(temp, resv, base, length) && Waiting(resv, base + n, base + length)
      requires Windowed(slots, p, page, base, n, rw)
      requires forall o :: o in kmap ==> !(base <= kmap[o] < base + length)
      modifies `used, `extra, `pend, `slots, `temp, `resv, `data
      ensures Valid()
      ensures r.Ok? ==>
                var k := Pte(User(p), (page + n) % PAGE_COUNT);
                && pend == multiset{} && Memory() == old(Memory()) && Borrowed(temp, resv, base, length)
                && (r.value <==> k in Memory() && (rw ==> Memory()[k].writable))
                && (!r.value ==> slots == old(slots) && resv == old(resv))
                && (r.value ==> Waiting(resv, base + n + 1, base + length) && Windowed(slots, p, page, base, n + 1, rw))
      ensures r.Halt? ==> Stops(r.why, {1}, true)
    {
      var k := Pte(User(p), (page + n) % PAGE_COUNT);
      assert Pte(Kernel, base + n) in resv;
      assert SlotOk(Sh(), Pte(Kernel, base + n));
      r := MapUserPage(k, base + n, rw);
      if r == Ok(true) {
        WindowedStep(old(slots), slots, p, page, base, n, rw);
      }
    }

    /** pagingTryMapUserMem: all pages or none, and no process sees a difference. */
    method TryMapUserMem(p: nat, page: nat, length: nat, rw: bool) returns (r: Outcome<Option<nat>>)
      requires Valid() && Quiet() && page < PAGE_COUNT && 0 < length <= WORD - KERNEL_LIMIT
      modifies `used, `extra, `pend, `slots, `temp, `resv, `data
      ensures Valid()
      ensures r.Ok? ==>
                && pend == multiset{} && open == {} && Memory() == old(Memory())
                && (r.value.Some? <==> Accessible(old(Memory()), p, page, length, rw))
                && (r.value.None? ==> Quiet())
                && (r.value.Some? ==>
                      var base := r.value.value;
                      && 1 <= base && base + length <= KERNEL_LIMIT && Borrowed(temp, resv, base, length)
                      && Spanned(slots, base, length)
                      && Windowed(slots, p, page, base, length, rw)
                      && forall o :: o in kmap ==> !(base <= kmap[o] < base + length))
      ensures r.Halt? ==> Stops(r.why, {1, length}, true)
    {
      PagesBounded();
      ShortNeverWraps(slots, Kernel, length);
      var at := TrySearchArea(slots, Kernel, length);
      if at.None? {
        return Halt(SpaceFull(length));
      }
      var base := at.value;
      OwnersOutside(Sh(), base, length);
      var _ :- ReserveArea(base, length);
      HeldView(old(slots), slots, data, base, length);
      var ok :- MapWindows(p, page, base, length, rw);
      if !ok {
        CloseWindows(base, length);
        return Ok(None);
      }
      return Ok(at);
    }

    /** RELEASE_USER_MEMORY, and the undo path of pagingTryMapUserMem. */
    method CloseWindows(base: nat, length: nat)
      requires Valid() && pend == multiset{} && open == {} && 1 <= base && base + length <= KERNEL_LIMIT
      requires Borrowed(temp, resv, base, length) && Spanned(slots, base, length)
      requires forall o :: o in kmap ==> !(base <= kmap[o] < base + length)
      modifies `used, `extra, `pend, `slots, `temp, `resv
      ensures Valid() && Quiet() && Memory() == old(Memory())
    {
      ghost var gone := Hits(slots, Kernel, base, length, false);
      PagesBounded();
      InRangeSimple(base, length);
      OwnersBounded(Sh());
      BorrowedHit(Sh(), base, length);
      var there := TryRelease(Kernel, base, length, false);
      assert there;
      KernelGone(old(Memory()), old(slots), old(data), gone);
    }

    /** Kernel code stores one page through each window. */
    method StoreWindows(ghost p: nat, ghost page: nat, base: nat, pages: seq<Page>)
      requires Valid() && page < PAGE_COUNT && |pages| < PAGE_COUNT && Windowed(slots, p, page, base, |pages|, true)
      requires forall j :: 0 <= j < |pages| ==> |pages[j]| == PAGE_SIZE
      modifies `data
      ensures Valid() && Memory() == Stored(old(Memory()), p, page, pages)
    {
      var n := 0;
      StoredNone(Memory(), p, page, pages);
      while n < |pages|
        invariant n <= |pages| && Valid() && Memory() == Stored(old(Memory()), p, page, pages[..n])
      {
        StoreNext(p, page, base, pages, n, old(Memory()));
        n := n + 1;
      }
      assert pages[..n] == pages;
    }

    method StoreNext(ghost p: nat, ghost page: nat, base: nat, pages: seq<Page>, n: nat, ghost v: map<Slot, VPage>)
      requires Valid() && page < PAGE_COUNT && n < |pages| < PAGE_COUNT && |pages[n]| == PAGE_SIZE
      requires Windowed(slots, p, page, base, |pages|, true) && Memory() == Stored(v, p, page, pages[..n])
      modifies `data
      ensures Valid() && Memory() == Stored(v, p, page, pages[..n + 1])
    {
      assert WindowOk(slots, p, page, base, base + n, true);
      ghost var k := Pte(User(p), (page + n) % PAGE_COUNT);
      assert k in Memory() && Memory()[k].writable;
      PagesBounded();
      StoredStep(v, Memory(), p, page, pages, n);
      StoreWindow(k, base + n, pages[n]);
    }

    method StoreWindow(ghost k: Slot, page: nat, bytes: Page)
      requires Valid() && k in slots && IsUser(k, slots[k]) && slots[k].rw && |bytes| == PAGE_SIZE
      requires Pte(Kernel, page) in slots && Names(slots[Pte(Kernel, page)], slots[k].frame)
      modifies `data
      ensures Valid() && Memory() == old(Memory())[k := VPage(true, bytes)]
    {
      WriteView(slots, temp, data, k, bytes);
      data := data[slots[Pte(Kernel, page)].frame := bytes];
    }

    /** ACCESS_USER_MEMORY for writing, the copy, RELEASE_USER_MEMORY: all pages of the range change, for
        this process only, or nothing does. */
    method WriteUserMemory(p: nat, page: nat, pages: seq<Page>) returns (r: Outcome<bool>)
      requires Valid() && Quiet() && page < PAGE_COUNT && 0 < |pages| <= WORD - KERNEL_LIMIT
      requires forall j :: 0 <= j < |pages| ==> |pages[j]| == PAGE_SIZE
      modifies `used, `extra, `pend, `slots, `temp, `resv, `data
      ensures Valid()
      ensures r.Ok? ==>
                && Quiet() && (r.value <==> Accessible(old(Memory()), p, page, |pages|, true))
                && Memory() == if r.value then Stored(old(Memory()), p, page, pages) else old(Memory())
      ensures r.Halt? ==> Stops(r.why, {1, |pages|}, true)
    {
      var at :- TryMapUserMem(p, page, |pages|, true);
      if at.None? {
        return Ok(false);
      }
      StoreWindows(p, page, at.value, pages);
      CloseWindows(at.value, |pages|);
      return Ok(true);
    }

    /** The same for reading: the kernel gets the bytes the process sees. */
    method ReadUserMemory(p: nat, page: nat, length: nat) returns (r: Outcome<Option<seq<Page>>>)
      requires Valid() && Quiet() && page < PAGE_COUNT && 0 < length <= WORD - KERNEL_LIMIT
      modifies `used, `extra, `pend, `slots, `temp, `resv, `data
      ensures Valid()
      ensures r.Ok? ==>
                && Quiet() && Memory() == old(Memory())
                && (r.value.Some? <==> Accessible(old(Memory()), p, page, length, false))
                && (r.value.Some? ==> Shows(old(Memory()), p, page, r.value.value) && |r.value.value| == length)
      ensures r.Halt? ==> Stops(r.why, {1, length}, true)
    {
      var at :- TryMapUserMem(p, page, length, false);
      if at.None? {
        return Ok(None);
      }
      var got := LoadWindows(p, page, at.value, length);
      CloseWindows(at.value, length);
      return Ok(Some(got));
    }

    method LoadWindows(ghost p: nat, ghost page: nat, base: nat, length: nat) returns (got: seq<Page>)
      requires Valid() && Windowed(slots, p, page, base, length, false)
      ensures |got| == length && Shows(Memory(), p, page, got)
    {
      var n := 0;
      got := [];
      while n < length
        invariant n <= length && |got| == n && Shows(Memory(), p, page, got)
      {
        assert WindowOk(slots, p, page, base, base + n, false);
        ghost var k := Pte(User(p), (page + n) % PAGE_COUNT);
        NamedHasRef(slots, pend, k);
        assert FrameOk(used, extra, slots, pend, holes, slots[k].frame);
        ShowsStep(Memory(), p, page, got, data[slots[k].frame]);
        got := got + [data[slots[Pte(Kernel, base + n)].frame]];
        n := n + 1;
      }
    }

    // ----- every run -----

    ghost function Now(): Ideal
      reads this
    {
      Ideal(set o | o in kmap && o.DirOf? :: o.pid, Memory())
    }

    lemma OnlyLiveProcesses()
      requires Valid() && Quiet()
      ensures forall k :: k in slots && k.space.User? ==> DirOf(k.space.pid) in kmap
    {
      forall k | k in slots && k.space.User?
        ensures DirOf(k.space.pid) in kmap
      {
        assert SlotOk(Sh(), k);
        var d := if k.Pte? then Pde(k.space, k.page / TABLE_COUNT) else k;
        assert SlotOk(Sh(), d);
        assert OwnerOk(Sh(), TableOf(d.space.pid, d.index));
      }
    }

    /** One kernel entry.  If the kernel does not stop, it does what the machine without sharing does. */
    method Step(op: Op) returns (r: Outcome<()>)
      requires Valid() && Quiet() && OpOk(op)
      modifies this
      ensures Valid() && (r.Ok? ==> Quiet() && IdealStep(old(Now()), op, Now()))
      ensures r.Ok? && op.Alloc? && DirOf(op.p) in old(kmap) && op.length > 0 ==>
                (Now() == old(Now()) <==> FirstFit(old(slots), User(op.p), op.length, None))
      ensures r.Halt? ==> Justified(r.why) && MayStop(op, r.why)
      ensures r.Halt? ==> Lacks(op, old(slots), old(used))
    {
      r := Ok(());
      match op
      case Spawn(p) =>
        if DirOf(p) !in kmap { r := AllocProcessPageTable(p); }
      case Exit(p) =>
        if DirOf(p) in kmap { ExitStep(p); }
      case Fork(src, dst) =>
        if DirOf(src) in kmap && DirOf(dst) !in kmap { r := ForkStep(src, dst); }
      case Alloc(p, length) =>
        if DirOf(p) in kmap { r := AllocStep(p, length); }
      case Release(p, page, length) =>
        if DirOf(p) in kmap { ReleaseStep(p, page, length); }
      case Store(p, page, offset, b) =>
        if DirOf(p) in kmap { var _ :- UserWrite(p, page, offset, b); }
      case KernelStore(p, page, pages) =>
        if DirOf(p) in kmap { var _ :- WriteUserMemory(p, page, pages); }
      case KernelLoad(p, page, length) =>
        if DirOf(p) in kmap { var _ :- ReadUserMemory(p, page, length); }
      case AllocFixed(p, page, length) =>
        if DirOf(p) in kmap { r := FixedStep(p, page, length); }
      case MapRemote(p, dst, src, length, rw) =>
        if DirOf(p) in kmap { r := LendStep(op); }
      case _ => r := KernelStep(op);
    }

    method LendStep(op: Op) returns (r: Outcome<()>)
      requires Valid() && Quiet() && OpOk(op) && op.MapRemote? && DirOf(op.p) in kmap
      modifies this
      ensures Valid() && (r.Ok? ==> Quiet() && Now() == old(Now()))
      ensures r.Halt? ==> Justified(r.why) && MayStop(op, r.why)
      ensures r.Halt? ==> Lacks(op, old(slots), old(used))
    {
      r := Ok(());
      if Lendable(slots, op.src, op.length) {
        r := MapRemoteMemory(op.p, op.dst, op.src, op.length, op.rw);
      }
    }

    /** What the kernel does for itself, no process sees. */
    method KernelStep(op: Op) returns (r: Outcome<()>)
      requires Valid() && Quiet() && OpOk(op) && (op.KernelAlloc? || op.KernelRelease? || op.KernelReAlloc?)
      modifies this
      ensures Valid() && (r.Ok? ==> Quiet() && Now() == old(Now()))
      ensures r.Halt? ==> Justified(r.why) && MayStop(op, r.why)
      ensures r.Halt? ==> Lacks(op, old(slots), old(used))
    {
      r := Ok(());
      match op
      case KernelAlloc(length) =>
        ghost var was := slots;
        var b :- TryAllocatePhysMem(Kernel, length, true, false);
        if b.Some? { FilledKernelView(was, slots, data, b.value, length, true, false); }
      case KernelRelease(page, length) =>
        if forall o :: o in kmap ==> !InRange(page, length, kmap[o]) {
          ghost var v, was := Memory(), slots;
          var _ := TryRelease(Kernel, page, length, false);
          KernelGone(v, was, data, Hits(was, Kernel, page, length, false));
        }
      case KernelReAlloc(page, length, total) =>
        if IsBlock(page, length) {
          var b;
          ghost var ent;
          b, ent := ReAllocatePhysMem(page, length, total, true, false);
          if b.Halt? { r := Halt(b.why); }
        }
    }

    method AllocStep(p: nat, length: nat) returns (r: Outcome<()>)
      requires Valid() && Quiet() && OpOk(Alloc(p, length)) && DirOf(p) in kmap
      modifies this
      ensures Valid() && (r.Ok? ==> Quiet() && IdealStep(old(Now()), Alloc(p, length), Now()))
      ensures r.Ok? && length > 0 ==> (Now() == old(Now()) <==> FirstFit(old(slots), User(p), length, None))
      ensures r.Halt? ==> Stops(r.why, {1}, false)
      ensures r.Halt? ==> Lacks(Alloc(p, length), old(slots), old(used))
    {
      ghost var was := slots;
      var b :- TryAllocatePhysMem(User(p), length, true, true);
      assert Now().live == old(Now().live);
      if b.Some? {
        FilledPages(was, slots, data, p, b.value, length);
        assert FreeRun(was, User(p), b.value, length);
        assert Pte(User(p), b.value) in Memory() && Pte(User(p), b.value) !in old(Memory());
      }
      return Ok(());
    }

    method FixedStep(p: nat, page: nat, length: nat) returns (r: Outcome<()>)
      requires Valid() && Quiet() && page + length <= PAGE_COUNT && DirOf(p) in kmap
      modifies this
      ensures Valid() && (r.Ok? ==> Quiet() && IdealStep(old(Now()), AllocFixed(p, page, length), Now()))
      ensures r.Halt? ==> Justified(r.why) && MayStop(AllocFixed(p, page, length), r.why)
      ensures r.Halt? ==> Lacks(AllocFixed(p, page, length), old(slots), old(used))
    {
      ghost var was := slots;
      r := AllocatePhysMemFixed(User(p), page, length, true, true);
      if r.Ok? {
        assert Now().live == old(Now().live);
        FilledPages(was, slots, data, p, page, length);
      }
    }

    method ReleaseStep(p: nat, page: nat, length: nat)
      requires Valid() && Quiet() && page < PAGE_COUNT && DirOf(p) in kmap
      modifies this
      ensures Valid() && Quiet() && IdealStep(old(Now()), Release(p, page, length), Now())
    {
      ghost var gone := Hits(slots, User(p), page, length, true);
      ghost var v := Memory();
      var _ := TryRelease(User(p), page, length, true);
      assert v - gone == v - (set k | k in v && k.Pte? && k.space == User(p) && InRange(page, length, k.page));
    }

    method ForkStep(src: nat, dst: nat) returns (r: Outcome<()>)
      requires Valid() && Quiet() && DirOf(src) in kmap && DirOf(dst) !in kmap
      modifies this
      ensures Valid() && (r.Ok? ==> Quiet() && IdealStep(old(Now()), Fork(src, dst), Now()))
      ensures r.Halt? ==> Stops(r.why, {1}, true)
      ensures r.Halt? ==> Lacks(Fork(src, dst), old(slots), old(used))
    {
      OnlyLiveProcesses();
      r := ForkProcessPageTable(src, dst);
      assert r.Ok? ==> Now().live == old(Now().live) + {dst};
    }

    method ExitStep(p: nat)
      requires Valid() && Quiet() && DirOf(p) in kmap
      modifies this
      ensures Valid() && Quiet() && IdealStep(old(Now()), Exit(p), Now())
    {
      ReleaseProcessPageTable(p);
      assert Now().live == old(Now().live) - {p};
    }

    /** Copy-on-write is invisible: whatever is executed, in whatever order, the pages that the
        processes see go through a run of the machine that copies at fork, up to the point where
        the kernel stops for lack of frames, address space or reference counts. */
    method Run(ops: seq<Op>) returns (r: Outcome<()>, ghost trace: seq<Ideal>)
      requires Valid() && Quiet() && forall i :: 0 <= i < |ops| ==> OpOk(ops[i])
      modifies this
      ensures Valid() && 1 <= |trace| <= |ops| + 1 && trace[0] == old(Now())
      ensures forall i {:trigger IdealStep(trace[i], ops[i], trace[i + 1])} ::
                0 <= i < |trace| - 1 ==> IdealStep(trace[i], ops[i], trace[i + 1])
      ensures r.Ok? ==> Quiet() && |trace| == |ops| + 1 && trace[|ops|] == Now()
      ensures r.Halt? ==> Justified(r.why) && |trace| <= |ops| && MayStop(ops[|trace| - 1], r.why)
    {
      trace := [Now()];
      var n := 0;
      while n < |ops|
        invariant n <= |ops| && Valid() && Quiet() && |trace| == n + 1 && trace[0] == old(Now()) && trace[n] == Now()
        invariant forall i {:trigger IdealStep(trace[i], ops[i], trace[i + 1])} ::
            0 <= i < n ==> IdealStep(trace[i], ops[i], trace[i + 1])
      {
        r := Step(ops[n]);
        if r.Halt? {
          return;
        }
        trace := trace + [Now()];
        n := n + 1;
      }
      r := Ok(());
    }
  }
}
