/** Physical frames, the slots that name them, and the reference counts that must agree.

    Every page-table entry and every page-directory entry is one slot of a single map.  A frame's
    lazily stored reference count (physmem.c: no record means one) is compared with the number
    of slots naming it plus the references that the running code still holds in local variables
    (`pend`), so that the invariant can be stated after every single primitive step. */
module FrameAccounting {
  import opened Sequences

  const PAGE_SIZE := 0x1000
  const PAGE_COUNT := 0x100000
  const TABLE_COUNT := 0x400
  const LOW_LIMIT := 0x100          // frames below 1 MB are never handed out
  const KERNEL_LIMIT := 0x3FF * 0x400   // the kernel's self map starts here
  const REF_MAX := 127              // largest value of the 7-bit counter

  datatype Space = Kernel | User(pid: nat)

  datatype Slot = Pte(space: Space, page: nat) | Pde(space: Space, index: nat)

  datatype Avail = Plain | Shared | NoFork | Cow

  datatype Entry = Present(rw: bool, user: bool, avail: Avail, frame: nat) | Reserved(user: bool)

  /** Why the kernel stopped. */
  datatype Failure = OutOfFrames | RefOverflow(frame: nat) | SpaceFull(length: nat) | AddressInUse(space: Space,
      page: nat)

  datatype Outcome<+T> = Ok(value: T) | Halt(why: Failure) {
    predicate IsFailure() { Halt? }
    function PropagateFailure<U>(): Outcome<U>
      requires Halt?
    { Halt(why) }
    function Extract(): T
      requires Ok?
    { value }
  }

  predicate Names(e: Entry, f: nat) { e.Present? && e.frame == f }

  ghost function Namers(slots: map<Slot, Entry>, f: nat): set<Slot> {
    set k | k in slots && Names(slots[k], f)
  }

  /** The count physmem.c reads: a frame without a record counts as one. */
  function RefCount(extra: map<nat, nat>, f: nat): nat {
    if f in extra then extra[f] else 1
  }

  /** Number of references that exist to frame f. */
  ghost function Refs(slots: map<Slot, Entry>, pend: multiset<nat>, f: nat): nat {
    |Namers(slots, f)| + pend[f]
  }

  ghost predicate FrameOk(used: set<nat>, extra: map<nat, nat>, slots: map<Slot, Entry>,
                          pend: multiset<nat>, holes: set<nat>, f: nat)
  {
    var n := Refs(slots, pend, f);
    && (f in used <==> f in holes || n > 0)
    && (n > 0 ==> f !in holes && f < PAGE_COUNT && RefCount(extra, f) == n && n <= REF_MAX)
    && (n == 0 ==> f !in extra)
  }

  ghost predicate Accounts(used: set<nat>, extra: map<nat, nat>, slots: map<Slot, Entry>,
                           pend: multiset<nat>, holes: set<nat>)
  {
    forall f: nat {:trigger FrameOk(used, extra, slots, pend, holes, f)} ::
      FrameOk(used, extra, slots, pend, holes, f)
  }

  // ----- how the number of namers moves -----

  lemma NamersPut(slots: map<Slot, Entry>, k: Slot, e: Entry, f: nat)
    requires k !in slots
    ensures |Namers(slots[k := e], f)| == |Namers(slots, f)| + if Names(e, f) then 1 else 0
  {
    var add := if Names(e, f) then {k} else {};
    assert Namers(slots[k := e], f) == Namers(slots, f) + add;
  }

  lemma NamersDrop(slots: map<Slot, Entry>, k: Slot, f: nat)
    requires k in slots
    ensures |Namers(slots - {k}, f)| == |Namers(slots, f)| - if Names(slots[k], f) then 1 else 0
  {
    assert slots == (slots - {k})[k := slots[k]];
    NamersPut(slots - {k}, k, slots[k], f);
  }

  lemma NamersEmpty(slots: map<Slot, Entry>, f: nat, k: Slot)
    requires |Namers(slots, f)| == 0 && k in slots
    ensures !Names(slots[k], f)
  {
    assert Namers(slots, f) == {};
    assert k !in Namers(slots, f);
  }

  lemma NamedHasRef(slots: map<Slot, Entry>, pend: multiset<nat>, k: Slot)
    requires k in slots && slots[k].Present?
    ensures Refs(slots, pend, slots[k].frame) > 0
  {
    assert k in Namers(slots, slots[k].frame);
  }

  lemma SoleNamer(slots: map<Slot, Entry>, f: nat, k: Slot, j: Slot)
    requires |Namers(slots, f)| <= 1 && k in slots && j in slots && Names(slots[k], f) && Names(slots[j], f)
    ensures j == k
  {
    if j != k {
      assert {j, k} <= Namers(slots, f);
      SubsetSize({j, k}, Namers(slots, f));
    }
  }

  // ----- the primitive steps keep the accounts -----

  /** physMemAllocPage: the bit is set and the caller holds the one reference. */
  lemma AllocKeepsAccounts(used: set<nat>, extra: map<nat, nat>, slots: map<Slot, Entry>,
                           pend: multiset<nat>, holes: set<nat>, f: nat)
    requires Accounts(used, extra, slots, pend, holes)
    requires f !in used && f < PAGE_COUNT
    ensures Accounts(used + {f}, extra, slots, pend + multiset{f}, holes)
  {
    forall g: nat
      ensures FrameOk(used + {f}, extra, slots, pend + multiset{f}, holes, g)
    {
      assert FrameOk(used, extra, slots, pend, holes, g);
      assert FrameOk(used, extra, slots, pend, holes, f);
    }
  }

  /** physMemAddRefPage below the 7-bit limit. */
  lemma AddRefKeepsAccounts(used: set<nat>, extra: map<nat, nat>, slots: map<Slot, Entry>,
                            pend: multiset<nat>, holes: set<nat>, f: nat)
    requires Accounts(used, extra, slots, pend, holes)
    requires 0 < Refs(slots, pend, f) < REF_MAX
    ensures Accounts(used, extra[f := RefCount(extra, f) + 1], slots, pend + multiset{f}, holes)
  {
    var extra' := extra[f := RefCount(extra, f) + 1];
    forall g: nat
      ensures FrameOk(used, extra', slots, pend + multiset{f}, holes, g)
    {
      assert FrameOk(used, extra, slots, pend, holes, g);
    }
  }

  /** physMemReleasePage: the bit clears exactly at the last reference. */
  lemma ReleaseKeepsAccounts(used: set<nat>, extra: map<nat, nat>, slots: map<Slot, Entry>,
                             pend: multiset<nat>, holes: set<nat>, f: nat)
    requires Accounts(used, extra, slots, pend, holes)
    requires pend[f] > 0
    ensures f in used && (f in extra ==> extra[f] > 0)
    ensures Refs(slots, pend, f) > 1 ==>
              f in extra && extra[f] > 1 && Accounts(used, extra[f := extra[f] - 1], slots, pend - multiset{f}, holes)
    ensures Refs(slots, pend, f) == 1 ==>
              RefCount(extra, f) == 1 && Accounts(used - {f}, extra - {f}, slots, pend - multiset{f}, holes)
  {
    assert FrameOk(used, extra, slots, pend, holes, f);
    if Refs(slots, pend, f) > 1 {
      var extra' := extra[f := extra[f] - 1];
      forall g: nat
        ensures FrameOk(used, extra', slots, pend - multiset{f}, holes, g)
      {
        assert FrameOk(used, extra, slots, pend, holes, g);
      }
    } else {
      forall g: nat
        ensures FrameOk(used - {f}, extra - {f}, slots, pend - multiset{f}, holes, g)
      {
        assert FrameOk(used, extra, slots, pend, holes, g);
      }
    }
  }

  /** A held reference is stored into an empty slot. */
  lemma PutKeepsAccounts(used: set<nat>, extra: map<nat, nat>, slots: map<Slot, Entry>,
                         pend: multiset<nat>, holes: set<nat>, k: Slot, e: Entry)
    requires Accounts(used, extra, slots, pend, holes)
    requires k !in slots && e.Present? && pend[e.frame] > 0
    ensures Accounts(used, extra, slots[k := e], pend - multiset{e.frame}, holes)
  {
    var slots', pend' := slots[k := e], pend - multiset{e.frame};
    forall g: nat
      ensures FrameOk(used, extra, slots', pend', holes, g)
    {
      assert FrameOk(used, extra, slots, pend, holes, g);
      NamersPut(slots, k, e, g);
    }
  }

  /** An entry is taken out of its slot; the reference is now held by the code. */
  lemma ClearKeepsAccounts(used: set<nat>, extra: map<nat, nat>, slots: map<Slot, Entry>,
                           pend: multiset<nat>, holes: set<nat>, k: Slot)
    requires Accounts(used, extra, slots, pend, holes)
    requires k in slots && slots[k].Present?
    ensures Accounts(used, extra, slots - {k}, pend + multiset{slots[k].frame}, holes)
  {
    var pend' := pend + multiset{slots[k].frame};
    forall g: nat
      ensures FrameOk(used, extra, slots - {k}, pend', holes, g)
    {
      assert FrameOk(used, extra, slots, pend, holes, g);
      NamersDrop(slots, k, g);
    }
  }

  /** Reserved entries name nothing, so they come and go freely. */
  lemma ReserveKeepsAccounts(used: set<nat>, extra: map<nat, nat>, slots: map<Slot, Entry>,
                             pend: multiset<nat>, holes: set<nat>, k: Slot, e: Entry)
    requires Accounts(used, extra, slots, pend, holes)
    requires k !in slots && e.Reserved?
    ensures Accounts(used, extra, slots[k := e], pend, holes)
  {
    var slots' := slots[k := e];
    forall g: nat
      ensures FrameOk(used, extra, slots', pend, holes, g)
    {
      assert FrameOk(used, extra, slots, pend, holes, g);
      NamersPut(slots, k, e, g);
    }
  }

  lemma UnreserveKeepsAccounts(used: set<nat>, extra: map<nat, nat>, slots: map<Slot, Entry>,
                               pend: multiset<nat>, holes: set<nat>, k: Slot)
    requires Accounts(used, extra, slots, pend, holes)
    requires k in slots && slots[k].Reserved?
    ensures Accounts(used, extra, slots - {k}, pend, holes)
  {
    forall g: nat
      ensures FrameOk(used, extra, slots - {k}, pend, holes, g)
    {
      assert FrameOk(used, extra, slots, pend, holes, g);
      NamersDrop(slots, k, g);
    }
  }

  /** Only the permission bits of an entry change. */
  lemma RemarkKeepsAccounts(used: set<nat>, extra: map<nat, nat>, slots: map<Slot, Entry>,
                            pend: multiset<nat>, holes: set<nat>, k: Slot, e: Entry)
    requires Accounts(used, extra, slots, pend, holes)
    requires k in slots && slots[k].Present? && e.Present? && e.frame == slots[k].frame
    ensures Accounts(used, extra, slots[k := e], pend, holes)
  {
    var slots' := slots[k := e];
    forall g: nat
      ensures FrameOk(used, extra, slots', pend, holes, g)
    {
      assert FrameOk(used, extra, slots, pend, holes, g);
      assert Namers(slots[k := e], g) == Namers(slots, g);
    }
  }

  /** At rest (nothing held in local variables) the stored count is exactly the number of slots
      naming the frame, the bitmap bit is set exactly for frames that are named or were never
      available, and no count reaches 128. */
  lemma CountsAtRest(used: set<nat>, extra: map<nat, nat>, slots: map<Slot, Entry>, holes: set<nat>, f: nat)
    requires Accounts(used, extra, slots, multiset{}, holes)
    ensures f in used && f !in holes ==> RefCount(extra, f) == |Namers(slots, f)| && 0 < |Namers(slots, f)| < 128
    ensures f !in used ==> Namers(slots, f) == {} && f !in extra
  {
    assert FrameOk(used, extra, slots, multiset{}, holes, f);
  }
}
