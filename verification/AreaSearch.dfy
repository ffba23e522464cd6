/** First fit over a virtual address space, skipping page tables that do not exist. */
module AreaSearch {
  import opened Sequences
  import opened FrameAccounting

  /** A run of free pages between page 1 and the kernel's directory area. */
  ghost predicate FreeRun(slots: map<Slot, Entry>, s: Space, start: int, length: int) {
    && 1 <= start && start + length <= KERNEL_LIMIT
    && forall v {:trigger Pte(s, v)} :: start <= v < start + length ==> Pte(s, v) !in slots
  }

  ghost predicate FirstFit(slots: map<Slot, Entry>, s: Space, length: nat, r: Option<nat>) {
    match r
    case Some(b) => FreeRun(slots, s, b, length) && forall c :: c < b ==> !FreeRun(slots, s, c, length)
    case None => forall c :: !FreeRun(slots, s, c, length)
  }

  /** A page-table entry exists only inside an existing page table. */
  ghost predicate Tabled(slots: map<Slot, Entry>, s: Space) {
    forall v: nat {:trigger Pte(s, v)} :: Pte(s, v) in slots ==> Pde(s, v / TABLE_COUNT) in slots
  }

  /** Where the free stretch around free page v begins. */
  ghost function RunStart(slots: map<Slot, Entry>, s: Space, v: nat): nat {
    if v <= 1 || Pte(s, v - 1) in slots then v else RunStart(slots, s, v - 1)
  }

  /** The end of the wanted run, computed from the start of any free stretch, fits 32 bits. */
  ghost predicate NoWrap(slots: map<Slot, Entry>, s: Space, length: nat) {
    forall v: nat {:trigger RunStart(slots, s, v)} ::
      1 <= v < KERNEL_LIMIT && Pte(s, v) !in slots ==> RunStart(slots, s, v) + length - 1 < WORD
  }

  lemma {:induction false} RunStartIs(slots: map<Slot, Entry>, s: Space, start: nat, v: nat)
    requires 1 <= start <= v && (start == 1 || Pte(s, start - 1) in slots)
    requires forall u :: start <= u < v ==> Pte(s, u) !in slots
    ensures RunStart(slots, s, v) == start
    decreases v
  {
    if start < v {
      assert Pte(s, v - 1) !in slots;
      RunStartIs(slots, s, start, v - 1);
    }
  }

  lemma {:induction false} RunStartBelow(slots: map<Slot, Entry>, s: Space, v: nat)
    ensures RunStart(slots, s, v) <= v
  {
    if !(v <= 1 || Pte(s, v - 1) in slots) { RunStartBelow(slots, s, v - 1); }
  }

  /** Lengths that any 4 GB address space can hold never wrap. */
  lemma ShortNeverWraps(slots: map<Slot, Entry>, s: Space, length: nat)
    requires length <= WORD - KERNEL_LIMIT
    ensures NoWrap(slots, s, length)
  {
    forall v: nat | 1 <= v < KERNEL_LIMIT && Pte(s, v) !in slots
      ensures RunStart(slots, s, v) + length - 1 < WORD
    {
      RunStartBelow(slots, s, v);
    }
  }

  /** pagingTrySearchArea with its 32-bit addition.  It is first fit if and only if that addition
      never wraps; when it does wrap, the answer is not a free run at all. */
  method TrySearchArea(slots: map<Slot, Entry>, s: Space, length: nat) returns (r: Option<nat>)
    requires length < WORD && Tabled(slots, s)
    ensures length == 0 ==> r == None
    ensures 0 < length && NoWrap(slots, s, length) ==> FirstFit(slots, s, length, r)
    ensures 0 < length && !NoWrap(slots, s, length) ==> r.Some? && !FreeRun(slots, s, r.value, length)
  {
    if length == 0 {
      return None;
    }
    var i, start := 1, 1;
    while i < KERNEL_LIMIT
      invariant 1 <= start <= i <= KERNEL_LIMIT && i - start < length
      invariant start == 1 || Pte(s, start - 1) in slots
      invariant forall u :: start <= u < i ==> Pte(s, u) !in slots
      invariant forall c :: c < start ==> !FreeRun(slots, s, c, length)
      invariant forall v: nat {:trigger RunStart(slots, s, v)} ::
          1 <= v < i && Pte(s, v) !in slots ==> RunStart(slots, s, v) + length - 1 < WORD
    {
      var table := Pde(s, i / TABLE_COUNT) in slots;
      if table && Pte(s, i) in slots {
        UsedPageEndsRun(slots, s, start, i, length);
        start := i + 1;
        i := i + 1;
      } else {
        var last := if table then i else i / TABLE_COUNT * TABLE_COUNT + (TABLE_COUNT - 1);
        FreeUpTo(slots, s, i, last);
        RunStartIs(slots, s, start, i);
        if last >= (start + length - 1) % WORD {
          if start + length - 1 < WORD {
            assert FreeRun(slots, s, start, length);
            ShortNeverWrapsFrom(slots, s, start, length);
          }
          return Some(start);
        }
        assert start + length - 1 < WORD;
        forall v: nat | i <= v <= last
          ensures RunStart(slots, s, v) == start
        {
          RunStartIs(slots, s, start, v);
        }
        i := last + 1;
      }
    }
    return None;
  }

  lemma UsedPageEndsRun(slots: map<Slot, Entry>, s: Space, start: nat, i: nat, length: nat)
    requires start <= i < start + length && Pte(s, i) in slots
    requires forall c :: c < start ==> !FreeRun(slots, s, c, length)
    ensures forall c :: c < i + 1 ==> !FreeRun(slots, s, c, length)
  {
    forall c | start <= c < i + 1
      ensures !FreeRun(slots, s, c, length)
    {
      assert c <= i < c + length;
    }
  }

  lemma FreeUpTo(slots: map<Slot, Entry>, s: Space, i: nat, last: nat)
    requires Tabled(slots, s) && i <= last
    requires (i == last && Pte(s, i) !in slots) ||
             (Pde(s, i / TABLE_COUNT) !in slots && last == i / TABLE_COUNT * TABLE_COUNT + (TABLE_COUNT - 1))
    ensures forall u :: i <= u <= last ==> Pte(s, u) !in slots
  {
    forall u | i <= u <= last
      ensures Pte(s, u) !in slots
    {
      assert Pde(s, i / TABLE_COUNT) !in slots ==> u / TABLE_COUNT == i / TABLE_COUNT;
    }
  }

  /** A run that fits below the kernel area is short. */
  lemma ShortNeverWrapsFrom(slots: map<Slot, Entry>, s: Space, start: nat, length: nat)
    requires FreeRun(slots, s, start, length)
    ensures NoWrap(slots, s, length)
  {
    ShortNeverWraps(slots, s, length);
  }

  /** Asking for all but the last page of the 32-bit range while page 1 is taken: the sum wraps to
      zero and page 2 is returned although no such run exists. */
  lemma WrapExample(s: Space, e: Entry)
    ensures !NoWrap(map[Pde(s, 0) := e, Pte(s, 1) := e], s, WORD - 1)
  {
    var slots := map[Pde(s, 0) := e, Pte(s, 1) := e];
    assert RunStart(slots, s, 2) == 2;
    assert Pte(s, 2) !in slots;
  }
}
