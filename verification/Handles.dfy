/** handle.c: a resizable array of objects with hints for the first free and the last used slot. */
module Handles {
  import opened Sequences

  const MIN := 0x100
  const MAX := 0x10000

  type Slot = Option<nat>

  /** Table sizes that doubling and quartering can reach. */
  predicate IsCount(n: nat) {
    n == MIN || n == 2 * MIN || n == 4 * MIN || n == 8 * MIN || n == 16 * MIN || n == 32 * MIN || n == 64 * MIN
        || n == 128 * MIN || n == MAX
  }

  /** The handles in use and their objects. */
  function Filled(s: seq<Slot>): map<nat, nat> {
    map i | 0 <= i < |s| && s[i].Some? :: s[i].value
  }

  /** The objects in a table, one for each slot. */
  function Objects(s: seq<Slot>): multiset<nat> {
    if s == [] then multiset{} else Objects(s[..|s| - 1]) + OfSlot(s[|s| - 1])
  }

  function OfSlot(x: Slot): multiset<nat> { if x.Some? then multiset{x.value} else multiset{} }

  lemma {:induction false} ObjectsUpdate(s: seq<Slot>, i: nat, x: Slot)
    requires i < |s|
    ensures Objects(s[i := x]) + OfSlot(s[i]) == Objects(s) + OfSlot(x)
  {
    var n := |s| - 1;
    var t := s[i := x];
    if i < n {
      ObjectsUpdate(s[..n], i, x);
      assert t[..n] == s[..n][i := x] && t[n] == s[n];
      SumSwap(Objects(t[..n]), Objects(s[..n]), OfSlot(s[i]), OfSlot(x), OfSlot(s[n]));
    } else {
      assert t[..n] == s[..n];
    }
  }

  lemma SumSwap(a: multiset<nat>, b: multiset<nat>, w: multiset<nat>, x: multiset<nat>, l: multiset<nat>)
    requires a + w == b + x
    ensures (a + l) + w == (b + l) + x
  {
    assert (a + l) + w == (a + w) + l;
    assert (b + l) + x == (b + x) + l;
  }

  lemma SumLess(a: multiset<nat>, b: multiset<nat>, w: multiset<nat>, x: multiset<nat>)
    requires a + w == b + x
    ensures b + x - w == a
  {
  }

  lemma {:induction false} ObjectsExtend(s: seq<Slot>, t: seq<Slot>)
    requires s <= t && forall i :: |s| <= i < |t| ==> t[i].None?
    ensures Objects(t) == Objects(s) && Filled(t) == Filled(s)
  {
    if |t| == |s| {
      assert t == s;
    } else {
      ObjectsExtend(s, t[..|t| - 1]);
      assert Filled(t) == Filled(t[..|t| - 1]);
    }
  }

  lemma FilledUpdate(s: seq<Slot>, i: nat, x: Slot)
    requires i < |s|
    ensures Filled(s[i := x]) == if x.Some? then Filled(s)[i := x.value] else Filled(s) - {i}
  {
  }

  /** Sizes the growth loops go through, starting from n: the first that is not below the handle. */
  function Doubled(n: nat, handle: nat): (m: nat)
    requires n > 0
    ensures m >= n && m >= handle
    decreases if n < handle then handle - n else 0
  {
    if n < handle then Doubled(2 * n, handle) else n
  }

  function Capped(n: nat): nat { if n > MAX then MAX else n }

  ghost predicate ShapeOk(s: seq<Slot>, freeBegin: nat, freeEnd: nat) {
    && IsCount(|s|) && freeEnd <= |s| && freeBegin <= (if freeEnd > 3 then freeEnd else 3)
    && (forall i :: 3 <= i < freeBegin ==> s[i].Some?)
    && (forall i :: freeEnd <= i < |s| ==> s[i].None?)
    && (freeEnd > 0 ==> s[freeEnd - 1].Some?)
  }

  class HandleTable {
    var handles: array?<Slot>   // null once freed
    var count: nat
    var free_begin: nat
    var free_end: nat
    ghost var taken: multiset<nat>   // references taken and not given back

    ghost predicate Valid()
      reads this, handles
    {
      && handles != null && handles.Length == count
      && ShapeOk(handles[..], free_begin, free_end) && taken == Objects(handles[..])
    }

    ghost function View(): map<nat, nat>
      reads this, handles
      requires handles != null
    {
      Filled(handles[..])
    }

    /** handleTableInit. */
    constructor ()
      ensures Valid() && View() == map[] && fresh(handles) && free_begin == 0 && count == MIN
    {
      count, free_begin, free_end, taken := MIN, 0, 0, multiset{};
      handles := new Slot[MIN](_ => None);
      new;
      assert handles[..] == seq(MIN, _ => None);
      NoObjects(handles[..]);
    }

    /** handleGet. */
    method Get(handle: nat) returns (r: Slot)
      requires Valid()
      ensures r == if handle in View() then Some(View()[handle]) else None
    {
      if handle >= free_end {
        return None;
      }
      return handles[handle];
    }

    /** heapReAlloc: the common part is kept, new slots are empty. */
    method Resize(n: nat)
      requires handles != null && handles.Length == count
      requires forall i :: n <= i < count ==> handles[i].None?
      modifies this`handles, this`count
      ensures handles != null && fresh(handles) && handles.Length == count == n
              && Resized(old(handles[..]), handles[..])
      ensures View() == old(View()) && Objects(handles[..]) == Objects(old(handles[..]))
    {
      ghost var was := handles[..];
      var b := CopyArray(handles, if n < count then n else count, n);
      handles, count := b, n;
      ResizedSame(was, b[..]);
    }

    static method CopyArray(a: array<Slot>, m: nat, n: nat) returns (b: array<Slot>)
      requires m <= a.Length && m <= n && (m == a.Length || (m == n && forall i :: n <= i < a.Length ==> a[i].None?))
      ensures fresh(b) && b.Length == n && Resized(a[..], b[..])
    {
      b := new Slot[n](_ => None);
      for i := 0 to m
        invariant forall k :: 0 <= k < n ==> b[k] == if k < i then a[k] else None
      {
        b[i] := a[i];
      }
    }

    /** A table of another size with the same handles. */
    method ResizeTo(n: nat)
      requires Valid() && IsCount(n) && free_end <= n
      modifies this`handles, this`count
      ensures Valid() && fresh(handles) && count == n && View() == old(View()) && Resized(old(handles[..]), handles[..])
    {
      ghost var was := handles[..];
      Resize(n);
      ResizedShape(was, handles[..], free_begin, free_end);
    }

    /** Writing one slot. */
    method Put(i: nat, x: Slot)
      requires handles != null && handles.Length == count && i < count && taken == Objects(handles[..])
      modifies this`taken, handles
      ensures handles[..] == old(handles[..])[i := x] && taken == Objects(handles[..])
      ensures View() == if x.Some? then old(View())[i := x.value] else old(View()) - {i}
    {
      ghost var s := handles[..];
      handles[i] := x;
      assert handles[..] == s[i := x];
      FilledUpdate(s, i, x);
      ObjectsUpdate(s, i, x);
      SumLess(Objects(s[i := x]), taken, OfSlot(s[i]), OfSlot(x));
      taken := taken + OfSlot(x) - OfSlot(s[i]);
    }

    /** The scan of handleAllocate: the first free slot, or the end of the table. */
    method FindFree(min: nat) returns (i: nat)
      requires Valid() && (min == 0 || min == 3)
      ensures i <= count && (i < count ==> handles[i].None?) && forall k :: 3 <= k < i ==> handles[k].Some?
      ensures var h := if i < MAX then Some(i) else None;
              && LowestFree(View(), if min < free_begin then free_begin else min, h)
              && (min == 3 ==> LowestFree(View(), 3, h))
    {
      var from := if min < free_begin then free_begin else min;
      i := from;
      while i < free_end && handles[i].Some?
        invariant from <= i <= count && forall k :: from <= k < i ==> handles[k].Some?
      {
        i := i + 1;
      }
      LowestIs(handles[..], from, i);
      if min == 3 { LowestFrom3(handles[..], free_begin, from, i); }
    }

    /** A free slot at the end of the used ones is filled. */
    method Occupy(i: nat, obj: nat)
      requires Valid() && i < count && handles[i].None? && forall k :: 3 <= k < i ==> handles[k].Some?
      modifies this`taken, this`free_begin, this`free_end, handles
      ensures Valid() && View() == old(View())[i := obj] && free_begin == i + 1
    {
      OccupyShape(handles[..], free_begin, free_end, i, obj);
      Put(i, Some(obj));
      free_begin, free_end := i + 1, if i >= free_end then i + 1 else free_end;
    }

    /** handleAllocate: the lowest free handle that is not below the hint; -1 if there is none. */
    method Allocate(obj: nat, min: nat) returns (h: Option<nat>)
      requires Valid() && (min == 0 || min == 3)
      modifies this, handles
      ensures Valid() && (handles == old(handles) || fresh(handles))
      ensures h.Some? ==> h.value !in old(View()) && h.value < MAX && View() == old(View())[h.value := obj]
      ensures h.None? ==> View() == old(View())
      ensures LowestFree(old(View()), if min < old(free_begin) then old(free_begin) else min, h)
      ensures min == 3 ==> LowestFree(old(View()), 3, h)
      ensures min == 0 ==>
                (LowestFree(old(View()), 0, h) <==> forall i :: 0 <= i < old(free_begin) ==> i in old(View()))
      ensures h.Some? ==> free_begin == h.value + 1
    {
      var i := FindFree(min);
      if min == 0 { LowestFrom0(View(), free_begin, if i < MAX then Some(i) else None); }
      var ok := Install(i, obj);
      return if ok then Some(i) else None;
    }

    method Install(i: nat, obj: nat) returns (ok: bool)
      requires Valid() && i <= count && (i < count ==> handles[i].None?) && forall k :: 3 <= k < i ==> handles[k].Some?
      modifies this, handles
      ensures Valid() && (handles == old(handles) || fresh(handles)) && (ok <==> i < MAX)
      ensures View() == if ok then old(View())[i := obj] else old(View())
      ensures ok ==> free_begin == i + 1
    {
      if i >= count {
        ok := Extend(i);
        if !ok {
          return;
        }
      }
      Occupy(i, obj);
      return true;
    }

    /** The size the table grows to for a handle that does not fit. */
    method NextCount(handle: nat) returns (n: nat)
      requires IsCount(count)
      ensures n == Capped(Doubled(2 * count, handle))
    {
      n := 2 * count;
      while n < handle
        invariant n >= 2 * count && Doubled(n, handle) == Doubled(2 * count, handle)
        decreases handle - n
      {
        n := n * 2;
      }
      if n > MAX {
        n := MAX;
      }
    }

    /** Growth for handle i, which is the first one that does not fit. */
    method Extend(i: nat) returns (ok: bool)
      requires Valid() && i == count
      modifies this`handles, this`count
      ensures Valid() && View() == old(View()) && (ok <==> i < MAX)
      ensures !ok ==> handles == old(handles) && count == old(count)
      ensures ok ==> fresh(handles) && i < count && Resized(old(handles[..]), handles[..])
    {
      var n := NextCount(i);
      if count >= n {
        return false;
      }
      ResizeTo(n);
      return true;
    }

    /** handleSet.  Growth stops as soon as the new size is not below the handle, so it stops short by one slot
        exactly for handles that are themselves a table size beyond the present one. */
    method Set(handle: nat, obj: nat) returns (r: SetResult)
      requires Valid()
      modifies this, handles
      ensures Valid() && (handles == old(handles) || fresh(handles))
      ensures r.Refused? <==> handle >= MAX
      ensures r.Overrun? <==> old(count) < handle < MAX && IsCount(handle)
      ensures View() == if r.Done? then old(View())[handle := obj] else old(View())
    {
      if handle >= MAX {
        return Refused;
      }
      if handle >= count {
        ExpandFor(handle);
        if handle >= count {
          return Overrun;
        }
      }
      Replace(handle, obj);
      return Done;
    }

    method ExpandFor(handle: nat)
      requires Valid() && count <= handle < MAX
      modifies this`handles, this`count
      ensures Valid() && fresh(handles) && View() == old(View())
      ensures handle < count || handle == count
      ensures handle == count <==> old(count) < handle && IsCount(handle)
    {
      var n := NextCount(handle);
      GrowthStops(count, handle);
      ResizeTo(n);
    }

    method Replace(handle: nat, obj: nat)
      requires Valid() && handle < count
      modifies this`taken, this`free_begin, this`free_end, handles
      ensures Valid() && View() == old(View())[handle := obj]
    {
      SetShape(handles[..], free_begin, free_end, handle, obj);
      Put(handle, Some(obj));
      ghost var t := handles[..];
      free_begin := if handle == free_begin then handle + 1 else free_begin;
      free_end := if handle >= free_end then handle + 1 else free_end;
      assert handles[..] == t;
    }

    /** handleRelease. */
    method Release(handle: nat) returns (ok: bool)
      requires Valid()
      modifies this, handles
      ensures Valid() && (handles == old(handles) || fresh(handles))
      ensures ok <==> handle in old(View())
      ensures View() == old(View()) - {handle}
      ensures handle + 1 != old(free_end) ==> handles == old(handles) && count == old(count)
    {
      if handle >= free_end || handles[handle].None? {
        assert View() == View() - {handle};
        return false;
      }
      var last := handle == free_end - 1;
      Clear(handle);
      if last && free_end > MIN && free_end < count / 4 {
        Shrink();
      }
      return true;
    }

    /** The slot is emptied and both hints follow. */
    method Clear(handle: nat)
      requires Valid() && handle < free_end && handles[handle].Some?
      modifies this`taken, this`free_begin, this`free_end, handles
      ensures Valid() && View() == old(View()) - {handle}
    {
      ghost var was := handles[..];
      Put(handle, None);
      ghost var t := handles[..];
      var e := LastUsed(handle, was, t);
      free_begin, free_end := if handle < free_begin then handle else free_begin, e;
    }

    /** One more than the last handle in use, now that this one is empty. */
    method LastUsed(handle: nat, ghost was: seq<Slot>, ghost t: seq<Slot>) returns (e: nat)
      requires handles != null && handles.Length == count && ShapeOk(was, free_begin, free_end) && handle < free_end
      requires was[handle].Some? && handles[..] == t == was[handle := None]
      ensures ShapeOk(t, if handle < free_begin then handle else free_begin, e)
    {
      e := free_end;
      if handle == e - 1 {
        while e > 0 && handles[e - 1].None?
          invariant e <= free_end && forall i :: e <= i < |t| ==> t[i].None?
        {
          assert t[e - 1] == handles[e - 1];
          e := e - 1;
        }
      }
      assert e > 0 ==> t[e - 1] == handles[e - 1];
      ClearShape(was, free_begin, free_end, handle, t, e);
    }

    method Shrink()
      requires Valid() && free_end > MIN && free_end < count / 4
      modifies this`handles, this`count
      ensures Valid() && fresh(handles) && View() == old(View())
    {
      ResizeTo(count / 4);
    }

    /** handleForkTable: the same handles, and a reference of its own for each. */
    constructor Fork(source: HandleTable)
      requires source.Valid()
      ensures Valid() && fresh(handles) && View() == source.View() && taken == source.taken
    {
      var n := ForkSize(source.free_end);
      count, free_begin, free_end := n, source.free_begin, source.free_end;
      var b, refs := CopySlots(source.handles, source.free_end, n);
      handles, taken := b, refs;
      new;
      ResizedSame(source.handles[..], handles[..]);
      ResizedShape(source.handles[..], handles[..], free_begin, free_end);
    }

    static method ForkSize(end: nat) returns (n: nat)
      requires end <= MAX
      ensures IsCount(n) && end <= n
    {
      n := MIN;
      while n < end
        invariant IsCount(n)
        decreases MAX - n
      {
        n := n * 2;
      }
    }

    /** Each filled slot is copied and its object referenced once more. */
    static method CopySlots(a: array<Slot>, end: nat, n: nat) returns (b: array<Slot>, ghost refs: multiset<nat>)
      requires end <= a.Length && end <= n && forall i :: end <= i < a.Length ==> a[i].None?
      ensures fresh(b) && b.Length == n && Resized(a[..], b[..]) && refs == Objects(a[..])
    {
      b, refs := CopyFirst(a[..], end, n);
      CopiedAll(a[..], end, b[..], refs);
    }

    static method CopyFirst(s: seq<Slot>, end: nat, n: nat) returns (b: array<Slot>, ghost refs: multiset<nat>)
      requires end <= |s| && end <= n
      ensures fresh(b) && b.Length == n && CopiedTo(s, b[..], end, refs)
    {
      b := new Slot[n](_ => None);
      refs := multiset{};
      for i := 0 to end
        invariant CopiedTo(s, b[..], i, refs)
      {
        ghost var t := b[..];
        CopiedStep(s, t, i, refs);
        b[i] := s[i];
        assert b[..] == t[i := s[i]];
        refs := refs + OfSlot(s[i]);
      }
    }

    /** handleTableFree: every reference is given back. */
    method Free()
      requires Valid()
      modifies `handles, `taken
      ensures handles == null && taken == multiset{}
    {
      ghost var s := handles[..];
      var i := 0;
      while i < free_end
        invariant i <= free_end && handles == old(handles) && handles[..] == s && taken + Objects(s[..i]) == Objects(s)
      {
        ReleaseSlot(i, s);
        i := i + 1;
      }
      ObjectsExtend(s[..free_end], s);
      handles := null;
    }

    /** The reference of one slot is given back; there is one to give. */
    method ReleaseSlot(i: nat, ghost s: seq<Slot>)
      requires handles != null && handles[..] == s && i < |s| && taken + Objects(s[..i]) == Objects(s)
      modifies `taken
      ensures OfSlot(s[i]) <= old(taken) && taken + Objects(s[..i + 1]) == Objects(s)
    {
      assert s[..i + 1][..i] == s[..i];
      ObjectsPrefix(s, i + 1);
      GiveBack(taken, Objects(s[..i]), OfSlot(s[i]), Objects(s));
      if handles[i].Some? {
        taken := taken - multiset{handles[i].value};
      }
    }
  }

  datatype SetResult = Refused | Done | Overrun

  /** h is the lowest handle from `from` on that is not in use; None if all below MAX are. */
  ghost predicate LowestFree(view: map<nat, nat>, from: nat, h: Option<nat>) {
    if h.Some? then from <= h.value && h.value !in view && forall i :: from <= i < h.value ==> i in view
    else forall i :: from <= i < MAX ==> i in view
  }

  ghost predicate Resized(s: seq<Slot>, t: seq<Slot>) {
    && (forall i :: 0 <= i < |s| && i < |t| ==> t[i] == s[i])
    && (forall i :: |t| <= i < |s| ==> s[i].None?) && (forall i :: |s| <= i < |t| ==> t[i].None?)
  }

  /** The first i slots are copied and their objects counted. */
  ghost predicate CopiedTo(s: seq<Slot>, t: seq<Slot>, i: nat, refs: multiset<nat>) {
    i <= |s| && i <= |t| && refs == ObjectsTo(s, i) && forall k :: 0 <= k < |t| ==> t[k] == if k < i then s[k] else None
  }

  lemma CopiedStep(s: seq<Slot>, t: seq<Slot>, i: nat, refs: multiset<nat>)
    requires CopiedTo(s, t, i, refs) && i < |s| && i < |t|
    ensures CopiedTo(s, t[i := s[i]], i + 1, refs + OfSlot(s[i]))
  {
  }

  lemma CopiedAll(s: seq<Slot>, end: nat, t: seq<Slot>, refs: multiset<nat>)
    requires CopiedTo(s, t, end, refs) && forall i :: end <= i < |s| ==> s[i].None?
    ensures Resized(s, t) && refs == Objects(s)
  {
    ObjectsToIs(s, end);
    ObjectsExtend(s[..end], s);
  }

  /** The objects in the first i slots. */
  ghost function ObjectsTo(s: seq<Slot>, i: nat): multiset<nat>
    requires i <= |s|
  {
    if i == 0 then multiset{} else ObjectsTo(s, i - 1) + OfSlot(s[i - 1])
  }

  lemma {:induction false} ObjectsToIs(s: seq<Slot>, i: nat)
    requires i <= |s|
    ensures ObjectsTo(s, i) == Objects(s[..i])
  {
    if i > 0 {
      ObjectsToIs(s, i - 1);
      assert s[..i][..i - 1] == s[..i - 1];
    }
  }

  lemma ResizedSame(s: seq<Slot>, t: seq<Slot>)
    requires Resized(s, t)
    ensures Objects(t) == Objects(s) && Filled(t) == Filled(s)
  {
    if |s| <= |t| {
      assert s == t[..|s|];
      ObjectsExtend(s, t);
    } else {
      assert t == s[..|t|];
      ObjectsExtend(t, s);
    }
  }

  lemma ResizedShape(s: seq<Slot>, t: seq<Slot>, freeBegin: nat, freeEnd: nat)
    requires ShapeOk(s, freeBegin, freeEnd) && Resized(s, t) && IsCount(|t|) && freeEnd <= |t|
    ensures ShapeOk(t, freeBegin, freeEnd)
  {
  }

  lemma OccupyShape(s: seq<Slot>, freeBegin: nat, freeEnd: nat, i: nat, obj: nat)
    requires ShapeOk(s, freeBegin, freeEnd) && i < |s| && forall k :: 3 <= k < i ==> s[k].Some?
    ensures ShapeOk(s[i := Some(obj)], i + 1, if i >= freeEnd then i + 1 else freeEnd)
  {
  }

  lemma SetShape(s: seq<Slot>, freeBegin: nat, freeEnd: nat, i: nat, obj: nat)
    requires ShapeOk(s, freeBegin, freeEnd) && i < |s|
    ensures ShapeOk(s[i := Some(obj)],
                if i == freeBegin then i + 1 else freeBegin, if i >= freeEnd then i + 1 else freeEnd)
  {
  }

  lemma ClearShape(s: seq<Slot>, freeBegin: nat, freeEnd: nat, i: nat, t: seq<Slot>, e: nat)
    requires ShapeOk(s, freeBegin, freeEnd) && i < freeEnd && s[i].Some? && t == s[i := None] && e <= freeEnd
    requires (forall k :: e <= k < |t| ==> t[k].None?) && (e > 0 ==> t[e - 1].Some?)
    ensures ShapeOk(t, if i < freeBegin then i else freeBegin, e)
  {
    var b := if i < freeBegin then i else freeBegin;
    assert b > 3 ==> t[b - 1].Some?;
  }

  /** Growth ends below the handle's slot exactly for a handle that is a larger table size. */
  lemma GrowthStops(count: nat, handle: nat)
    requires IsCount(count) && count <= handle < MAX
    ensures var n := Capped(Doubled(2 * count, handle));
            IsCount(n) && n > count && n >= handle && (n == handle <==> count < handle && IsCount(handle))
  {
    DoubledIs(2 * count, handle);
  }

  lemma {:induction false} DoubledIs(n: nat, handle: nat)
    requires IsCount(n) && handle < MAX
    ensures var m := Doubled(n, handle);
              IsCount(m) && (m == n || m < 2 * handle) && (m == handle <==> n <= handle && IsCount(handle))
    decreases MAX - n
  {
    if n < handle {
      DoubledIs(2 * n, handle);
    }
  }

  lemma {:induction false} ObjectsPrefix(s: seq<Slot>, i: nat)
    requires i <= |s|
    ensures Objects(s[..i]) <= Objects(s)
  {
    if i < |s| {
      ObjectsPrefix(s[..|s| - 1], i);
      assert s[..|s| - 1][..i] == s[..i];
    } else {
      assert s[..i] == s;
    }
  }

  lemma GiveBack(taken: multiset<nat>, done: multiset<nat>, x: multiset<nat>, all: multiset<nat>)
    requires taken + done == all && done + x <= all
    ensures x <= taken && (taken - x) + (done + x) == all
  {
    forall o
      ensures x[o] <= taken[o]
    {
      assert (done + x)[o] <= all[o];
    }
  }

  lemma LowestIs(s: seq<Slot>, from: nat, i: nat)
    requires from <= i <= |s| <= MAX && (i < |s| ==> s[i].None?) && forall k :: from <= k < i ==> s[k].Some?
    ensures LowestFree(Filled(s), from, Some(i))
    ensures i == MAX ==> LowestFree(Filled(s), from, None)
  {
  }

  /** From a hint on it is the lowest of all exactly if nothing below the hint is free. */
  lemma LowestFrom0(view: map<nat, nat>, begin: nat, h: Option<nat>)
    requires LowestFree(view, begin, h) && begin <= MAX
    ensures LowestFree(view, 0, h) <==> forall i :: 0 <= i < begin ==> i in view
  {
  }

  lemma LowestFrom3(s: seq<Slot>, begin: nat, from: nat, i: nat)
    requires from <= i <= |s| <= MAX && 3 <= from && (from == 3 || from == begin)
    requires (i < |s| ==> s[i].None?) && (forall k :: from <= k < i ==> s[k].Some?) && forall k ::
               3 <= k < begin && k < |s| ==> s[k].Some?
    ensures LowestFree(Filled(s), 3, Some(i))
    ensures i == MAX ==> LowestFree(Filled(s), 3, None)
  {
  }

  lemma {:induction false} NoObjects(s: seq<Slot>)
    requires forall i :: 0 <= i < |s| ==> s[i].None?
    ensures Objects(s) == multiset{} && Filled(s) == map[]
  {
    if s != [] {
      NoObjects(s[..|s| - 1]);
    }
  }

  /** A new table, an object that wants a handle from 3 on, then one that would take any: it gets 4, though 0 is
      free. */
  method NotTheLowest(x: nat, y: nat) returns (t: HandleTable, a: Option<nat>, b: Option<nat>)
    ensures a == Some(3) && b == Some(4) && t.Valid() && t.View() == map[3 := x, 4 := y]
  {
    t := new HandleTable();
    assert 3 !in t.View();
    a := t.Allocate(x, 3);
    assert 4 !in t.View();
    b := t.Allocate(y, 0);
  }

  /** In a new table handle 0x200 is written behind the end, handles 0x1FF and 0x201 are not. */
  method OverrunExample(x: nat) returns (t: HandleTable, below: SetResult, at: SetResult, above: SetResult)
    ensures t.Valid() && below == Done && at == Overrun && above == Done
  {
    t := new HandleTable();
    below := t.Set(0x1FF, x);
    t := new HandleTable();
    at := t.Set(0x200, x);
    t := new HandleTable();
    above := t.Set(0x201, x);
  }
}
