/** memcpy and memmove of util.c. */
module Blocks {

  type Byte = x: int | 0 <= x < 256

  /** The block at src copied over the block at dst, as if through a second buffer. */
  function Moved(s: seq<Byte>, dst: nat, src: nat, num: nat): seq<Byte>
    requires dst + num <= |s| && src + num <= |s|
  {
    s[..dst] + s[src..src + num] + s[dst + num..]
  }

  /** What slot k holds once the bytes [from, to) of the block have been copied. */
  function Target(s: seq<Byte>, dst: nat, src: nat, from: nat, to: nat, k: nat): Byte
    requires k < |s| && dst + to <= |s| && src + to <= |s|
  {
    if dst + from <= k < dst + to then s[src + (k - dst)] else s[k]
  }

  /** memcpy inside one buffer: right if the destination lies before the source or behind its end. */
  method CopyForward(a: array<Byte>, dst: nat, src: nat, num: nat)
    requires dst + num <= a.Length && src + num <= a.Length && (dst < src || dst >= src + num)
    modifies a
    ensures a[..] == Moved(old(a[..]), dst, src, num)
  {
    ghost var was := a[..];
    var i := 0;
    while i < num
      invariant i <= num && forall k :: 0 <= k < a.Length ==> a[k] == Target(was, dst, src, 0, i, k)
    {
      a[dst + i] := a[src + i];
      i := i + 1;
    }
    AllMoved(was, a[..], dst, src, num);
  }

  /** From the end: right if the destination does not lie before the source. */
  method CopyBackward(a: array<Byte>, dst: nat, src: nat, num: nat)
    requires dst + num <= a.Length && src <= dst
    modifies a
    ensures a[..] == Moved(old(a[..]), dst, src, num)
  {
    ghost var was := a[..];
    var i := num;
    while i > 0
      invariant 0 <= i <= num && forall k :: 0 <= k < a.Length ==> a[k] == Target(was, dst, src, i, num, k)
    {
      i := i - 1;
      a[dst + i] := a[src + i];
    }
    AllMoved(was, a[..], dst, src, num);
  }

  lemma AllMoved(s: seq<Byte>, t: seq<Byte>, dst: nat, src: nat, num: nat)
    requires |t| == |s| && dst + num <= |s| && src + num <= |s|
    requires forall k :: 0 <= k < |s| ==> t[k] == Target(s, dst, src, 0, num, k)
    ensures t == Moved(s, dst, src, num)
  {
    var m := Moved(s, dst, src, num);
    assert |m| == |s|;
    forall k | 0 <= k < |s|
      ensures t[k] == m[k]
    {
    }
  }

  /** memmove: right however the two blocks overlap. */
  method MemMove(a: array<Byte>, dst: nat, src: nat, num: nat)
    requires dst + num <= a.Length && src + num <= a.Length
    modifies a
    ensures a[..] == Moved(old(a[..]), dst, src, num)
  {
    if dst < src || dst >= src + num {
      CopyForward(a, dst, src, num);
    } else if dst != src {
      CopyBackward(a, dst, src, num);
    }
  }

  /** memcpy from another buffer. */
  method MemCopy(a: array<Byte>, dst: nat, data: seq<Byte>)
    requires dst + |data| <= a.Length
    modifies a
    ensures a[..] == old(a[..dst]) + data + old(a[dst + |data|..])
  {
    var i := 0;
    while i < |data|
      invariant i <= |data|
      invariant forall k :: 0 <= k < a.Length ==> a[k] == if dst <= k < dst + i then data[k - dst] else old(a[k])
    {
      a[dst + i] := data[i];
      i := i + 1;
    }
  }
}
