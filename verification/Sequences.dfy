/** What all parts share: linked lists as sequences (removal, lists without repetition) and optional values. */
module Sequences {

  datatype Option<+T> = None | Some(value: T)

  const WORD := 0x1_0000_0000

  /** ll_remove, on the list as a sequence. */
  function Without<A(==)>(s: seq<A>, n: A): seq<A> {
    if s == [] then [] else if s[0] == n then Without(s[1..], n) else [s[0]] + Without(s[1..], n)
  }

  ghost predicate NoDup<A>(s: seq<A>) {
    forall i, j :: 0 <= i < j < |s| ==> s[i] != s[j]
  }

  lemma {:induction false} WithoutMembers<A>(s: seq<A>, n: A)
    ensures forall m :: m in Without(s, n) <==> m in s && m != n
    ensures NoDup(s) ==> NoDup(Without(s, n))
  {
    if s != [] {
      WithoutMembers(s[1..], n);
      assert forall m :: m in s <==> m == s[0] || m in s[1..];
      assert NoDup(s) ==> NoDup(s[1..]) && s[0] !in s[1..];
    }
  }

  lemma {:induction false} WithoutAbsent<A>(s: seq<A>, n: A)
    requires n !in s
    ensures Without(s, n) == s
  {
    if s != [] {
      assert n !in s[1..];
      WithoutAbsent(s[1..], n);
    }
  }

  lemma WithoutHead<A>(s: seq<A>)
    requires s != [] && NoDup(s)
    ensures Without(s, s[0]) == s[1..]
  {
    assert s[0] !in s[1..];
    WithoutAbsent(s[1..], s[0]);
  }

  lemma WithoutOne<A>(s: seq<A>, x: A)
    requires NoDup(s) && x in s
    ensures |Without(s, x)| == |s| - 1
  {
    if s[0] == x {
      WithoutHead(s);
    } else {
      assert NoDup(s[1..]);
      WithoutOne(s[1..], x);
    }
  }

  lemma {:induction false} WithoutAt<A>(s: seq<A>, i: nat)
    requires NoDup(s) && i < |s|
    ensures Without(s, s[i]) == s[..i] + s[i + 1..]
  {
    if i == 0 {
      WithoutHead(s);
    } else {
      var x, t := s[i], s[1..];
      TailNoDup(s);
      WithoutAt(t, i - 1);
      assert Without(s, x) == [s[0]] + Without(t, x);
      TailSplit(s, i);
    }
  }

  lemma TailNoDup<A>(s: seq<A>)
    requires NoDup(s) && s != []
    ensures NoDup(s[1..])
  {
  }

  lemma TailSplit<A>(s: seq<A>, i: nat)
    requires 0 < i < |s|
    ensures [s[0]] + (s[1..][..i - 1] + s[1..][i..]) == s[..i] + s[i + 1..]
  {
  }

  lemma SubsetSize<A>(a: set<A>, b: set<A>)
    requires a <= b
    ensures |a| <= |b|
  {
    assert b == a + (b - a);
  }

  lemma DropSize<K, V>(m: map<K, V>, k: K)
    requires k in m
    ensures |m - {k}| == |m| - 1
  {
    assert (m - {k}).Keys == m.Keys - {k};
    assert |m.Keys| == |m| && |(m - {k}).Keys| == |m - {k}|;
  }
}
