/** Sub-events come and go, objects are created: what these steps keep. */
module Attachments {
  import opened Sequences
  import opened WaitQueues
  import opened Lifecycle

  // ----- attaching -----

  /** The order r shows that events, with this sub-event added, are attached without a cycle. */
  predicate Acyclic(subs: map<nat, Sub>, events: map<nat, Event>, r: map<nat, nat>) {
    && events.Keys <= r.Keys
    && forall s {:trigger Ordered(subs, r, s)} :: s in subs ==> Ordered(subs, r, s)
  }

  predicate Ordered(subs: map<nat, Sub>, r: map<nat, nat>, s: nat)
    requires s in subs
  {
    subs[s].event in r && (subs[s].wait.EventObj? ==> subs[s].wait.ev in r && r[subs[s].wait.ev] < r[subs[s].event])
  }

  function WithSub(k: Snap, s: nat, e: nat, obj: Obj, ident: int): Snap
    requires e in k.events
  {
    k.(subs := k.subs[s := Sub(false, e, obj, ident)],
       events := k.events[e := k.events[e].(subs := k.events[e].subs + [s])])
  }

  /** Nobody has seen the new sub-event yet. */
  ghost function Unseen(seen: map<Node, set<nat>>, s: nat): map<Node, set<nat>> {
    map n | n in seen :: seen[n] - {s}
  }

  lemma AttachSound(k: Snap, rank: map<nat, nat>, seen: map<Node, set<nat>>, s: nat, e: nat, obj: Obj, ident: int,
                    r: map<nat, nat>)
    requires Sound(k, rank, seen, {}) && s !in k.subs && e in k.events
    requires var k' := WithSub(k, s, e, obj, ident); Acyclic(k'.subs, k'.events, r)
    ensures Sound(WithSub(k, s, e, obj, ident), r, Unseen(seen, s), {})
  {
    var k', seen' := WithSub(k, s, e, obj, ident), Unseen(seen, s);
    forall u | u in k'.subs
      ensures SubOk(k'.subs, k'.events, r, k'.place, u)
    {
      assert Ordered(k'.subs, r, u);
      assert u != s ==> SubOk(k.subs, k.events, rank, k.place, u);
    }
    forall n | n in k'.place
      ensures ReadyAt(k'.subs, k'.events, k'.place, seen', {}, n)
    {
      assert ReadyAt(k.subs, k.events, k.place, seen, {}, n);
    }
  }

  lemma AttachRests(k: Snap, w: World, rank: map<nat, nat>, seen: map<Node, set<nat>>, s: nat, e: nat, obj: Obj,
                    ident: int, r: map<nat, nat>)
    requires Rest(k, w, rank, seen, {}) && s !in k.subs && e in k.events && Known(k, w, obj)
    requires var k' := WithSub(k, s, e, obj, ident); Acyclic(k'.subs, k'.events, r)
    ensures Rest(WithSub(k, s, e, obj, ident), w, r, Unseen(seen, s), {})
  {
    AttachSound(k, rank, seen, s, e, obj, ident, r);
    var k' := WithSub(k, s, e, obj, ident);
    forall u | u in k'.subs
      ensures Known(k', w, k'.subs[u].wait) && ListedBack(k'.subs, k'.events, u)
    {
      assert u != s ==> Known(k, w, k.subs[u].wait) && ListedBack(k.subs, k.events, u);
    }
    forall f | f in k'.events
      ensures Lists(k'.subs, k'.events, f)
    {
      assert Lists(k.subs, k.events, f);
    }
  }

  function Grabbed(refs: map<Obj, nat>, o: Obj): map<Obj, nat>
    requires o in refs
  {
    refs[o := refs[o] + 1]
  }

  lemma MoreWatchers(subs: map<nat, Sub>, s: nat, u: Sub, o: Obj)
    requires s !in subs
    ensures |Watchers(subs[s := u], o)| == |Watchers(subs, o)| + One(u.wait == o)
  {
    var was, now := Watchers(subs, o), Watchers(subs[s := u], o);
    if u.wait == o {
      assert now == was + {s};
    } else {
      assert now == was;
    }
  }

  lemma AttachLedger(k: Snap, w: World, t: Tally, s: nat, e: nat, obj: Obj, ident: int)
    requires Ledger(k, w, t, {}) && s !in k.subs && e in k.events && Known(k, w, obj)
    ensures obj in t.refs && Ledger(WithSub(k, s, e, obj, ident), w, t.(refs := Grabbed(t.refs, obj)), {})
  {
    assert CountOk(k, w, t, obj);
    var k', t' := WithSub(k, s, e, obj, ident), t.(refs := Grabbed(t.refs, obj));
    forall o
      ensures CountOk(k', w, t', o)
    {
      assert CountOk(k, w, t, o);
      MoreWatchers(k.subs, s, Sub(false, e, obj, ident), o);
    }
    MoreRefs(k, w, t, t'.refs);
  }

  /** Counts that only grow keep handles and queues in order. */
  lemma MoreRefs(k: Snap, w: World, t: Tally, refs': map<Obj, nat>)
    requires HandlesOk(w.procs, t) && Tended(k.place, t.refs, {})
    requires forall o :: o in t.refs ==> o in refs' && refs'[o] >= t.refs[o]
    ensures HandlesOk(w.procs, t.(refs := refs')) && Tended(k.place, refs', {})
  {
    forall h | h in t.handles
      ensures HandleOk(w.procs, t.(refs := refs'), h)
    {
      assert HandleOk(w.procs, t, h);
    }
    forall u
      ensures Tends(k.place, refs', {}, u)
    {
      assert Tends(k.place, t.refs, {}, u);
    }
  }

  // ----- detaching -----

  function WithoutSub(k: Snap, s: nat): Snap
    requires s in k.subs && k.subs[s].event in k.events
  {
    var e := k.subs[s].event;
    k.(subs := k.subs - {s},
       events := k.events[e := k.events[e].(subs := Without(k.events[e].subs, s))],
       queues := if S(s) in k.place then Unqueued(k.queues, S(s), k.place[S(s)]) else k.queues,
       place := k.place - {S(s)})
  }

  lemma DetachSound(k: Snap, rank: map<nat, nat>, seen: map<Node, set<nat>>, s: nat)
    requires Sound(k, rank, seen, {}) && s in k.subs
    ensures k.subs[s].event in k.events && Sound(WithoutSub(k, s), rank, seen, {})
  {
    assert SubOk(k.subs, k.events, rank, k.place, s);
    var k' := WithoutSub(k, s);
    if S(s) in k.place {
      UnqueueKeeps(k.queues, k.place, S(s));
    } else {
      assert k.place - {S(s)} == k.place;
    }
    forall u | u in k'.threads
      ensures ThreadOk(k'.threads, k'.place, u)
    {
      assert ThreadOk(k.threads, k.place, u);
    }
    forall u | u in k'.subs
      ensures SubOk(k'.subs, k'.events, rank, k'.place, u)
    {
      assert SubOk(k.subs, k.events, rank, k.place, u);
    }
    forall n | n in k'.place
      ensures ReadyAt(k'.subs, k'.events, k'.place, seen, {}, n)
    {
      assert ReadyAt(k.subs, k.events, k.place, seen, {}, n);
    }
  }

  lemma DetachRests(k: Snap, w: World, rank: map<nat, nat>, seen: map<Node, set<nat>>, s: nat)
    requires Rest(k, w, rank, seen, {}) && s in k.subs
    ensures k.subs[s].event in k.events && Rest(WithoutSub(k, s), w, rank, seen, {})
  {
    DetachSound(k, rank, seen, s);
    var e, k' := k.subs[s].event, WithoutSub(k, s);
    WithoutMembers(k.events[e].subs, s);
    forall u | u in k'.subs
      ensures Known(k', w, k'.subs[u].wait) && ListedBack(k'.subs, k'.events, u)
    {
      assert Known(k, w, k.subs[u].wait) && ListedBack(k.subs, k.events, u);
    }
    forall f | f in k'.events
      ensures Lists(k'.subs, k'.events, f)
    {
      assert Lists(k.subs, k.events, f);
    }
    forall o
      ensures Calm(k'.threads, k'.queues, w, o)
    {
      assert Calm(k.threads, k.queues, w, o);
    }
  }

  /** A reference passes to kernel code. */
  function Handed(held: map<Obj, nat>, o: Obj): map<Obj, nat>
    requires o in held
  {
    held[o := held[o] + 1]
  }

  lemma DetachLedger(k: Snap, w: World, t: Tally, s: nat)
    requires Ledger(k, w, t, {}) && s in k.subs && k.subs[s].event in k.events && Known(k, w, k.subs[s].wait)
    ensures k.subs[s].wait in t.refs && k.subs[s].wait in t.held
    ensures Ledger(WithoutSub(k, s), w, t.(held := Handed(t.held, k.subs[s].wait)), {})
  {
    assert CountOk(k, w, t, k.subs[s].wait);
    var k', t' := WithoutSub(k, s), t.(held := Handed(t.held, k.subs[s].wait));
    assert k.subs == k'.subs[s := k.subs[s]];
    forall o
      ensures CountOk(k', w, t', o)
    {
      assert CountOk(k, w, t, o);
      MoreWatchers(k'.subs, s, k.subs[s], o);
    }
    forall h | h in t'.handles
      ensures HandleOk(w.procs, t', h)
    {
      assert HandleOk(w.procs, t, h);
    }
    forall u
      ensures Tends(k'.place, t'.refs, {}, u)
    {
      assert Tends(k.place, t.refs, {}, u);
    }
  }

  // ----- handles -----

  lemma MoreUses(handles: map<Handle, Obj>, h: Handle, x: Obj, o: Obj)
    requires h !in handles
    ensures |Uses(handles[h := x], o)| == |Uses(handles, o)| + One(x == o)
  {
    var was, now := Uses(handles, o), Uses(handles[h := x], o);
    if x == o {
      assert now == was + {h};
    } else {
      assert now == was;
    }
  }

  function Opened(t: Tally, h: Handle, o: Obj): Tally
    requires o in t.refs
  {
    t.(handles := t.handles[h := o], refs := Grabbed(t.refs, o))
  }

  /** handleAllocate: a handle more, a reference more. */
  lemma OpenLedger(k: Snap, w: World, t: Tally, h: Handle, o: Obj)
    requires Ledger(k, w, t, {}) && h !in t.handles && o in t.refs && h.pid in w.procs && w.procs[h.pid].handled
    ensures Ledger(k, w, Opened(t, h, o), {})
  {
    var t' := Opened(t, h, o);
    forall x
      ensures CountOk(k, w, t', x)
    {
      assert CountOk(k, w, t, x);
      MoreUses(t.handles, h, o, x);
    }
    forall g | g in t'.handles
      ensures HandleOk(w.procs, t', g)
    {
      assert g != h ==> HandleOk(w.procs, t, g);
    }
    forall u
      ensures Tends(k.place, t'.refs, {}, u)
    {
      assert Tends(k.place, t.refs, {}, u);
    }
  }

  function Closed(t: Tally, h: Handle): Tally
    requires h in t.handles && t.handles[h] in t.held
  {
    t.(handles := t.handles - {h}, held := Handed(t.held, t.handles[h]))
  }

  /** The first half of handleRelease: the slot is empty, kernel code holds its reference. */
  lemma CloseLedger(k: Snap, w: World, t: Tally, h: Handle)
    requires Ledger(k, w, t, {}) && h in t.handles
    ensures t.handles[h] in t.refs && t.handles[h] in t.held && Ledger(k, w, Closed(t, h), {})
  {
    var o := t.handles[h];
    assert HandleOk(w.procs, t, h) && CountOk(k, w, t, o);
    var t' := Closed(t, h);
    assert t.handles == t'.handles[h := o];
    forall x
      ensures CountOk(k, w, t', x)
    {
      assert CountOk(k, w, t, x);
      MoreUses(t'.handles, h, o, x);
    }
    forall g | g in t'.handles
      ensures HandleOk(w.procs, t', g)
    {
      assert HandleOk(w.procs, t, g);
    }
  }

  // ----- new objects -----

  /** A new thread goes to the end of the run list. */
  function WithThread(k: Snap, t: nat, p: nat): Snap {
    k.(threads := k.threads[t := Thread(false, Some(p), 0, -1)],
       queues := k.queues[RunQ := Q(k.queues, RunQ) + [T(t)]], place := k.place[T(t) := RunQ])
  }

  function Joined(procs: map<nat, Proc>, p: nat, t: nat): map<nat, Proc>
    requires p in procs
  {
    procs[p := procs[p].(threads := procs[p].threads + [t])]
  }

  lemma BornSound(k: Snap, rank: map<nat, nat>, seen: map<Node, set<nat>>, t: nat, p: nat)
    requires Sound(k, rank, seen, {}) && t !in k.threads
    ensures Sound(WithThread(k, t, p), rank, seen, {})
  {
    var k' := WithThread(k, t, p);
    EnqueueKeeps(k.queues, k.place, T(t), RunQ, Q(k.queues, RunQ) + [T(t)]);
    forall u | u in k'.threads
      ensures ThreadOk(k'.threads, k'.place, u)
    {
      assert u != t ==> ThreadOk(k.threads, k.place, u);
    }
    forall u | u in k'.subs
      ensures SubOk(k'.subs, k'.events, rank, k'.place, u)
    {
      assert SubOk(k.subs, k.events, rank, k.place, u);
    }
    forall n | n in k'.place
      ensures ReadyAt(k'.subs, k'.events, k'.place, seen, {}, n)
    {
      assert n != T(t) ==> ReadyAt(k.subs, k.events, k.place, seen, {}, n);
    }
  }

  lemma BornRests(k: Snap, w: World, rank: map<nat, nat>, seen: map<Node, set<nat>>, t: nat, p: nat)
    requires Rest(k, w, rank, seen, {}) && t !in k.threads && p in w.procs
    ensures Rest(WithThread(k, t, p), w.(procs := Joined(w.procs, p, t)), rank, seen, {})
  {
    BornSound(k, rank, seen, t, p);
    var k', w' := WithThread(k, t, p), w.(procs := Joined(w.procs, p, t));
    forall s | s in k'.subs
      ensures Known(k', w', k'.subs[s].wait)
    {
      assert Known(k, w, k.subs[s].wait);
    }
    forall o
      ensures Calm(k'.threads, k'.queues, w', o)
    {
      assert Calm(k.threads, k.queues, w, o);
    }
  }

  lemma BornManned(threads: map<nat, Thread>, procs: map<nat, Proc>, t: nat, p: nat)
    requires Manned(threads, procs) && t !in threads && p in procs && procs[p].paged && procs[p].handled
    ensures Manned(threads[t := Thread(false, Some(p), 0, -1)], Joined(procs, p, t))
  {
    var threads', procs' := threads[t := Thread(false, Some(p), 0, -1)], Joined(procs, p, t);
    forall q | q in procs'
      ensures MembersOf(threads', procs', q) && Equipped(procs', q)
    {
      assert MembersOf(threads, procs, q) && Equipped(procs, q);
    }
    forall u | u in threads'
      ensures Housed(threads', procs', u)
    {
      assert u != t ==> Housed(threads, procs, u);
    }
  }

  /** An object that does not exist is referred to by nobody. */
  lemma NobodyRefers(k: Snap, w: World, t: Tally, o: Obj)
    requires Counted(k, w, t) && HandlesOk(w.procs, t) && SubsKnown(k, w) && !Known(k, w, o)
    ensures o !in t.refs && Watchers(k.subs, o) == {} && Uses(t.handles, o) == {}
  {
    assert CountOk(k, w, t, o);
    assert Watchers(k.subs, o) == {} by {
      assert forall s :: s in k.subs ==> Known(k, w, k.subs[s].wait);
    }
    assert Uses(t.handles, o) == {} by {
      assert forall h :: h in t.handles ==> HandleOk(w.procs, t, h);
    }
  }

  /** The creator holds one reference; a thread holds itself and its process. */
  function BornTally(t: Tally, u: nat, p: nat): Tally
    requires ProcObj(p) in t.refs
  {
    t.(refs := t.refs[ThreadObj(u) := 2][ProcObj(p) := t.refs[ProcObj(p)] + 1], held := t.held[ThreadObj(u) := 1],
       log := t.log.(ended := t.log.ended[u := 0]))
  }

  lemma BornCounts(k: Snap, w: World, t: Tally, u: nat, p: nat)
    requires Ledger(k, w, t, {}) && SubsKnown(k, w) && u !in k.threads && p in w.procs
    ensures ProcObj(p) in t.refs && Counted(WithThread(k, u, p), w.(procs := Joined(w.procs, p, u)), BornTally(t, u, p))
  {
    assert CountOk(k, w, t, ProcObj(p));
    NobodyRefers(k, w, t, ThreadObj(u));
    var k', w', t' := WithThread(k, u, p), w.(procs := Joined(w.procs, p, u)), BornTally(t, u, p);
    forall o
      ensures CountOk(k', w', t', o)
    {
      assert CountOk(k, w, t, o);
    }
  }

  lemma BornLedger(k: Snap, w: World, t: Tally, u: nat, p: nat)
    requires Ledger(k, w, t, {}) && SubsKnown(k, w)
    requires u !in k.threads && p in w.procs && w.procs[p].paged && w.procs[p].handled
    ensures ProcObj(p) in t.refs
    ensures Ledger(WithThread(k, u, p), w.(procs := Joined(w.procs, p, u)), BornTally(t, u, p), {})
  {
    BornManned(k.threads, w.procs, u, p);
    BornCounts(k, w, t, u, p);
    NobodyRefers(k, w, t, ThreadObj(u));
    var k', w', t' := WithThread(k, u, p), w.(procs := Joined(w.procs, p, u)), BornTally(t, u, p);
    forall x | x in k'.threads
      ensures EndedOnce(k'.threads, t'.log, x)
    {
      assert x != u ==> EndedOnce(k.threads, t.log, x);
    }
    forall q | q in w'.procs
      ensures FreedOnce(w'.procs, t'.log, q)
    {
      assert FreedOnce(w.procs, t.log, q);
    }
    forall h | h in t'.handles
      ensures HandleOk(w'.procs, t', h)
    {
      assert HandleOk(w.procs, t, h);
    }
    forall x
      ensures Tends(k'.place, t'.refs, {}, x)
    {
      assert Tends(k.place, t.refs, {}, x);
    }
  }

  /** More processes, semaphores and devices: those there were keep their value. */
  ghost predicate Grown(w: World, w': World) {
    && w.procs.Keys <= w'.procs.Keys && w.sems.Keys <= w'.sems.Keys && w.devs.Keys <= w'.devs.Keys
    && (forall p {:trigger w'.procs[p]} :: p in w.procs ==> w'.procs[p] == w.procs[p])
    && (forall s {:trigger w'.sems[s]} :: s in w.sems ==> w'.sems[s] == w.sems[s])
    && (forall d {:trigger w'.devs[d]} :: d in w.devs ==> w'.devs[d] == w.devs[d])
    && w'.late == w.late
  }

  lemma GrownRests(k: Snap, w: World, w': World, rank: map<nat, nat>, seen: map<Node, set<nat>>)
    requires Rest(k, w, rank, seen, {}) && Grown(w, w')
    ensures Rest(k, w', rank, seen, {})
  {
    forall s | s in k.subs
      ensures Known(k, w', k.subs[s].wait)
    {
      assert Known(k, w, k.subs[s].wait);
    }
    forall o
      ensures Calm(k.threads, k.queues, w', o)
    {
      assert Calm(k.threads, k.queues, w, o);
    }
  }

  /** A token for a semaphore nobody waits for. */
  lemma GiveRests(k: Snap, w: World, rank: map<nat, nat>, seen: map<Node, set<nat>>, s: nat)
    requires Rest(k, w, rank, seen, {}) && s in w.sems && Q(k.queues, WaitQ(SemObj(s))) == []
    ensures Rest(k, w.(sems := w.sems[s := (w.sems[s] + 1) % WORD]), rank, seen, {})
  {
    var w' := w.(sems := w.sems[s := (w.sems[s] + 1) % WORD]);
    forall u | u in k.subs
      ensures Known(k, w', k.subs[u].wait)
    {
      assert Known(k, w, k.subs[u].wait);
    }
    forall o
      ensures Calm(k.threads, k.queues, w', o)
    {
      assert Calm(k.threads, k.queues, w, o);
    }
  }

  /** A device changes and nobody is woken.  If it is ready and has waiters, it is late. */
  lemma DeviceRests(k: Snap, w: World, rank: map<nat, nat>, seen: map<Node, set<nat>>, d: nat, now: Option<int>,
                    isLate: bool)
    requires Rest(k, w, rank, seen, {}) && d in w.devs
    requires if isLate then now.Some? else now.None? || Q(k.queues, WaitQ(DevObj(d))) == []
    ensures Rest(k, DeviceSet(w, d, now, isLate), rank, seen, {})
  {
    var w' := DeviceSet(w, d, now, isLate);
    forall u | u in k.subs
      ensures Known(k, w', k.subs[u].wait)
    {
      assert Known(k, w, k.subs[u].wait);
    }
    forall o
      ensures Calm(k.threads, k.queues, w', o)
    {
      assert Calm(k.threads, k.queues, w, o);
    }
  }

  function DeviceSet(w: World, d: nat, now: Option<int>, isLate: bool): World {
    w.(devs := w.devs[d := now], late := if isLate then w.late + {d} else w.late - {d})
  }

  // ----- the whole invariant -----

  lemma AttachKeeps(k: Snap, w: World, b: Book, t: Tally, s: nat, e: nat, obj: Obj, ident: int, r: map<nat, nat>)
    requires Kept(k, w, b, t, {}) && s !in k.subs && e in k.events && Known(k, w, obj)
    requires var k' := WithSub(k, s, e, obj, ident); Acyclic(k'.subs, k'.events, r)
    ensures obj in t.refs
    ensures Kept(WithSub(k, s, e, obj, ident), w, b.(rank := r, seen := Unseen(b.seen, s)),
                t.(refs := Grabbed(t.refs, obj)), {})
  {
    assert Look(0);
    AttachRests(k, w, b.rank, b.seen, s, e, obj, ident, r);
    AttachLedger(k, w, t, s, e, obj, ident);
  }

  lemma DetachKeeps(k: Snap, w: World, b: Book, t: Tally, s: nat)
    requires Kept(k, w, b, t, {}) && s in k.subs
    ensures k.subs[s].event in k.events && (k.subs[s].blocked <==> S(s) in k.place) && Placed(k.queues, k.place)
    ensures k.subs[s].wait in t.refs && k.subs[s].wait in t.held
    ensures Kept(WithoutSub(k, s), w, b, t.(held := Handed(t.held, k.subs[s].wait)), {})
  {
    assert Look(0);
    assert SubOk(k.subs, k.events, b.rank, k.place, s) && Known(k, w, k.subs[s].wait);
    DetachRests(k, w, b.rank, b.seen, s);
    DetachLedger(k, w, t, s);
  }

  /** The sub-events of e with this identifier. */
  ghost function Matching(subs: map<nat, Sub>, e: nat, ident: int): set<nat> {
    set s | s in subs && subs[s].event == e && subs[s].ident == ident
  }

  /** Those among a part of the list. */
  ghost function MatchingIn(subs: map<nat, Sub>, list: seq<nat>, ident: int): set<nat> {
    set s | s in list && s in subs && subs[s].ident == ident
  }

  lemma MatchingStep(subs: map<nat, Sub>, list: seq<nat>, i: nat, ident: int)
    requires i < |list| && NoDup(list) && list[i] in subs
    ensures list[i] !in MatchingIn(subs, list[..i], ident)
    ensures MatchingIn(subs, list[..i + 1], ident) ==
            MatchingIn(subs, list[..i], ident) + (if subs[list[i]].ident == ident then {list[i]} else {})
  {
    assert list[..i + 1] == list[..i] + [list[i]];
  }

  lemma MatchingAll(k: Snap, e: nat, ident: int)
    requires Attached(k.subs, k.events) && e in k.events
    ensures MatchingIn(k.subs, k.events[e].subs, ident) == Matching(k.subs, e, ident)
  {
    assert Lists(k.subs, k.events, e);
    forall s | s in Matching(k.subs, e, ident)
      ensures s in k.events[e].subs
    {
      assert ListedBack(k.subs, k.events, s);
    }
  }

  // ----- a new event, and the empty kernel -----

  lemma EventSound(k: Snap, w: World, rank: map<nat, nat>, seen: map<Node, set<nat>>, e: nat, wakeAll: bool)
    requires Sound(k, rank, seen, {}) && SubsKnown(k, w) && e !in k.events
    ensures Sound(k.(events := k.events[e := Event(wakeAll, 0, [])]), rank[e := 0], seen, {})
  {
    var k', rank' := k.(events := k.events[e := Event(wakeAll, 0, [])]), rank[e := 0];
    forall u | u in k'.subs
      ensures SubOk(k'.subs, k'.events, rank', k'.place, u)
    {
      assert SubOk(k.subs, k.events, rank, k.place, u) && Known(k, w, k.subs[u].wait);
    }
    forall n | n in k'.place
      ensures ReadyAt(k'.subs, k'.events, k'.place, seen, {}, n)
    {
      assert ReadyAt(k.subs, k.events, k.place, seen, {}, n);
    }
  }

  /** A new object of a passive kind, with the creator's reference. */
  function NewTally(t: Tally, o: Obj): Tally { t.(refs := t.refs[o := 1], held := t.held[o := 1]) }

  lemma NewLedger(k: Snap, w: World, k': Snap, w': World, t: Tally, o: Obj)
    requires Ledger(k, w, t, {}) && SubsKnown(k, w) && !Known(k, w, o) && Passive(o)
    requires k' == k.(events := k'.events) && w'.procs == w.procs && forall x ::
               Known(k', w', x) <==> Known(k, w, x) || x == o
    ensures Ledger(k', w', NewTally(t, o), {})
  {
    NobodyRefers(k, w, t, o);
    var t' := NewTally(t, o);
    forall x
      ensures CountOk(k', w', t', x)
    {
      assert CountOk(k, w, t, x);
    }
    forall h | h in t'.handles
      ensures HandleOk(w'.procs, t', h)
    {
      assert HandleOk(w.procs, t, h);
    }
    forall u
      ensures Tends(k'.place, t'.refs, {}, u)
    {
      assert Tends(k.place, t.refs, {}, u);
    }
  }

  lemma EventKeeps(k: Snap, w: World, b: Book, t: Tally, e: nat, wakeAll: bool)
    requires Kept(k, w, b, t, {}) && e !in k.events
    ensures Kept(k.(events := k.events[e := Event(wakeAll, 0, [])]), w, b.(rank := b.rank[e := 0]),
                NewTally(t, EventObj(e)), {})
  {
    assert Look(0);
    EventSound(k, w, b.rank, b.seen, e, wakeAll);
    var k' := k.(events := k.events[e := Event(wakeAll, 0, [])]);
    NewLedger(k, w, k', w, t, EventObj(e));
    forall u | u in k'.subs
      ensures Known(k', w, k'.subs[u].wait) && ListedBack(k'.subs, k'.events, u)
    {
      assert Known(k, w, k.subs[u].wait) && ListedBack(k.subs, k.events, u)
             && SubOk(k.subs, k.events, b.rank, k.place, u);
    }
    forall f | f in k'.events
      ensures Lists(k'.subs, k'.events, f)
    {
      assert f != e ==> Lists(k.subs, k.events, f);
    }
  }

  lemma ThreadKeeps(k: Snap, w: World, b: Book, t: Tally, u: nat, p: nat)
    requires Kept(k, w, b, t, {}) && u !in k.threads && p in w.procs && w.procs[p].paged && w.procs[p].handled
    ensures ProcObj(p) in t.refs
    ensures Kept(WithThread(k, u, p), w.(procs := Joined(w.procs, p, u)), b, BornTally(t, u, p), {})
  {
    assert Look(0);
    BornRests(k, w, b.rank, b.seen, u, p);
    BornLedger(k, w, t, u, p);
  }

  const FRESH := Proc([], -1, true, true)

  function NewcomerTally(t: Tally, p: nat): Tally {
    NewTally(t, ProcObj(p)).(log := t.log.(tables := t.log.tables[p := 0], handles := t.log.handles[p := 0]))
  }

  /** processCreate without an original: no threads yet, tables in place. */
  lemma ProcessKeeps(k: Snap, w: World, b: Book, t: Tally, p: nat)
    requires Kept(k, w, b, t, {}) && p !in w.procs
    ensures Kept(k, w.(procs := w.procs[p := FRESH]), b, NewcomerTally(t, p), {})
  {
    assert Look(0);
    GrownRests(k, w, w.(procs := w.procs[p := FRESH]), b.rank, b.seen);
    NewcomerLedger(k, w, t, p);
  }

  lemma NewcomerLedger(k: Snap, w: World, t: Tally, p: nat)
    requires Ledger(k, w, t, {}) && SubsKnown(k, w) && p !in w.procs
    ensures Ledger(k, w.(procs := w.procs[p := FRESH]), NewcomerTally(t, p), {})
  {
    NobodyRefers(k, w, t, ProcObj(p));
    var w', t' := w.(procs := w.procs[p := FRESH]), NewcomerTally(t, p);
    forall u | u in k.threads
      ensures Housed(k.threads, w'.procs, u) && EndedOnce(k.threads, t'.log, u) && k.threads[u].process != Some(p)
    {
      assert Housed(k.threads, w.procs, u) && EndedOnce(k.threads, t.log, u);
    }
    forall q | q in w'.procs
      ensures MembersOf(k.threads, w'.procs, q) && Equipped(w'.procs, q) && FreedOnce(w'.procs, t'.log, q)
    {
      assert q != p ==> MembersOf(k.threads, w.procs, q) && Equipped(w.procs, q) && FreedOnce(w.procs, t.log, q);
    }
    NewcomerCounts(k, w, t, p);
    forall h | h in t'.handles
      ensures HandleOk(w'.procs, t', h)
    {
      assert HandleOk(w.procs, t, h);
    }
    forall u
      ensures Tends(k.place, t'.refs, {}, u)
    {
      assert Tends(k.place, t.refs, {}, u);
    }
  }

  lemma NewcomerCounts(k: Snap, w: World, t: Tally, p: nat)
    requires Counted(k, w, t) && HandlesOk(w.procs, t) && SubsKnown(k, w) && p !in w.procs
    ensures Counted(k, w.(procs := w.procs[p := FRESH]), NewcomerTally(t, p))
  {
    NobodyRefers(k, w, t, ProcObj(p));
    var w', t' := w.(procs := w.procs[p := FRESH]), NewcomerTally(t, p);
    forall o
      ensures CountOk(k, w', t', o)
    {
      assert CountOk(k, w, t, o);
    }
  }

  lemma SemaphoreKeeps(k: Snap, w: World, b: Book, t: Tally, s: nat, value: nat)
    requires Kept(k, w, b, t, {}) && s !in w.sems && value < WORD
    ensures Kept(k, w.(sems := w.sems[s := value]), b.(given := b.given[s := value], taken := b.taken[s := 0]),
                NewTally(t, SemObj(s)), {})
  {
    assert Look(0);
    var sems', given', taken' := w.sems[s := value], b.given[s := value], b.taken[s := 0];
    GrownRests(k, w, w.(sems := sems'), b.rank, b.seen);
    NewLedger(k, w, k, w.(sems := sems'), t, SemObj(s));
    forall x | x in sems'
      ensures BalancedAt(sems', given', taken', x)
    {
      assert x != s ==> BalancedAt(w.sems, b.given, b.taken, x);
    }
  }

  lemma DeviceKeeps(k: Snap, w: World, b: Book, t: Tally, d: nat, now: Option<int>)
    requires Kept(k, w, b, t, {}) && d !in w.devs
    ensures Kept(k, w.(devs := w.devs[d := now]), b, NewTally(t, DevObj(d)), {})
  {
    assert Look(0);
    GrownRests(k, w, w.(devs := w.devs[d := now]), b.rank, b.seen);
    NewLedger(k, w, k, w.(devs := w.devs[d := now]), t, DevObj(d));
  }
}
