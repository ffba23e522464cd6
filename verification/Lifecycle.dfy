/** Birth and death of threads and processes, as values. */
module Lifecycle {
  import opened Sequences
  import opened WaitQueues

  /** Bookkeeping of the proof: attachment order, what waiters have seen, token accounts. */
  datatype Book = Book(rank: map<nat, nat>, seen: map<Node, set<nat>>, given: map<nat, int>, taken: map<nat, int>)

  /** Everything that holds between kernel entries, but for waiters of the objects in `ex`. */
  ghost predicate Whole(k: Snap, w: World, b: Book, t: Tally, ex: set<Obj>) {
    && Rest(k, w, b.rank, b.seen, ex) && Balanced(w.sems, b.given, b.taken)
    && Ledger(k, w, t, ex) && k.events.Keys <= b.rank.Keys
  }

  /** Asks for a fact that is stated as `forall n :: Look(n) ==> …`. */
  predicate Look(n: nat) { true }

  /** The whole invariant, out of the prover's sight until a proof says Look. */
  ghost predicate Kept(k: Snap, w: World, b: Book, t: Tally, ex: set<Obj>) {
    forall n {:trigger Look(n)} :: Look(n) ==> Whole(k, w, b, t, ex)
  }

  // ----- waking up at rest -----

  lemma WakeRests(a: Snap, b: Snap, w: World, rank: map<nat, nat>, seen: map<Node, set<nat>>, ex: set<Obj>)
    requires Rest(a, w, rank, seen, ex) && Sound(b, rank, seen, {}) && Effects(a, b)
    ensures Rest(b, w, rank, seen, ex)
  {
    WakeKeepsCalm(a, b, w, ex);
    forall s | s in b.subs
      ensures Known(b, w, b.subs[s].wait) && ListedBack(b.subs, b.events, s)
    {
      assert Known(a, w, a.subs[s].wait) && ListedBack(a.subs, a.events, s);
    }
    forall e | e in b.events
      ensures Lists(b.subs, b.events, e)
    {
      assert Lists(a.subs, a.events, e);
    }
  }

  /** Once nobody waits for it, a ready object need not be exempt; nor one that is not ready. */
  lemma ExemptDone(k: Snap, w: World, rank: map<nat, nat>, seen: map<Node, set<nat>>, ex: set<Obj>, obj: Obj)
    requires Rest(k, w, rank, seen, ex + {obj}) && (ReadyNow(k.threads, w, obj) ==> Q(k.queues, WaitQ(obj)) == [])
    ensures Rest(k, w, rank, seen, ex)
  {
    forall o | o !in ex
      ensures Calm(k.threads, k.queues, w, o)
    {
      assert o != obj ==> Calm(k.threads, k.queues, w, o);
    }
  }

  // ----- processes and their threads -----

  ghost predicate MembersOf(threads: map<nat, Thread>, procs: map<nat, Proc>, p: nat)
    requires p in procs
  {
    && NoDup(procs[p].threads)
    && forall t :: t in procs[p].threads <==> t in threads && threads[t].process == Some(p)
  }

  /** The thread list of a process holds its live threads; a process with threads has its tables. */
  ghost predicate Manned(threads: map<nat, Thread>, procs: map<nat, Proc>) {
    && (forall p {:trigger MembersOf(threads, procs, p)} :: p in procs ==> MembersOf(threads, procs, p))
    && (forall p {:trigger Equipped(procs, p)} :: p in procs ==> Equipped(procs, p))
    && (forall t {:trigger Housed(threads, procs, t)} :: t in threads ==> Housed(threads, procs, t))
  }

  predicate Equipped(procs: map<nat, Proc>, p: nat)
    requires p in procs
  {
    procs[p].threads != [] ==> procs[p].paged && procs[p].handled
  }

  predicate Housed(threads: map<nat, Thread>, procs: map<nat, Proc>, t: nat)
    requires t in threads
  {
    threads[t].process.Some? ==> threads[t].process.value in procs
  }

  /** Sub-events that refer to the object. */
  ghost function Watchers(subs: map<nat, Sub>, o: Obj): set<nat> { set s | s in subs && subs[s].wait == o }

  function One(b: bool): nat { if b then 1 else 0 }

  /** An entry of the handle table of a process. */
  datatype Handle = Handle(pid: nat, slot: nat)

  /** Reference counts, handle tables, references held by kernel code, and what has been ended or freed. */
  datatype Tally = Tally(refs: map<Obj, nat>, handles: map<Handle, Obj>, held: map<Obj, nat>, log: Log)

  /** Handles that refer to the object. */
  ghost function Uses(handles: map<Handle, Obj>, o: Obj): set<Handle> { set h | h in handles && handles[h] == o }

  /** References that keep an object alive from inside: a live thread has one to itself and one to its process. */
  function Life(threads: map<nat, Thread>, procs: map<nat, Proc>, o: Obj): nat {
    match o
    case ThreadObj(t) => One(t in threads && threads[t].process.Some?)
    case ProcObj(p) => if p in procs then |procs[p].threads| else 0
    case _ => 0
  }

  ghost function References(k: Snap, w: World, t: Tally, o: Obj): nat
    requires o in t.held
  {
    t.held[o] + |Watchers(k.subs, o)| + |Uses(t.handles, o)| + Life(k.threads, w.procs, o)
  }

  /** The reference count of an object is the number of references there are. */
  ghost predicate CountOk(k: Snap, w: World, t: Tally, o: Obj) {
    && (o in t.refs <==> Known(k, w, o))
    && (o in t.refs ==> o in t.held && t.refs[o] == References(k, w, t, o))
  }

  ghost predicate Counted(k: Snap, w: World, t: Tally) {
    forall o {:trigger CountOk(k, w, t, o)} :: CountOk(k, w, t, o)
  }

  /** Handles belong to processes that have a handle table. */
  ghost predicate HandlesOk(procs: map<nat, Proc>, t: Tally) {
    forall h {:trigger HandleOk(procs, t, h)} :: h in t.handles ==> HandleOk(procs, t, h)
  }

  predicate HandleOk(procs: map<nat, Proc>, t: Tally, h: Handle)
    requires h in t.handles
  {
    h.pid in procs && procs[h.pid].handled && t.handles[h] in t.refs
  }

  /** Objects that are destroyed while others may still wait for them. */
  predicate Passive(o: Obj) { o.SemObj? || o.EventObj? || o.DevObj? }

  /** No thread hangs in the queue of an object that has been destroyed. */
  ghost predicate Tended(place: map<Node, Queue>, refs: map<Obj, nat>, ex: set<Obj>) {
    forall u {:trigger Tends(place, refs, ex, u)} :: Tends(place, refs, ex, u)
  }

  predicate Tends(place: map<Node, Queue>, refs: map<Obj, nat>, ex: set<Obj>, u: nat) {
    T(u) in place && place[T(u)].WaitQ? && Passive(place[T(u)].obj) && place[T(u)].obj !in ex ==>
      place[T(u)].obj in refs && refs[place[T(u)].obj] > 0
  }

  /** How often each thread was ended, and each process's tables were freed. */
  datatype Log = Log(ended: map<nat, nat>, tables: map<nat, nat>, handles: map<nat, nat>)

  /** Ended exactly once if dead, never if alive; the tables likewise. */
  ghost predicate Once(threads: map<nat, Thread>, procs: map<nat, Proc>, log: Log) {
    && (forall t {:trigger EndedOnce(threads, log, t)} :: t in threads ==> EndedOnce(threads, log, t))
    && (forall p {:trigger FreedOnce(procs, log, p)} :: p in procs ==> FreedOnce(procs, log, p))
  }

  predicate EndedOnce(threads: map<nat, Thread>, log: Log, t: nat)
    requires t in threads
  {
    t in log.ended && log.ended[t] == One(threads[t].process.None?)
  }

  predicate FreedOnce(procs: map<nat, Proc>, log: Log, p: nat)
    requires p in procs
  {
    && p in log.tables && log.tables[p] == One(!procs[p].paged)
    && p in log.handles && log.handles[p] == One(!procs[p].handled)
  }

  ghost predicate Ledger(k: Snap, w: World, t: Tally, ex: set<Obj>) {
    && Manned(k.threads, w.procs) && Counted(k, w, t) && Once(k.threads, w.procs, t.log)
    && HandlesOk(w.procs, t) && Tended(k.place, t.refs, ex)
  }

  /** Same threads in the same processes, same sub-events of the same objects. */
  ghost predicate Kin(a: Snap, b: Snap) {
    && b.threads.Keys == a.threads.Keys && b.subs.Keys == a.subs.Keys && b.events.Keys == a.events.Keys
    && (forall t {:trigger KinThread(a, b, t)} :: t in a.threads ==> KinThread(a, b, t))
    && (forall s {:trigger KinSub(a, b, s)} :: s in a.subs ==> KinSub(a, b, s))
  }

  predicate KinThread(a: Snap, b: Snap, t: nat) {
    t in a.threads && t in b.threads && b.threads[t].process == a.threads[t].process
  }

  predicate KinSub(a: Snap, b: Snap, s: nat) { s in a.subs && s in b.subs && b.subs[s].wait == a.subs[s].wait }

  lemma KinKeepsLedger(a: Snap, b: Snap, w: World, t: Tally, ex: set<Obj>)
    requires Ledger(a, w, t, ex) && Kin(a, b) && Tended(b.place, t.refs, ex)
    ensures Ledger(b, w, t, ex)
  {
    assert forall u :: u in a.threads ==> KinThread(a, b, u);
    forall u | u in b.threads
      ensures Housed(b.threads, w.procs, u) && EndedOnce(b.threads, t.log, u)
    {
      assert Housed(a.threads, w.procs, u) && EndedOnce(a.threads, t.log, u);
    }
    forall p | p in w.procs
      ensures MembersOf(b.threads, w.procs, p)
    {
      assert MembersOf(a.threads, w.procs, p);
    }
    forall o
      ensures CountOk(b, w, t, o)
    {
      assert CountOk(a, w, t, o);
      assert forall s :: s in a.subs ==> KinSub(a, b, s);
      assert Watchers(b.subs, o) == Watchers(a.subs, o);
    }
  }

  lemma WakeKeepsLedger(a: Snap, b: Snap, w: World, t: Tally, ex: set<Obj>)
    requires Ledger(a, w, t, ex) && Effects(a, b)
    ensures Ledger(b, w, t, ex)
  {
    forall u | u in a.threads
      ensures KinThread(a, b, u)
    {
      assert Woken(a.threads[u], b.threads[u]);
    }
    forall s | s in a.subs
      ensures KinSub(a, b, s)
    {
      assert b.subs[s] == a.subs[s] || b.subs[s] == a.subs[s].(blocked := false);
    }
    forall u
      ensures Tends(b.place, t.refs, ex, u)
    {
      assert Tends(a.place, t.refs, ex, u);
    }
    KinKeepsLedger(a, b, w, t, ex);
  }

  lemma WakeKeeps(a: Snap, b: Snap, w: World, bk: Book, t: Tally, ex: set<Obj>)
    requires Kept(a, w, bk, t, ex) && Sound(b, bk.rank, bk.seen, {}) && Effects(a, b)
    ensures Kept(b, w, bk, t, ex)
  {
    assert Look(0);
    WakeRests(a, b, w, bk.rank, bk.seen, ex);
    WakeKeepsLedger(a, b, w, t, ex);
  }

  /** Values of semaphores and devices do not matter to the accounts. */
  lemma WorldKeepsLedger(k: Snap, w: World, w': World, t: Tally, ex: set<Obj>)
    requires Ledger(k, w, t, ex) && w'.procs == w.procs && w'.sems.Keys == w.sems.Keys && w'.devs.Keys == w.devs.Keys
    ensures Ledger(k, w', t, ex)
  {
    forall o
      ensures CountOk(k, w', t, o)
    {
      assert CountOk(k, w, t, o);
    }
  }

  /** Waiting changes who is blocked and what eax holds, nothing else. */
  lemma WaitIsKin(a: Snap, b: Snap, c: Snap, d: Snap, t: nat)
    requires t in a.threads && t in d.threads && d.threads == a.threads[t := d.threads[t]]
    requires d.threads[t].process == a.threads[t].process
    requires b.subs == a.subs && b.events == a.events && Asked(b, c) && d.subs == c.subs && d.events == c.events
    ensures Kin(a, d)
  {
    forall s | s in a.subs
      ensures KinSub(a, d, s)
    {
      assert AskedSub(b, c, s);
    }
    assert forall u :: u in a.threads ==> KinThread(a, d, u);
  }

  /** Threads other than t are where they were. */
  ghost predicate OthersStay(a: Snap, b: Snap, t: nat) {
    forall u {:trigger Stays(a, b, u)} :: u != t ==> Stays(a, b, u)
  }

  predicate Stays(a: Snap, b: Snap, u: nat) { T(u) in b.place ==> T(u) in a.place && b.place[T(u)] == a.place[T(u)] }

  lemma WaitMovesOne(a: Snap, b: Snap, c: Snap, d: Snap, t: nat)
    requires b.place == a.place && Asked(b, c) && forall n ::
               n != T(t) && n in d.place ==> n in c.place && d.place[n] == c.place[n]
    ensures OthersStay(a, d, t)
  {
    forall u | u != t
      ensures Stays(a, d, u)
    {
      assert AskedNode(b, c, T(u));
    }
  }

  /** What waiting did to the threads: eax was cleared (a to b), the object was asked (b to c), and then either eax
      was set or the thread went to sleep. */
  ghost predicate RunsOrSleeps(c: Snap, d: Snap, t: nat, obj: Obj) {
    && t in c.threads && t in d.threads && d.subs == c.subs && d.events == c.events
    && (|| d == c.(threads := c.threads[t := c.threads[t].(eax := d.threads[t].eax)])
        || (T(t) in c.place && d == WithThreadBlocked(c, t, obj)))
  }

  lemma WaitEffect(a: Snap, b: Snap, c: Snap, d: Snap, t: nat, obj: Obj)
    requires t in a.threads && b == a.(threads := a.threads[t := a.threads[t].(eax := 0)])
    requires Asked(b, c) && c.threads == b.threads && RunsOrSleeps(c, d, t, obj)
    ensures Kin(a, d) && OthersStay(a, d, t)
  {
    assert d.threads == a.threads[t := d.threads[t]];
    WaitIsKin(a, b, c, d, t);
    WaitMovesOne(a, b, c, d, t);
  }

  /** Waiting for an object that exists. */
  lemma WaitTended(a: Snap, d: Snap, refs: map<Obj, nat>, t: nat, obj: Obj)
    requires Tended(a.place, refs, {}) && OthersStay(a, d, t) && obj in refs && refs[obj] > 0
    requires T(t) in d.place && d.place[T(t)].WaitQ? ==> d.place[T(t)].obj == obj
    ensures Tended(d.place, refs, {})
  {
    forall u
      ensures Tends(d.place, refs, {}, u)
    {
      assert Tends(a.place, refs, {}, u);
      assert u != t ==> Stays(a, d, u);
    }
  }

  lemma WaitLedger(a: Snap, d: Snap, w: World, w': World, t: Tally, u: nat, obj: Obj)
    requires Ledger(a, w, t, {}) && Kin(a, d) && OthersStay(a, d, u) && obj in t.refs && t.refs[obj] > 0
    requires T(u) in d.place && d.place[T(u)].WaitQ? ==> d.place[T(u)].obj == obj
    requires w'.procs == w.procs && w'.sems.Keys == w.sems.Keys && w'.devs.Keys == w.devs.Keys
    ensures Ledger(d, w', t, {})
  {
    WaitTended(a, d, t.refs, u, obj);
    KinKeepsLedger(a, d, w, t, {});
    WorldKeepsLedger(d, w, w', t, {});
  }

  lemma StatusLedger(k: Snap, w: World, t: Tally, e: nat, status: int)
    requires Ledger(k, w, t, {}) && e in k.events
    ensures Ledger(WithStatus(k, e, status), w, t, {})
  {
    var k' := WithStatus(k, e, status);
    assert forall u :: u in k.threads ==> KinThread(k, k', u);
    assert forall s :: s in k.subs ==> KinSub(k, k', s);
    KinKeepsLedger(k, k', w, t, {});
  }

  /** An exemption more does no harm. */
  lemma TendedLess(k: Snap, w: World, t: Tally, ex: set<Obj>)
    requires Ledger(k, w, t, {})
    ensures Ledger(k, w, t, ex)
  {
    forall u
      ensures Tends(k.place, t.refs, ex, u)
    {
      assert Tends(k.place, t.refs, {}, u);
    }
  }

  // ----- a thread ends -----

  function WithThreadEnded(k: Snap, t: nat, code: int): Snap
    requires t in k.threads && T(t) in k.place
  {
    k.(threads := k.threads[t := k.threads[t].(process := None, exitcode := code)],
       queues := Unqueued(k.queues, T(t), k.place[T(t)]), place := k.place - {T(t)})
  }

  function Dismissed(procs: map<nat, Proc>, p: nat, t: nat): map<nat, Proc>
    requires p in procs
  {
    procs[p := procs[p].(threads := Without(procs[p].threads, t))]
  }

  lemma EndedSound(k: Snap, rank: map<nat, nat>, seen: map<Node, set<nat>>, t: nat, code: int)
    requires Sound(k, rank, seen, {}) && t in k.threads && k.threads[t].process.Some?
    ensures T(t) in k.place && Sound(WithThreadEnded(k, t, code), rank, seen, {})
  {
    assert ThreadOk(k.threads, k.place, t);
    var k' := WithThreadEnded(k, t, code);
    UnqueueKeeps(k.queues, k.place, T(t));
    forall u | u in k'.threads
      ensures ThreadOk(k'.threads, k'.place, u)
    {
      assert ThreadOk(k.threads, k.place, u);
    }
    forall u | u in k'.subs
      ensures SubOk(k'.subs, k'.events, rank, k'.place, u)
    {
      assert SubOk(k.subs, k.events, rank, k.place, u);
    }
    forall n | n in k'.place
      ensures ReadyAt(k'.subs, k'.events, k'.place, seen, {}, n)
    {
      assert ReadyAt(k.subs, k.events, k.place, seen, {}, n);
    }
  }

  lemma EndedRests(k: Snap, w: World, rank: map<nat, nat>, seen: map<Node, set<nat>>, t: nat, code: int)
    requires Rest(k, w, rank, seen, {}) && t in k.threads && k.threads[t].process.Some?
             && k.threads[t].process.value in w.procs
    ensures T(t) in k.place
    ensures var p := k.threads[t].process.value;
            Rest(WithThreadEnded(k, t, code), w.(procs := Dismissed(w.procs, p, t)), rank, seen,
                {ThreadObj(t), ProcObj(p)})
  {
    EndedSound(k, rank, seen, t, code);
    var p := k.threads[t].process.value;
    var k', w' := WithThreadEnded(k, t, code), w.(procs := Dismissed(w.procs, p, t));
    forall o | o !in {ThreadObj(t), ProcObj(p)}
      ensures Calm(k'.threads, k'.queues, w', o)
    {
      assert Calm(k.threads, k.queues, w, o);
    }
    forall s | s in k'.subs
      ensures Known(k', w', k'.subs[s].wait)
    {
      assert Known(k, w, k.subs[s].wait);
    }
  }

  /** The references of the dead thread, to itself and to its process, pass to the code that ends it. */
  function Inherited(held: map<Obj, nat>, t: nat, p: nat): map<Obj, nat>
    requires ThreadObj(t) in held && ProcObj(p) in held
  {
    held[ThreadObj(t) := held[ThreadObj(t)] + 1][ProcObj(p) := held[ProcObj(p)] + 1]
  }

  lemma EndedManned(threads: map<nat, Thread>, procs: map<nat, Proc>, t: nat, code: int)
    requires Manned(threads, procs) && t in threads && threads[t].process.Some?
    ensures var p := threads[t].process.value;
            && p in procs && t in procs[p].threads && |Dismissed(procs, p, t)[p].threads| == |procs[p].threads| - 1
            && Manned(threads[t := threads[t].(process := None, exitcode := code)], Dismissed(procs, p, t))
  {
    var p := threads[t].process.value;
    assert Housed(threads, procs, t);
    var threads', procs' := threads[t := threads[t].(process := None, exitcode := code)], Dismissed(procs, p, t);
    assert MembersOf(threads, procs, p);
    WithoutMembers(procs[p].threads, t);
    WithoutOne(procs[p].threads, t);
    forall q | q in procs'
      ensures MembersOf(threads', procs', q) && Equipped(procs', q)
    {
      assert MembersOf(threads, procs, q) && Equipped(procs, q);
    }
    forall u | u in threads'
      ensures Housed(threads', procs', u)
    {
      assert Housed(threads, procs, u);
    }
  }

  function EndedTally(t: Tally, u: nat, p: nat): Tally
    requires ThreadObj(u) in t.held && ProcObj(p) in t.held && u in t.log.ended
  {
    t.(held := Inherited(t.held, u, p), log := t.log.(ended := t.log.ended[u := t.log.ended[u] + 1]))
  }

  lemma EndedCounts(k: Snap, w: World, t: Tally, u: nat, code: int)
    requires Ledger(k, w, t, {}) && u in k.threads && k.threads[u].process.Some? && T(u) in k.place
    ensures var p := k.threads[u].process.value;
            p in w.procs && u in w.procs[p].threads && ThreadObj(u) in t.held && ProcObj(p) in t.held
                && u in t.log.ended
    ensures var p := k.threads[u].process.value;
            Counted(WithThreadEnded(k, u, code), w.(procs := Dismissed(w.procs, p, u)), EndedTally(t, u, p))
  {
    var p := k.threads[u].process.value;
    EndedManned(k.threads, w.procs, u, code);
    assert CountOk(k, w, t, ThreadObj(u)) && CountOk(k, w, t, ProcObj(p)) && EndedOnce(k.threads, t.log, u);
    var k', w', t' := WithThreadEnded(k, u, code), w.(procs := Dismissed(w.procs, p, u)), EndedTally(t, u, p);
    forall o
      ensures CountOk(k', w', t', o)
    {
      assert CountOk(k, w, t, o);
    }
  }

  lemma EndedLedger(k: Snap, w: World, t: Tally, u: nat, code: int)
    requires Ledger(k, w, t, {}) && u in k.threads && k.threads[u].process.Some? && T(u) in k.place
    ensures var p := k.threads[u].process.value;
            p in w.procs && u in w.procs[p].threads && ThreadObj(u) in t.held && ProcObj(p) in t.held
                && u in t.log.ended
    ensures var p := k.threads[u].process.value;
            Ledger(WithThreadEnded(k, u, code), w.(procs := Dismissed(w.procs, p, u)), EndedTally(t, u, p),
                {ThreadObj(u), ProcObj(p)})
  {
    var p := k.threads[u].process.value;
    EndedCounts(k, w, t, u, code);
    EndedManned(k.threads, w.procs, u, code);
    var k', w', t' := WithThreadEnded(k, u, code), w.(procs := Dismissed(w.procs, p, u)), EndedTally(t, u, p);
    forall x | x in k'.threads
      ensures EndedOnce(k'.threads, t'.log, x)
    {
      assert EndedOnce(k.threads, t.log, x);
    }
    forall q | q in w'.procs
      ensures FreedOnce(w'.procs, t'.log, q)
    {
      assert FreedOnce(w.procs, t.log, q);
    }
    forall h | h in t'.handles
      ensures HandleOk(w'.procs, t', h)
    {
      assert HandleOk(w.procs, t, h);
    }
    forall x
      ensures Tends(k'.place, t'.refs, {ThreadObj(u), ProcObj(p)}, x)
    {
      assert Tends(k.place, t.refs, {}, x);
    }
  }

  // ----- what becomes of everybody when threads end -----

  /** Victims are dead with the exit code.  Anyone else is at most woken: if they waited for an object that
      is no event, then exactly if the object is in `told`, with the result it gives. */
  ghost predicate FateOf(a: Snap, b: Snap, victims: set<nat>, told: map<Obj, int>, code: int, u: nat) {
    && u in a.threads && u in b.threads
    && if u in victims then b.threads[u].process.None? && b.threads[u].exitcode == code
       else
         && Woken(a.threads[u], b.threads[u])
         && (T(u) in a.place && a.place[T(u)].WaitQ? && !a.place[T(u)].obj.EventObj? ==>
               if a.place[T(u)].obj in told then
                 b.threads[u] == a.threads[u].(blocked := false, eax := told[a.place[T(u)].obj])
               else
                 b.threads[u] == a.threads[u] && T(u) in b.place && b.place[T(u)] == a.place[T(u)])
  }

  ghost predicate Fates(a: Snap, b: Snap, victims: set<nat>, told: map<Obj, int>, code: int) {
    && b.threads.Keys == a.threads.Keys
    && forall u {:trigger FateOf(a, b, victims, told, code, u)} ::
       u in a.threads ==> FateOf(a, b, victims, told, code, u)
  }

  /** Who was told first keeps the result of that. */
  lemma FatesTrans(a: Snap, b: Snap, c: Snap, v1: set<nat>, v2: set<nat>, t1: map<Obj, int>, t2: map<Obj, int>,
                   code: int)
    requires Fates(a, b, v1, t1, code) && Fates(b, c, v2, t2, code)
    ensures Fates(a, c, v1 + v2, t2 + t1, code)
  {
    forall u | u in a.threads
      ensures FateOf(a, c, v1 + v2, t2 + t1, code, u)
    {
      assert FateOf(a, b, v1, t1, code, u) && FateOf(b, c, v2, t2, code, u);
    }
  }

  /** Without victims the exit code is of no account. */
  lemma FatesCode(a: Snap, b: Snap, told: map<Obj, int>, code: int, code': int)
    requires Fates(a, b, {}, told, code)
    ensures Fates(a, b, {}, told, code')
  {
    forall u | u in a.threads
      ensures FateOf(a, b, {}, told, code', u)
    {
      assert FateOf(a, b, {}, told, code, u);
    }
  }

  lemma EndedFates(k: Snap, t: nat, code: int)
    requires t in k.threads && T(t) in k.place
    ensures Fates(k, WithThreadEnded(k, t, code), {t}, map[], code)
  {
    var k' := WithThreadEnded(k, t, code);
    assert forall u :: u in k.threads ==> FateOf(k, k', {t}, map[], code, u);
  }

  /** What waking a whole queue tells: the waiters of an event get what their identifiers say instead. */
  function Notice(obj: Obj, code: int): map<Obj, int> { if obj.EventObj? then map[] else map[obj := code] }

  lemma RousedFates(a: Snap, b: Snap, rank: map<nat, nat>, seen: map<Node, set<nat>>, obj: Obj, code: int)
    requires Sound(a, rank, seen, {}) && Sound(b, rank, seen, {}) && Roused(a, b, rank, WaitQ(obj), true, code)
    ensures Fates(a, b, {}, Notice(obj, code), code)
  {
    forall u | u in a.threads
      ensures FateOf(a, b, {}, Notice(obj, code), code, u)
    {
      assert Woken(a.threads[u], b.threads[u]);
      if T(u) in a.place && a.place[T(u)].WaitQ? && !a.place[T(u)].obj.EventObj? {
        var q := a.place[T(u)];
        assert QueueOk(a.queues, a.place, q) && QueueOk(b.queues, b.place, q);
        assert ThreadOk(a.threads, a.place, u) && ThreadOk(b.threads, b.place, u);
        if q == WaitQ(obj) {
          assert WokenNode(a, b, T(u), code);
        } else {
          assert Q(b.queues, q) == Q(a.queues, q);
          assert T(u) in Q(b.queues, q);
        }
      }
    }
  }

  /** Live threads: what bounds the recursion between thread and process shutdown. */
  ghost function Alive(threads: map<nat, Thread>): set<nat> { set t | t in threads && threads[t].process.Some? }

  lemma FewerAlive(a: map<nat, Thread>, b: map<nat, Thread>, t: nat)
    requires b.Keys == a.Keys && t in a && a[t].process.Some? && b[t].process.None?
    requires forall u :: u in b && b[u].process.Some? ==> a[u].process.Some?
    ensures |Alive(b)| < |Alive(a)|
  {
    assert t in Alive(a);
    forall u | u in Alive(b)
      ensures u in Alive(a) - {t}
    {
      assert u in b;
    }
    SubsetSize(Alive(b), Alive(a) - {t});
  }

  lemma FatesAlive(a: Snap, b: Snap, victims: set<nat>, told: map<Obj, int>, code: int)
    requires Fates(a, b, victims, told, code)
    ensures |Alive(b.threads)| <= |Alive(a.threads)|
  {
    forall u | u in Alive(b.threads)
      ensures u in Alive(a.threads)
    {
      assert FateOf(a, b, victims, told, code, u);
    }
    SubsetSize(Alive(b.threads), Alive(a.threads));
  }

  /** A thread ends, then its waiters are told. */
  lemma EndedAndTold(a: Snap, b: Snap, c: Snap, t: nat, code: int)
    requires Fates(a, b, {t}, map[], code) && Fates(b, c, {}, map[ThreadObj(t) := code], code) && t in a.threads
    ensures Fates(a, c, {t}, map[ThreadObj(t) := code], code) && t in c.threads
            && |Alive(c.threads)| <= |Alive(b.threads)|
  {
    var nobody: set<nat>, none: map<Obj, int>, told := {}, map[], map[ThreadObj(t) := code];
    FatesAlive(b, c, nobody, told, code);
    FatesTrans(a, b, c, {t}, nobody, none, told, code);
    assert {t} + nobody == {t} && told + none == told;
  }

  // ----- references -----

  /** Kernel code gives one reference back; nobody looks at the object until it is destroyed, if that was the last. */
  lemma ReleaseLedger(k: Snap, w: World, t: Tally, o: Obj)
    requires Ledger(k, w, t, {}) && o in t.refs && o in t.held && t.held[o] > 0
    ensures t.refs[o] > 0
    ensures var t' := t.(refs := t.refs[o := t.refs[o] - 1], held := t.held[o := t.held[o] - 1]);
            Ledger(k, w, t', {o}) && (t'.refs[o] > 0 || !Passive(o) ==> Ledger(k, w, t', {}))
  {
    assert CountOk(k, w, t, o);
    var t' := t.(refs := t.refs[o := t.refs[o] - 1], held := t.held[o := t.held[o] - 1]);
    forall x
      ensures CountOk(k, w, t', x)
    {
      assert CountOk(k, w, t, x);
    }
    forall h | h in t'.handles
      ensures HandleOk(w.procs, t', h)
    {
      assert HandleOk(w.procs, t, h);
    }
    forall u
      ensures Tends(k.place, t'.refs, {o}, u)
      ensures t'.refs[o] > 0 || !Passive(o) ==> Tends(k.place, t'.refs, {}, u)
    {
      assert Tends(k.place, t.refs, {}, u);
    }
  }

  lemma AddRefLedger(k: Snap, w: World, t: Tally, o: Obj, ex: set<Obj>)
    requires Ledger(k, w, t, ex) && o in t.refs && o in t.held
    ensures Ledger(k, w, t.(refs := t.refs[o := t.refs[o] + 1], held := t.held[o := t.held[o] + 1]), ex)
  {
    var t' := t.(refs := t.refs[o := t.refs[o] + 1], held := t.held[o := t.held[o] + 1]);
    forall x
      ensures CountOk(k, w, t', x)
    {
      assert CountOk(k, w, t, x);
    }
    forall h | h in t'.handles
      ensures HandleOk(w.procs, t', h)
    {
      assert HandleOk(w.procs, t, h);
    }
    forall u
      ensures Tends(k.place, t'.refs, ex, u)
    {
      assert Tends(k.place, t.refs, ex, u);
    }
  }

  /** Once nobody waits for a destroyed object, it need not be exempt. */
  lemma TendedAgain(k: Snap, w: World, t: Tally, ex: set<Obj>, o: Obj)
    requires Ledger(k, w, t, ex + {o}) && Placed(k.queues, k.place)
    requires Q(k.queues, WaitQ(o)) == [] || !Passive(o) || (o in t.refs && t.refs[o] > 0)
    ensures Ledger(k, w, t, ex)
  {
    assert QueueOk(k.queues, k.place, WaitQ(o));
    forall u
      ensures Tends(k.place, t.refs, ex, u)
    {
      assert Tends(k.place, t.refs, ex + {o}, u);
    }
  }

  /** Exit code and tables of a process do not matter to anyone who waits. */
  lemma ProcTouched(k: Snap, w: World, rank: map<nat, nat>, seen: map<Node, set<nat>>, ex: set<Obj>, p: nat, r: Proc)
    requires Rest(k, w, rank, seen, ex) && p in w.procs && r.threads == w.procs[p].threads
    ensures Rest(k, w.(procs := w.procs[p := r]), rank, seen, ex)
  {
    var w' := w.(procs := w.procs[p := r]);
    forall o | o !in ex
      ensures Calm(k.threads, k.queues, w', o)
    {
      assert Calm(k.threads, k.queues, w, o);
    }
    forall s | s in k.subs
      ensures Known(k, w', k.subs[s].wait)
    {
      assert Known(k, w, k.subs[s].wait);
    }
  }

  function Bumped(m: map<nat, nat>, p: nat, b: bool): map<nat, nat>
    requires p in m
  {
    m[p := m[p] + One(b)]
  }

  function TouchedLog(log: Log, p: nat, q: Proc, r: Proc): Log
    requires p in log.tables && p in log.handles
  {
    log.(tables := Bumped(log.tables, p, q.paged && !r.paged), handles := Bumped(log.handles, p, q.handled
        && !r.handled))
  }

  /** Exit code and tables of a process change; a handle table goes when it is empty.  Each goes at most once. */
  lemma TouchedLedger(k: Snap, w: World, t: Tally, ex: set<Obj>, p: nat, r: Proc)
    requires Ledger(k, w, t, ex) && p in w.procs && r.threads == w.procs[p].threads
    requires (r.threads != [] ==> r.paged && r.handled) && (r.paged ==> w.procs[p].paged)
             && (r.handled ==> w.procs[p].handled)
    requires r.handled == w.procs[p].handled || forall h :: h in t.handles ==> h.pid != p
    ensures p in t.log.tables && p in t.log.handles
    ensures Ledger(k, w.(procs := w.procs[p := r]), t.(log := TouchedLog(t.log, p, w.procs[p], r)), ex)
  {
    assert FreedOnce(w.procs, t.log, p);
    var procs', t' := w.procs[p := r], t.(log := TouchedLog(t.log, p, w.procs[p], r));
    forall q | q in procs'
      ensures MembersOf(k.threads, procs', q) && Equipped(procs', q) && FreedOnce(procs', t'.log, q)
    {
      assert MembersOf(k.threads, w.procs, q) && Equipped(w.procs, q) && FreedOnce(w.procs, t.log, q);
    }
    forall u | u in k.threads
      ensures Housed(k.threads, procs', u) && EndedOnce(k.threads, t'.log, u)
    {
      assert Housed(k.threads, w.procs, u) && EndedOnce(k.threads, t.log, u);
    }
    forall h | h in t'.handles
      ensures HandleOk(procs', t', h)
    {
      assert HandleOk(w.procs, t, h);
    }
    forall o
      ensures CountOk(k, w.(procs := procs'), t', o)
    {
      assert CountOk(k, w, t, o);
    }
  }

  /** Everything that ending a thread keeps. */
  lemma EndedAll(k: Snap, w: World, rank: map<nat, nat>, seen: map<Node, set<nat>>, t: Tally, u: nat, code: int)
    requires Rest(k, w, rank, seen, {}) && u in k.threads && k.threads[u].process.Some? && Ledger(k, w, t, {})
    ensures T(u) in k.place
    ensures var p := k.threads[u].process.value;
            p in w.procs && u in w.procs[p].threads && ThreadObj(u) in t.held && ProcObj(p) in t.held
                && u in t.log.ended
    ensures var p, k' := k.threads[u].process.value, WithThreadEnded(k, u, code);
            && Rest(k', w.(procs := Dismissed(w.procs, p, u)), rank, seen, {ThreadObj(u), ProcObj(p)})
            && Ledger(k', w.(procs := Dismissed(w.procs, p, u)), EndedTally(t, u, p), {ThreadObj(u), ProcObj(p)})
            && Fates(k, k', {u}, map[], code) && |Alive(k'.threads)| < |Alive(k.threads)|
  {
    assert ThreadOk(k.threads, k.place, u);
    EndedLedger(k, w, t, u, code);
    EndedRests(k, w, rank, seen, u, code);
    EndedFates(k, u, code);
    FewerAlive(k.threads, WithThreadEnded(k, u, code).threads, u);
  }

  lemma EndedKeeps(k: Snap, w: World, b: Book, t: Tally, u: nat, code: int)
    requires Kept(k, w, b, t, {}) && u in k.threads && k.threads[u].process.Some?
    ensures Placed(k.queues, k.place) && T(u) in k.place
    ensures var p := k.threads[u].process.value;
            p in w.procs && u in w.procs[p].threads && ThreadObj(u) in t.held && ProcObj(p) in t.held
            && u in t.log.ended
    ensures var p, k' := k.threads[u].process.value, WithThreadEnded(k, u, code);
            && Kept(k', w.(procs := Dismissed(w.procs, p, u)), b, EndedTally(t, u, p), {ThreadObj(u), ProcObj(p)})
            && Fates(k, k', {u}, map[], code) && |Alive(k'.threads)| < |Alive(k.threads)|
  {
    assert Look(0);
    EndedAll(k, w, b.rank, b.seen, t, u, code);
  }

  ghost function Elems(list: seq<nat>): set<nat> { set t | t in list }

  lemma ExitLedger(k: Snap, w: World, t: Tally, ex: set<Obj>, p: nat, code: int)
    requires Ledger(k, w, t, ex) && p in w.procs
    ensures var o := ProcObj(p);
            && o in t.refs && o in t.held
            && Ledger(k, w.(procs := w.procs[p := w.procs[p].(exitcode := code)]),
                      t.(refs := t.refs[o := t.refs[o] + 1], held := t.held[o := t.held[o] + 1]), ex)
  {
    assert CountOk(k, w, t, ProcObj(p)) && Equipped(w.procs, p);
    var r := w.procs[p].(exitcode := code);
    TouchedLedger(k, w, t, ex, p, r);
    assert TouchedLog(t.log, p, w.procs[p], r) == t.log by {
      assert Bumped(t.log.tables, p, false) == t.log.tables && Bumped(t.log.handles, p, false) == t.log.handles;
    }
    AddRefLedger(k, w.(procs := w.procs[p := r]), t, ProcObj(p), ex);
  }

  lemma ExitKeeps(k: Snap, w: World, b: Book, t: Tally, ex: set<Obj>, p: nat, code: int)
    requires Kept(k, w, b, t, ex) && p in w.procs
    ensures ProcObj(p) in t.refs && ProcObj(p) in t.held
    ensures Kept(k, w.(procs := w.procs[p := w.procs[p].(exitcode := code)]), b,
                 t.(refs := t.refs[ProcObj(p) := t.refs[ProcObj(p)] + 1],
                     held := t.held[ProcObj(p) := t.held[ProcObj(p)] + 1]), ex)
  {
    assert Look(0);
    ProcTouched(k, w, b.rank, b.seen, ex, p, w.procs[p].(exitcode := code));
    ExitLedger(k, w, t, ex, p, code);
  }

  // ----- what the invariant says -----

  /** A thread of the killed process ended once, with the code; of the others, those who waited for the
      process or one of its threads go on with the code. */
  ghost predicate KilledThread(a: Snap, log: Log, b: Snap, log': Log, p: nat, was: seq<nat>, code: int, t: nat) {
    && t in a.threads && t in b.threads
    && if t in was then
         && a.threads[t].process == Some(p) && b.threads[t].process.None? && b.threads[t].exitcode == code
         && t in log.ended && log.ended[t] == 0 && t in log'.ended && log'.ended[t] == 1
       else
         && Woken(a.threads[t], b.threads[t])
         && (T(t) in a.place && (a.place[T(t)] == WaitQ(ProcObj(p)) || exists u ::
            u in was && a.place[T(t)] == WaitQ(ThreadObj(u))) ==>
               b.threads[t] == a.threads[t].(blocked := false, eax := code))
  }

  ghost predicate Killed(a: Snap, log: Log, b: Snap, log': Log, p: nat, was: seq<nat>, code: int) {
    forall t {:trigger KilledThread(a, log, b, log', p, was, code, t)} ::
        t in a.threads ==> KilledThread(a, log, b, log', p, was, code, t)
  }

  /** The listed threads are alive in process p and have not ended yet. */
  ghost predicate AliveIn(k: Snap, log: Log, p: nat, was: seq<nat>) {
    forall t {:trigger t in was} :: t in was ==>
      t in k.threads && k.threads[t].process == Some(p) && t in log.ended && log.ended[t] == 0
  }

  lemma KilledAll(a: Snap, log: Log, b: Snap, log': Log, p: nat, was: seq<nat>, code: int, told: map<Obj, int>)
    requires AliveIn(a, log, p, was) && Fates(a, b, Elems(was), told, code)
    requires forall t :: t in b.threads ==> EndedOnce(b.threads, log', t)
    requires ProcObj(p) in told && told[ProcObj(p)] == code
    requires forall u :: u in was ==> ThreadObj(u) in told && told[ThreadObj(u)] == code
    ensures Killed(a, log, b, log', p, was, code)
  {
    forall t | t in a.threads
      ensures KilledThread(a, log, b, log', p, was, code, t)
    {
      assert FateOf(a, b, Elems(was), told, code, t);
      assert EndedOnce(b.threads, log', t);
    }
  }

  /** The run list and the wait queues partition the live threads: a thread hangs in exactly one of them,
      once, and in the run list exactly if it is not blocked; a dead thread hangs nowhere. */
  lemma Partition(k: Snap, rank: map<nat, nat>, seen: map<Node, set<nat>>, ex: set<nat>, t: nat)
    requires Sound(k, rank, seen, ex) && t in k.threads
    ensures k.threads[t].process.None? ==> forall q :: T(t) !in Q(k.queues, q)
    ensures k.threads[t].process.Some? ==>
              exists q :: (q == RunQ <==> !k.threads[t].blocked) && OnlyIn(k.queues, T(t), q)
  {
    assert ThreadOk(k.threads, k.place, t);
    if k.threads[t].process.None? {
      forall q
        ensures T(t) !in Q(k.queues, q)
      {
        assert QueueOk(k.queues, k.place, q);
      }
    } else {
      HangsOnce(k.queues, k.place, T(t));
    }
  }

  ghost predicate OnlyIn(queues: map<Queue, seq<Node>>, n: Node, q: Queue) {
    && n in Q(queues, q) && NoDup(Q(queues, q))
    && forall r {:trigger Q(queues, r)} :: r != q ==> n !in Q(queues, r)
  }

  lemma HangsOnce(queues: map<Queue, seq<Node>>, place: map<Node, Queue>, n: Node)
    requires Placed(queues, place) && n in place
    ensures OnlyIn(queues, n, place[n])
  {
    assert QueueOk(queues, place, place[n]);
    forall r | r != place[n]
      ensures n !in Q(queues, r)
    {
      assert QueueOk(queues, place, r);
    }
  }

  /** No lost readiness: while a thread waits for a wake-all event, every sub-object attached when it began
      to wait (and not detached since) is waited for in that object's own queue. */
  lemma NoLostReadiness(k: Snap, rank: map<nat, nat>, seen: map<Node, set<nat>>, t: nat, e: nat, s: nat)
    requires Sound(k, rank, seen, {}) && T(t) in Q(k.queues, WaitQ(EventObj(e))) && e in k.events && k.events[e].wakeAll
    requires T(t) in seen && s in seen[T(t)] && s in k.subs && k.subs[s].event == e
    ensures k.subs[s].blocked && OnlyIn(k.queues, S(s), WaitQ(k.subs[s].wait))
  {
    assert QueueOk(k.queues, k.place, WaitQ(EventObj(e)));
    assert ReadyAt(k.subs, k.events, k.place, seen, {}, T(t)) && SubOk(k.subs, k.events, rank, k.place, s);
    HangsOnce(k.queues, k.place, S(s));
  }

  /** … and if that sub-object fires, the thread goes on with its identifier. */
  lemma FiringWakes(a: Snap, b: Snap, rank: map<nat, nat>, seen: map<Node, set<nat>>, t: nat, e: nat, s: nat,
                    result: int)
    requires Sound(a, rank, seen, {}) && T(t) in Q(a.queues, WaitQ(EventObj(e))) && e in a.events && a.events[e].wakeAll
    requires s in a.subs && a.subs[s].event == e && Fired(a, b, s, result)
    ensures t in a.threads && t in b.threads
    ensures b.threads[t] == a.threads[t].(blocked := false, eax := a.subs[s].ident) && b.events[e].status == result
  {
    assert WokenNode(a, b, T(t), a.subs[s].ident);
  }

  /** Nobody sleeps on a true condition: whoever hangs in the queue of a semaphore, thread or process, or of a device
      that is not late, waits for something that has not happened, and no token is lost or made up. */
  lemma NobodySleepsOnTrue(k: Snap, w: World, b: Book, t: Tally, obj: Obj, n: Node)
    requires Whole(k, w, b, t, {}) && n in Q(k.queues, WaitQ(obj))
    ensures match obj
            case ThreadObj(t) => t in k.threads && k.threads[t].process.Some?
            case ProcObj(p) => p in w.procs && w.procs[p].threads != []
            case SemObj(s) => s in w.sems && w.sems[s] == 0 && s in b.given && s in b.taken
                && (b.given[s] - b.taken[s]) % WORD == 0
            case DevObj(d) => d in w.devs && (w.devs[d].Some? <==> d in w.late)
            case EventObj(e) => e in k.events
  {
    assert Calm(k.threads, k.queues, w, obj);
    match obj
    case SemObj(s) => assert BalancedAt(w.sems, b.given, b.taken, s);
    case EventObj(e) =>
      assert QueueOk(k.queues, k.place, WaitQ(obj));
      assert ReadyAt(k.subs, k.events, k.place, b.seen, {}, n);
    case _ =>
  }
}
