/** thread.c, event.c, semaphore.c, process.c and the dispatch of object.h on one CPU: every method is one
    kernel entry, or a part of one. */
module KernelObjects {
  import opened Sequences
  import opened WaitQueues
  import opened Lifecycle
  import opened Attachments
  import opened Releases
  import opened KernelSteps

  class Kernel {
    var threads: map<nat, Thread>
    var subs: map<nat, Sub>
    var events: map<nat, Event>
    var queues: map<Queue, seq<Node>>   // threadList and all `waiters` lists, head first

    var procs: map<nat, Proc>
    var sems: map<nat, nat>
    var devs: map<nat, Option<int>>     // result a device would give now, if it is ready
    var refs: map<Obj, nat>             // reference counts; 0 for an object that has been destroyed
    var handles: map<Handle, Obj>       // the handle tables of all processes

    ghost var given: map<nat, int>      // initial value plus signals of each semaphore
    ghost var taken: map<nat, int>      // tokens handed out
    ghost var place: map<Node, Queue>
    ghost var seen: map<Node, set<nat>> // sub-events attached when a node began to wait for an event
    ghost var rank: map<nat, nat>       // attachment order of events
    ghost var late: set<nat>            // devices that became ready without waking all their waiters
    ghost var held: map<Obj, nat>       // references in variables of kernel code
    ghost var log: Log

    ghost function Now(): Snap reads this { Snap(threads, subs, events, queues, place) }

    ghost predicate Valid(ex: set<nat>)
      reads this
    {
      Sound(Now(), rank, seen, ex)
    }

    ghost function Outside(): World reads this { World(procs, sems, devs, late) }

    /** The part of the invariant that waiting depends on; out of the prover's sight until a proof says Look. */
    ghost predicate Steady()
      reads this
    {
      forall n {:trigger Look(n)} :: Look(n) ==> Rest(Now(), Outside(), rank, seen, {}) && Balanced(sems, given, taken)
    }

    // ----- waking up -----

    /** __threadSignal. */
    method SignalThread(t: nat, eax: int, ghost ex: set<nat>)
      requires Valid(ex) && t in threads
      modifies `threads, `queues, `place
      ensures Valid(ex)
      ensures if old(threads)[t].process.None? || !old(threads)[t].blocked then Now() == old(Now())
              else
                && T(t) in old(place) && Signalled(old(Now()), Now(), rank, T(t), eax)
                && Behind(old(queues), queues, T(t))
    {
      assert ThreadOk(threads, place, t);
      if threads[t].process.None? || !threads[t].blocked {
        return;
      }
      var q := InQueue(T(t));
      ThreadRuns(Now(), rank, seen, ex, t, eax);
      ThreadSignalled(Now(), rank, seen, ex, t, eax);
      threads := threads[t := threads[t].(blocked := false, eax := eax)];
      queues := Unqueued(queues, T(t), q);
      queues := queues[RunQ := Q(queues, RunQ) + [T(t)]];
      place := place[T(t) := RunQ];
    }

    /** The list a node is linked into; the source reads it off the node's own next and prev. */
    method InQueue(n: Node) returns (q: Queue)
      requires Placed(queues, place) && n in place
      ensures q == place[n]
    {
      assert QueueOk(queues, place, place[n]);
      q :| q in queues && n in queues[q];
      assert QueueOk(queues, place, q);
    }

    /** __subEventSignal: the event remembers the result and its waiters get the identifier. */
    method SignalSub(s: nat, result: int, ghost ex: set<nat>)
      requires Valid(ex) && s in subs
      modifies `threads, `subs, `events, `queues, `place
      ensures Valid(ex)
      ensures !old(subs)[s].blocked ==> Now() == old(Now())
      ensures old(subs)[s].blocked ==>
                && S(s) in old(place) && Signalled(old(Now()), Now(), rank, S(s), result)
                && Fired(old(Now()), Now(), s, result)
      decreases |Waiting(place)|, 0
    {
      assert SubOk(subs, events, rank, place, s);
      if !subs[s].blocked {
        return;
      }
      ghost var k := Now();
      var e := subs[s].event;
      var q := InQueue(S(s));
      SubFires(k, rank, seen, ex, s, result);
      subs := subs[s := subs[s].(blocked := false)];
      queues, place := Unqueued(queues, S(s), q), place - {S(s)};
      events := events[e := events[e].(status := result)];
      ghost var m := Now();
      WaitingLess(k.place, m.place, S(s));
      Wake(WaitQ(EventObj(e)), events[e].wakeAll, subs[s].ident, ex + {e});
      FiringDone(Now(), rank, seen, ex, e);
      SubSignalled(k, m, Now(), rank, seen, ex, s, result);
      FiredIs(k, m, Now(), rank, s, result);
    }

    /** queueWakeup: the deletion-safe walk over a wait queue. */
    method Wake(q: Queue, all: bool, eax: int, ghost ex: set<nat>)
      requires Valid(ex) && q != RunQ
      modifies `threads, `subs, `events, `queues, `place
      ensures Valid(ex) && Roused(old(Now()), Now(), rank, q, all, eax) && Lined(old(queues), queues, q, all)
      decreases |Waiting(place)|, 2
    {
      ghost var k := Now();
      ghost var i := 0;
      var cur := First(q);
      while cur.Some?
        invariant Waking(k, q, ex, i, eax) && cur == First(q) && (!all ==> i == 0)
        invariant Appended(Q(k.queues, RunQ), Q(queues, RunQ), Q(k.queues, q)[..i])
        decreases |Q(k.queues, q)| - i
      {
        var next := After(q);
        ghost var m := queues;
        WakeNext(k, q, cur.value, eax, ex, i);
        AppendedNext(Q(k.queues, RunQ), Q(m, RunQ), Q(queues, RunQ), Q(k.queues, q), i);
        i := i + 1;
        if !all {
          break;
        }
        cur := next;
      }
      assert Q(k.queues, q)[..i] == ToWake(Q(k.queues, q), all);
    }

    /** The first i nodes of the queue have been woken. */
    ghost predicate Waking(k: Snap, q: Queue, ex: set<nat>, i: nat, eax: int)
      reads this
    {
      && i <= |Q(k.queues, q)| && Valid(ex) && Q(queues, q) == Q(k.queues, q)[i..]
      && Effects(k, Now()) && QueuesFramed(k.queues, queues, rank, q)
      && EventsFramed(k.events, events, rank, Level(rank, q))
      && Waiting(place) <= Waiting(k.place) && AllWoken(k, Now(), Q(k.queues, q)[..i], eax)
    }

    method WakeNext(ghost k: Snap, ghost q: Queue, n: Node, eax: int, ghost ex: set<nat>, ghost i: nat)
      requires Waking(k, q, ex, i, eax) && q != RunQ && i < |Q(k.queues, q)| && n == Q(k.queues, q)[i]
      modifies `threads, `subs, `events, `queues, `place
      ensures Waking(k, q, ex, i + 1, eax) && Behind(old(queues), queues, n)
      decreases |Waiting(k.place)|, 2, 0
    {
      ghost var b := Now();
      HeadWaits(b, rank, seen, ex, q);
      SubsetSize(Waiting(place), Waiting(k.place));
      Signal(n, eax, ex);
      RouseStep(k, b, Now(), rank, q, i, eax);
    }

    /** list->next. */
    function First(q: Queue): Option<Node>
      reads this
    {
      if Q(queues, q) == [] then None else Some(Q(queues, q)[0])
    }

    /** The successor of the first element, saved before the element is signalled. */
    function After(q: Queue): Option<Node>
      reads this
    {
      if |Q(queues, q)| < 2 then None else Some(Q(queues, q)[1])
    }

    /** __objectSignal on a queued entry. */
    method Signal(n: Node, eax: int, ghost ex: set<nat>)
      requires Valid(ex) && n in place && place[n] != RunQ
      modifies `threads, `subs, `events, `queues, `place
      ensures Valid(ex) && Signalled(old(Now()), Now(), rank, n, eax) && Behind(old(queues), queues, n)
      decreases |Waiting(place)|, 1
    {
      match n
      case T(t) =>
        assert ThreadOk(threads, place, t);
        SignalThread(t, eax, ex);
      case S(s) =>
        assert SubOk(subs, events, rank, place, s);
        ghost var was := queues;
        SignalSub(s, eax, ex);
        ghost var e := old(subs)[s].event;
        AppendedBehind(Q(was, RunQ), Q(queues, RunQ), ToWake(Q(was, WaitQ(EventObj(e))), old(events)[e].wakeAll));
    }

    // ----- waiting -----

    ghost function Depth(obj: Obj): nat
      reads this
    {
      Deep(rank, obj)
    }

    /** __objectWait: an answer at once, or None if the caller has to queue up. */
    method ObjectWait(obj: Obj) returns (r: Option<int>)
      requires Steady() && Known(Now(), Outside(), obj) && (obj.EventObj? ==> obj.ev in rank)
      modifies `subs, `events, `queues, `place, `seen, `sems, `taken
      ensures Steady() && Inquiry(old(Now()), old(sems), Now(), sems, rank, Depth(obj))
      ensures r.None? ==>
                !ReadyNow(threads, Outside(), obj) && AllBlocked(subs, events, obj) && sems == old(sems)
                && taken == old(taken)
      ensures !obj.EventObj? ==> Now() == old(Now()) && (r.Some? <==> ReadyNow(threads, old(Outside()), obj))
      ensures r.Some? ==> Answer(Now(), old(Outside()), Outside(), rank, obj, r.value)
      ensures r.Some? && obj.SemObj? ==>
                obj.sem in old(taken) && taken == old(taken)[obj.sem := old(taken)[obj.sem] + 1]
      ensures StatusKept(old(events), events, rank, Depth(obj))
      ensures r.None? ==> Cleared(old(Now()), events, obj)
      decreases Depth(obj), 1
    {
      InquiryNone(Now(), sems, rank, Depth(obj));
      match obj
      case ThreadObj(t) =>
        r := if threads[t].process.None? then Some(threads[t].exitcode) else None;
      case ProcObj(p) =>
        r := if procs[p].threads == [] then Some(procs[p].exitcode) else None;
      case DevObj(d) =>
        r := devs[d];
      case SemObj(s) =>
        r := SemWait(s);
      case EventObj(e) =>
        r := EventWait(e);
    }

    /** __semaphoreWait. */
    method SemWait(s: nat) returns (r: Option<int>)
      requires Steady() && s in sems
      modifies `sems, `taken
      ensures Steady() && TokensTaken(old(sems), sems) && (r.Some? <==> old(sems)[s] > 0)
      ensures r.None? ==> sems == old(sems) && taken == old(taken)
      ensures r.Some? ==> r.value == sems[s] && sems == old(sems)[s := old(sems)[s] - 1]
      ensures r.Some? ==> s in old(taken) && taken == old(taken)[s := old(taken)[s] + 1]
    {
      assert Look(0);
      if sems[s] == 0 {
        return None;
      }
      TakeBalanced(sems, given, taken, s);
      TakeKeeps(Now(), Outside(), s, Outside().(sems := sems[s := sems[s] - 1]));
      sems, taken := sems[s := sems[s] - 1], taken[s := taken[s] + 1];
      return Some(sems[s]);
    }

    lemma Listed(e: nat, s: nat)
      requires Steady() && e in events && s in events[e].subs
      ensures s in subs && subs[s].event == e
    {
      assert Look(0);
      assert Lists(subs, events, e);
    }

    /** __eventWait: asks the sub-objects in order; the first that is ready answers for the event. */
    method EventWait(e: nat) returns (r: Option<int>)
      requires Steady() && e in events && e in rank
      modifies `subs, `events, `queues, `place, `seen, `sems, `taken
      ensures Steady() && Inquiry(old(Now()), old(sems), Now(), sems, rank, rank[e] + 1)
      ensures r.None? ==> AllBlocked(subs, events, EventObj(e)) && sems == old(sems) && taken == old(taken)
      ensures r.Some? ==> AnsweredBy(Now(), old(Outside()), Outside(), rank, e, r.value)
      ensures StatusKept(old(events), events, rank, rank[e] + 1) && e in events
      ensures r.None? ==> Cleared(old(Now()), events, EventObj(e))
      decreases Depth(EventObj(e)), 0
    {
      var list, i := events[e].subs, 0;
      InquiryNone(Now(), sems, rank, rank[e] + 1);
      while i < |list|
        invariant i <= |list| && Steady() && Inquiry(old(Now()), old(sems), Now(), sems, rank, rank[e] + 1)
        invariant e in events && events[e].subs == list && Waits(subs, list, i) && sems == old(sems)
                  && taken == old(taken)
        invariant StatusKept(old(events), events, rank, rank[e] + 1)
        invariant if AnyFree(old(subs), list, i) then events[e].status == 0 else Now() == old(Now())
      {
        ghost var k, sems1 := Now(), sems;
        var s := list[i];
        Listed(e, s);
        AnyFreeNext(old(subs), list, i);
        if !subs[s].blocked {
          var done := AskSub(e, s);
          InquiryTrans(old(Now()), old(sems), k, sems1, Now(), sems, rank, rank[e] + 1, rank[e] + 1, rank[e] + 1);
          StatusTrans(old(events), k.events, events, rank, rank[e] + 1, rank[e] + 1, rank[e] + 1);
          assert AskedEvent(k, Now(), e);
          if done {
            WaitsOn(k, Now(), list, i);
            assert AnsweredAt(Now(), old(Outside()), Outside(), rank, e, subs[s].ident, i);
            return Some(subs[s].ident);
          }
          StillWaits(k, Now(), list, i);
        }
        i := i + 1;
      }
      return None;
    }

    /** One sub-object is asked; if it is ready, its answer is the status, and if not, the sub-event queues up there. */
    method AskSub(e: nat, s: nat) returns (done: bool)
      requires Steady() && e in events && e in rank && s in subs && subs[s].event == e && !subs[s].blocked
      modifies `subs, `events, `queues, `place, `seen, `sems, `taken
      ensures Steady() && Inquiry(old(Now()), old(sems), Now(), sems, rank, rank[e] + 1)
      ensures s in subs && subs[s].blocked == !done && e in events
      ensures !done ==> sems == old(sems) && taken == old(taken) && events[e].status == 0
      ensures Deep(rank, subs[s].wait) < Deep(rank, EventObj(e))
      ensures done ==> Answer(Now(), old(Outside()), Outside(), rank, subs[s].wait, events[e].status)
      ensures StatusKept(old(events), events, rank, rank[e] + 1)
      decreases Depth(EventObj(e)), 0, 0
    {
      var r := AskObject(e, s);
      ghost var m, sems1 := Now(), sems;
      if r.Some? {
        AnswerStatus(m, old(Outside()), Outside(), rank, subs[s].wait, r.value, e, r.value);
        SetStatus(e, r.value);
      } else {
        BlockSub(s);
      }
      InquiryTrans(old(Now()), old(sems), m, sems1, Now(), sems, rank, rank[e], rank[e] + 1, rank[e] + 1);
      StatusTrans(old(events), m.events, events, rank, rank[e] + 1, rank[e] + 1, rank[e] + 1);
      return r.Some?;
    }

    method AskObject(e: nat, s: nat) returns (r: Option<int>)
      requires Steady() && e in events && e in rank && s in subs && subs[s].event == e && !subs[s].blocked
      modifies `subs, `events, `queues, `place, `seen, `sems, `taken
      ensures Steady() && Inquiry(old(Now()), old(sems), Now(), sems, rank, rank[e])
      ensures e in events && s in subs && subs[s] == old(subs)[s] && events[e].status == 0
      ensures r.None? ==> !ReadyNow(threads, Outside(), subs[s].wait) && AllBlocked(subs, events, subs[s].wait)
      ensures r.None? ==> sems == old(sems) && taken == old(taken)
      ensures Deep(rank, subs[s].wait) < Deep(rank, EventObj(e))
      ensures r.Some? ==> Answer(Now(), old(Outside()), Outside(), rank, subs[s].wait, r.value)
      ensures StatusKept(old(events), events, rank, rank[e] + 1)
      decreases Depth(EventObj(e)), 0, 0, 0
    {
      assert Look(0);
      var obj := subs[s].wait;
      assert SubOk(subs, events, rank, place, s) && Known(Now(), Outside(), obj);
      SetStatus(e, 0);
      ghost var k := Now();
      r := ObjectWait(obj);
      InquiryTrans(old(Now()), old(sems), k, old(sems), Now(), sems, rank, 0, Depth(obj), rank[e]);
      StatusTrans(old(events), k.events, events, rank, rank[e] + 1, Depth(obj), rank[e] + 1);
      assert SameAbove(old(subs), subs, rank, rank[e], s) && AskedSub(old(Now()), Now(), s)
             && AskedEvent(old(Now()), Now(), e);
      assert StatusAt(k.events, events, rank, Depth(obj), e);
    }

    method SetStatus(e: nat, status: int)
      requires Steady() && e in events
      modifies `events
      ensures Steady() && Now() == WithStatus(old(Now()), e, status) && Inquiry(old(Now()), sems, Now(), sems, rank, 0)
    {
      assert Look(0);
      StatusKeeps(Now(), Outside(), rank, seen, e, status);
      StatusAsked(Now(), e, status);
      events := events[e := events[e].(status := status)];
    }

    /** The sub-event hangs itself at the head of the queue it was given. */
    method BlockSub(s: nat)
      requires Steady() && s in subs && !subs[s].blocked && subs[s].event in rank
      requires !ReadyNow(threads, Outside(), subs[s].wait) && AllBlocked(subs, events, subs[s].wait)
      modifies `subs, `queues, `place, `seen
      ensures Steady() && Now() == WithSubBlocked(old(Now()), s)
      ensures Inquiry(old(Now()), sems, Now(), sems, rank, rank[old(subs)[s].event] + 1)
    {
      assert Look(0);
      var obj := subs[s].wait;
      SubBlocked(Now(), Outside(), rank, seen, s);
      seen := seen[S(s) := SubsOf(events, obj)];
      subs := subs[s := subs[s].(blocked := true)];
      queues, place := queues[WaitQ(obj) := [S(s)] + Q(queues, WaitQ(obj))], place[S(s) := WaitQ(obj)];
    }

    /** threadWait: false if the thread goes on at once, true if it is blocked now. */
    method ThreadWait(t: nat, obj: Obj) returns (blocks: bool)
      requires Steady() && t in threads && threads[t].process.Some? && !threads[t].blocked
      requires Known(Now(), Outside(), obj) && (obj.EventObj? ==> obj.ev in rank)
      modifies `threads, `subs, `events, `queues, `place, `seen, `sems, `taken
      ensures Steady() && t in threads && threads == old(threads)[t := threads[t]]
      ensures blocks ==>
                threads[t] == old(threads)[t].(blocked := true, eax := 0) && Sleeps(Now(), Outside(), seen, t, obj)
      ensures !blocks ==> threads[t] == old(threads)[t].(eax := threads[t].eax)
      ensures !blocks ==> Answer(Now(), old(Outside()), Outside(), rank, obj, threads[t].eax)
      ensures blocks ==> Cleared(old(Now()), events, obj) && sems == old(sems)
      ensures Kin(old(Now()), Now()) && OthersStay(old(Now()), Now(), t) && sems.Keys == old(sems).Keys
      ensures !obj.EventObj? ==> Q(queues, WaitQ(obj)) == (if blocks then [T(t)] else []) + Q(old(queues), WaitQ(obj))
    {
      var r := Inquire(t, obj);
      ghost var b, c := old(Now()).(threads := threads), Now();
      if r.Some? {
        AnswerEax(c, old(Outside()), Outside(), rank, obj, r.value, t, r.value);
        SetEax(t, r.value);
      } else {
        BlockThread(t, obj);
      }
      WaitEffect(old(Now()), b, c, Now(), t, obj);
      return r.None?;
    }

    /** eax is cleared and the object asked. */
    method Inquire(t: nat, obj: Obj) returns (r: Option<int>)
      requires Steady() && t in threads && Known(Now(), Outside(), obj) && (obj.EventObj? ==> obj.ev in rank)
      modifies `threads, `subs, `events, `queues, `place, `seen, `sems, `taken
      ensures Steady() && threads == old(threads)[t := old(threads)[t].(eax := 0)] && sems.Keys == old(sems).Keys
      ensures Asked(old(Now()).(threads := threads), Now()) && Known(Now(), Outside(), obj)
      ensures !obj.EventObj? ==> queues == old(queues)
      ensures r.None? ==> Cleared(old(Now()), events, obj)
      ensures r.None? ==> !ReadyNow(threads, Outside(), obj) && AllBlocked(subs, events, obj) && sems == old(sems)
      ensures r.Some? ==> Answer(Now(), old(Outside()), Outside(), rank, obj, r.value)
    {
      SetEax(t, 0);
      r := ObjectWait(obj);
    }

    method SetEax(t: nat, eax: int)
      requires Steady() && t in threads
      modifies `threads
      ensures Steady() && threads == old(threads)[t := old(threads)[t].(eax := eax)]
      ensures Now() == old(Now()).(threads := threads)
    {
      assert Look(0);
      EaxKeeps(Now(), Outside(), rank, seen, t, eax);
      threads := threads[t := threads[t].(eax := eax)];
    }

    method BlockThread(t: nat, obj: Obj)
      requires Steady() && t in threads && threads[t].process.Some? && !threads[t].blocked
      requires !ReadyNow(threads, Outside(), obj) && AllBlocked(subs, events, obj) && Known(Now(), Outside(), obj)
      modifies `threads, `queues, `place, `seen
      ensures Steady() && T(t) in old(place) && Now() == WithThreadBlocked(old(Now()), t, obj)
      ensures Sleeps(Now(), Outside(), seen, t, obj) && Q(queues, WaitQ(obj)) == [T(t)] + Q(old(queues), WaitQ(obj))
    {
      assert Look(0);
      assert ThreadOk(threads, place, t);
      ThreadSleeps(Now(), Outside(), rank, seen, t, obj);
      Hang(t, obj);
    }

    /** The thread moves from the run list to the head of a wait queue. */
    method Hang(t: nat, obj: Obj)
      requires Placed(queues, place) && t in threads && T(t) in place
      modifies `threads, `queues, `place, `seen
      ensures Now() == WithThreadBlocked(old(Now()), t, obj) && seen == old(seen)[T(t) := SubsOf(events, obj)]
    {
      var q := InQueue(T(t));
      seen := seen[T(t) := SubsOf(events, obj)];
      threads := threads[t := threads[t].(blocked := true)];
      queues := Unqueued(queues, T(t), q);
      queues := queues[WaitQ(obj) := [T(t)] + Q(queues, WaitQ(obj))];
      place := (place - {T(t)})[T(t) := WaitQ(obj)];
    }

    // ----- the whole invariant -----

    ghost function Books(): Book reads this { Book(rank, seen, given, taken) }

    ghost function Account(): Tally reads this { Tally(refs, handles, held, log) }

    ghost function All(): State reads this { State(Now(), Outside(), Account()) }

    ghost function Here(): Point reads this { Point(All(), Books()) }

    /** The invariant of the kernel, but for waiters of the objects in `ex`; out of the prover's sight until
        a proof says Look. */
    ghost predicate Sane(ex: set<Obj>)
      reads this
    {
      forall n {:trigger Look(n)} :: Look(n) ==> Whole(Now(), Outside(), Books(), Account(), ex)
    }

    /** queueWakeup on the waiters of an object. */
    method Rouse(obj: Obj, all: bool, eax: int, ghost ex: set<Obj>)
      requires Sane(ex)
      modifies `threads, `subs, `events, `queues, `place
      ensures Sane(ex) && Roused(old(Now()), Now(), rank, WaitQ(obj), all, eax)
      ensures Valid({}) && Lined(old(queues), queues, WaitQ(obj), all)
    {
      ghost var a := Now();
      SaneIsValid(ex);
      Wake(WaitQ(obj), all, eax, {});
      WakeKeeps(a, Now(), Outside(), Books(), Account(), ex);
    }

    /** queueWakeup of everybody, for an object that came to its end. */
    method Tell(obj: Obj, code: int, ghost ex: set<Obj>)
      requires Sane(ex + {obj})
      modifies `threads, `subs, `events, `queues, `place
      ensures Sane(ex) && Fates(old(Now()), Now(), {}, Notice(obj, code), code) && Effects(old(Now()), Now())
    {
      ghost var a := Now();
      SaneIsValid(ex + {obj});
      Rouse(obj, true, code, ex + {obj});
      Told(a, obj, code, ex);
    }

    lemma SaneIsValid(ex: set<Obj>)
      requires Sane(ex)
      ensures Valid({})
    {
      assert Look(0);
    }

    lemma Told(a: Snap, obj: Obj, code: int, ex: set<Obj>)
      requires Sane(ex + {obj}) && Sound(a, rank, seen, {}) && Roused(a, Now(), rank, WaitQ(obj), true, code)
      ensures Sane(ex) && Fates(a, Now(), {}, Notice(obj, code), code)
    {
      assert Look(0);
      RousedFates(a, Now(), rank, seen, obj, code);
      ExemptDone(Now(), Outside(), rank, seen, ex, obj);
      TendedAgain(Now(), Outside(), Account(), ex, obj);
    }

    // ----- references -----

    /** objectRelease: an object without references is destroyed, which may release others. */
    method Release(o: Obj) returns (ghost told: map<Obj, int>)
      requires Sane({}) && o in refs && o in held && held[o] > 0
      modifies `threads, `subs, `events, `queues, `place, `procs, `refs, `handles, `held, `log
      ensures Sane({}) && o in old(held) && held == old(held)[o := old(held)[o] - 1]
      ensures Aftermath(old(All()), All(), told, {}) && Dropped(old(refs), refs, told, o)
      ensures LetGo(old(All()), All(), o, told)
      decreases Weight(All()), 4
    {
      ghost var a := All();
      Decrement(o);
      ghost var m := All();
      told := map[];
      if refs[o] == 0 {
        told := Destroy(o);
        assert Peek(0);
        assert ObjAfter(m, All(), {o}, o);
      }
      AfterDecrement(a, m, All(), o, told);
    }

    method Decrement(o: Obj)
      requires Sane({}) && o in refs && o in held && held[o] > 0
      modifies `refs, `held
      ensures old(refs)[o] > 0 && refs == old(refs)[o := old(refs)[o] - 1] && held == old(held)[o := old(held)[o] - 1]
      ensures Sane(if Passive(o) && refs[o] == 0 then {o} else {})
    {
      assert Look(0);
      ReleaseLedger(Now(), Outside(), Account(), o);
      assert NoSleepers(threads, queues, Outside(), {o}) by {
        assert forall x :: Calm(threads, queues, Outside(), x);
      }
      refs, held := refs[o := refs[o] - 1], held[o := held[o] - 1];
    }

    /** The destructors: __threadDestroy, __processDestroy, __semaphoreDestroy, __eventDestroy, and those of pipes
        and timers. */
    method Destroy(o: Obj) returns (ghost told: map<Obj, int>)
      requires Sane(if Passive(o) then {o} else {}) && o in refs && refs[o] == 0
      modifies `threads, `subs, `events, `queues, `place, `procs, `refs, `handles, `held, `log
      ensures Sane({}) && held == old(held) && Aftermath(old(All()), All(), told, {o})
      ensures o.SemObj? || o.DevObj? ==> o in told
      decreases Weight(All()), 3
    {
      match o
      case ThreadObj(t) =>
        Unused(o);
        assert t in threads && threads[t].process.None? && Q(queues, WaitQ(o)) == [];
        told := map[];
        AfterNone(All(), {o});
      case ProcObj(p) =>
        Unused(o);
        assert p in procs && procs[p].threads == [] && Q(queues, WaitQ(o)) == [];
        told := FreeTables(p);
      case EventObj(e) =>
        told := DestroyEvent(e);
      case _ =>
        told := Notice(o, -1);
        Dismiss(o);
    }

    /** A thread or process without references is dead and nobody waits for it. */
    lemma Unused(o: Obj)
      requires Sane({}) && o in refs && refs[o] == 0 && !Passive(o)
      ensures Q(queues, WaitQ(o)) == []
      ensures o.ThreadObj? ==> o.tid in threads && threads[o.tid].process.None?
      ensures o.ProcObj? ==> o.pid in procs && procs[o.pid].threads == []
    {
      assert Look(0);
      assert CountOk(Now(), Outside(), Account(), o) && Calm(threads, queues, Outside(), o);
    }

    /** Waiters give up with -1. */
    method Dismiss(o: Obj)
      requires Sane({o}) && Dead(refs, o)
      modifies `threads, `subs, `events, `queues, `place
      ensures Sane({}) && Aftermath(old(All()), All(), Notice(o, -1), {o})
      ensures subs.Keys == old(subs).Keys && events.Keys == old(events).Keys
    {
      ghost var a := All();
      assert {o} == {} + {o};
      Tell(o, -1, {});
      AfterRouse(a, All(), Notice(o, -1), -1, {o});
    }

    /** __eventDestroy: waiters give up, then every sub-event goes with its reference. */
    method DestroyEvent(e: nat) returns (ghost told: map<Obj, int>)
      requires Sane({EventObj(e)}) && EventObj(e) in refs && refs[EventObj(e)] == 0
      modifies `threads, `subs, `events, `queues, `place, `procs, `refs, `handles, `held, `log
      ensures Sane({}) && held == old(held) && Aftermath(old(All()), All(), told, {EventObj(e)})
      decreases Weight(All()), 2, 3
    {
      ghost var a := All();
      Dismiss(EventObj(e));
      told := map[];
      while HasSubs(e)
        invariant Sane({}) && held == old(held) && Aftermath(a, All(), told, {EventObj(e)})
        invariant EventObj(e) in refs && refs[EventObj(e)] == 0
        decreases Weight(All())
      {
        ghost var b := All();
        SubThere(e, events[e].subs[0]);
        ghost var t2 := DetachSub(events[e].subs[0]);
        AfterTrans(a, b, All(), told, t2, {EventObj(e)});
        told := t2 + told;
        assert Peek(0);
        assert ObjAfter(b, All(), {EventObj(e)}, EventObj(e));
      }
    }

    predicate HasSubs(e: nat) reads this { e in events && events[e].subs != [] }

    /** A sub-event leaves its event and its queue; its reference is given back. */
    method DetachSub(s: nat) returns (ghost told: map<Obj, int>)
      requires Sane({}) && s in subs
      modifies `threads, `subs, `events, `queues, `place, `procs, `refs, `handles, `held, `log
      ensures Sane({}) && held == old(held)
      ensures Aftermath(old(All()), All(), told, {EventObj(old(subs)[s].event)}) && Weight(All()) < Weight(old(All()))
      decreases Weight(All()), 1
    {
      ghost var a, e := All(), EventObj(subs[s].event);
      var o := CutLoose(s);
      ghost var b := All();
      told := Release(o);
      AfterThen(a, b, All(), told, {e});
    }

    /** The sub-event is gone; kernel code has its reference. */
    method CutLoose(s: nat) returns (o: Obj)
      requires Sane({}) && s in subs
      modifies `subs, `events, `queues, `place, `held
      ensures Sane({}) && o in refs && o in held && held[o] > 0 && held[o := held[o] - 1] == old(held)
      ensures subs == old(subs) - {s} && old(subs)[s].event in old(events)
      ensures Aftermath(old(All()), All(), map[], {EventObj(old(subs)[s].event)}) && Weight(All()) < Weight(old(All()))
    {
      ghost var a := All();
      o := subs[s].wait;
      DropSub(s);
      AfterCut(a, All(), s);
      HandBack(a.t.held, o);
    }

    lemma SubThere(e: nat, s: nat)
      requires Sane({}) && e in events && s in events[e].subs
      ensures s in subs && subs[s].event == e
    {
      assert Look(0);
      assert Lists(subs, events, e);
    }

    lemma KeptIsSane(k: Snap, w: World, b: Book, t: Tally, ex: set<Obj>)
      requires Kept(k, w, b, t, ex) && Now() == k && Outside() == w && Books() == b && Account() == t
      ensures Sane(ex)
    {
    }

    method DropSub(s: nat)
      requires Sane({}) && s in subs
      modifies `subs, `events, `queues, `place, `held
      ensures old(subs)[s].wait in refs && old(subs)[s].wait in old(held)
      ensures Sane({}) && held == Handed(old(held), old(subs)[s].wait)
      ensures old(subs)[s].event in old(events) && Now() == WithoutSub(old(Now()), s)
    {
      ghost var k, t := Now(), Account();
      DetachKeeps(k, Outside(), Books(), t, s);
      Cut(s);
      KeptIsSane(WithoutSub(k, s), Outside(), Books(), t.(held := held), {});
    }

    method Cut(s: nat)
      requires Placed(queues, place) && s in subs && subs[s].event in events && (subs[s].blocked <==> S(s) in place)
      requires subs[s].wait in held
      modifies `subs, `events, `queues, `place, `held
      ensures Now() == WithoutSub(old(Now()), s) && held == Handed(old(held), old(subs)[s].wait)
    {
      held := Handed(held, subs[s].wait);
      var e := subs[s].event;
      if subs[s].blocked {
        var q := InQueue(S(s));
        queues := Unqueued(queues, S(s), q);
      }
      place := place - {S(s)};
      events := events[e := events[e].(subs := Without(events[e].subs, s))];
      subs := subs - {s};
    }

    // ----- handles -----

    /** handleRelease: the slot is empty and its reference is given back. */
    method CloseHandle(h: Handle) returns (ghost told: map<Obj, int>)
      requires Sane({}) && h in handles
      modifies `threads, `subs, `events, `queues, `place, `procs, `refs, `handles, `held, `log
      ensures Sane({}) && held == old(held) && HandleClosed(old(All()), All(), h, told)
      ensures Weight(All()) < Weight(old(All()))
      decreases Weight(All()), 1
    {
      ghost var a := All();
      var o := handles[h];
      Vacate(h);
      ghost var b := All();
      AfterClose(a, b, h);
      HandBack(a.t.held, o);
      told := Release(o);
      assert Peek(0);
      assert HandleAfter(b, All(), {}, h);
      AfterThen(a, b, All(), told, {ProcObj(h.pid)});
    }

    method Vacate(h: Handle)
      requires Sane({}) && h in handles
      modifies `handles, `held
      ensures Sane({}) && old(handles)[h] in refs && old(handles)[h] in old(held)
      ensures handles == old(handles) - {h} && held == Handed(old(held), old(handles)[h])
    {
      assert Look(0);
      CloseLedger(Now(), Outside(), Account(), h);
      held := Handed(held, handles[h]);
      handles := handles - {h};
    }

    /** handleAllocate: one handle and one reference more. */
    method OpenHandle(h: Handle, o: Obj)
      requires Sane({}) && h !in handles && o in refs && h.pid in procs && procs[h.pid].handled
      modifies `handles, `refs
      ensures Sane({}) && handles == old(handles)[h := o] && refs == Grabbed(old(refs), o)
    {
      assert Look(0);
      OpenLedger(Now(), Outside(), Account(), h, o);
      handles, refs := handles[h := o], Grabbed(refs, o);
    }

    /** The process is not being destroyed by what its own handles release. */
    ghost predicate Safe(p: nat)
      reads this
    {
      ProcObj(p) in refs && (refs[ProcObj(p)] == 0 || (ProcObj(p) in held && held[ProcObj(p)] > 0))
    }

    lemma StaysSafe(a: State, told: map<Obj, int>, p: nat)
      requires Sane({}) && p in procs && Aftermath(a, All(), told, {}) && p in a.w.procs && ProcObj(p) in a.t.refs
      requires a.t.refs[ProcObj(p)] == 0 || (ProcObj(p) in held && held[ProcObj(p)] > 0)
      ensures Safe(p) && Spared(a, All(), {}, ProcObj(p)) && procs[p] == a.w.procs[p]
    {
      assert Peek(0);
      assert Look(0);
      assert CountOk(Now(), Outside(), Account(), ProcObj(p)) && ObjAfter(a, All(), {}, ProcObj(p));
    }

    /** handleTableFree: every handle of the process is closed. */
    method CloseAll(p: nat) returns (ghost told: map<Obj, int>)
      requires Sane({}) && p in procs && Safe(p)
      modifies `threads, `subs, `events, `queues, `place, `procs, `refs, `handles, `held, `log
      ensures Sane({}) && held == old(held) && Aftermath(old(All()), All(), told, {ProcObj(p)})
      ensures p in procs && procs[p] == old(procs)[p] && Safe(p) && forall h :: h in handles ==> h.pid != p
      decreases Weight(All()), 2, 0
    {
      ghost var a := All();
      told := map[];
      AfterNone(a, {ProcObj(p)});
      while exists h :: h in handles && h.pid == p
        invariant Sane({}) && held == old(held) && Aftermath(a, All(), told, {ProcObj(p)})
        invariant p in procs && procs[p] == old(procs)[p] && Safe(p)
        decreases Weight(All())
      {
        var h :| h in handles && h.pid == p;
        ghost var b := All();
        ghost var t2 := CloseOne(h);
        AfterTrans(a, b, All(), told, t2, {ProcObj(p)});
        told := t2 + told;
      }
    }

    /** One handle of a process that stays as it is. */
    method CloseOne(h: Handle) returns (ghost told: map<Obj, int>)
      requires Sane({}) && h in handles && h.pid in procs && Safe(h.pid)
      modifies `threads, `subs, `events, `queues, `place, `procs, `refs, `handles, `held, `log
      ensures Sane({}) && held == old(held) && h.pid in procs && procs[h.pid] == old(procs)[h.pid] && Safe(h.pid)
      ensures Aftermath(old(All()), All(), told, {ProcObj(h.pid)}) && Weight(All()) < Weight(old(All()))
      decreases Weight(All()), 1
    {
      ghost var a := All();
      var o := handles[h];
      Vacate(h);
      ghost var b := All();
      AfterClose(a, b, h);
      HandBack(a.t.held, o);
      told := Release(o);
      StaysSafe(b, told, h.pid);
      AfterThen(a, b, All(), told, {ProcObj(h.pid)});
    }

    /** pagingReleaseProcessPageTable and handleTableFree, if not done yet. */
    method FreeTables(p: nat) returns (ghost told: map<Obj, int>)
      requires Sane({}) && p in procs && procs[p].threads == [] && Safe(p)
      modifies `threads, `subs, `events, `queues, `place, `procs, `refs, `handles, `held, `log
      ensures Sane({}) && held == old(held) && Aftermath(old(All()), All(), told, {ProcObj(p)})
      ensures p in procs && procs[p] == old(procs)[p].(paged := false, handled := false)
      decreases Weight(All()), 2, 2
    {
      ghost var a := All();
      told := CloseIfAny(p);
      ghost var b := All();
      ClearTables(p);
      TouchedAfter(a, b, All(), told, p);
    }

    method CloseIfAny(p: nat) returns (ghost told: map<Obj, int>)
      requires Sane({}) && p in procs && Safe(p)
      modifies `threads, `subs, `events, `queues, `place, `procs, `refs, `handles, `held, `log
      ensures Sane({}) && held == old(held) && Aftermath(old(All()), All(), told, {ProcObj(p)})
      ensures p in procs && procs[p] == old(procs)[p] && (procs[p].handled ==> forall h :: h in handles ==> h.pid != p)
      decreases Weight(All()), 2, 1
    {
      told := map[];
      AfterNone(All(), {ProcObj(p)});
      if procs[p].handled {
        told := CloseAll(p);
      }
    }

    method ClearTables(p: nat)
      requires Sane({}) && p in procs && procs[p].threads == []
               && (procs[p].handled ==> forall h :: h in handles ==> h.pid != p)
      modifies `procs, `log
      ensures Sane({}) && procs == old(procs)[p := old(procs)[p].(paged := false, handled := false)]
    {
      assert Look(0);
      ghost var r := procs[p].(paged := false, handled := false);
      ProcTouched(Now(), Outside(), rank, seen, {}, p, r);
      TouchedLedger(Now(), Outside(), Account(), {}, p, r);
      ghost var log' := TouchedLog(log, p, procs[p], r);
      if procs[p].paged {
        procs := procs[p := procs[p].(paged := false)];
        log := log.(tables := log.tables[p := log.tables[p] + 1]);
      }
      if procs[p].handled {
        procs := procs[p := procs[p].(handled := false)];
        log := log.(handles := log.handles[p := log.handles[p] + 1]);
      }
      assert procs == old(procs)[p := r];
      assert log == log';
    }

    // ----- the end of threads and processes -----

    /** The thread leaves its queue and its process; the caller inherits its two references. */
    method Unlink(t: nat, p: nat, code: int)
      requires Placed(queues, place) && t in threads && T(t) in place && p in procs
      requires ThreadObj(t) in held && ProcObj(p) in held && t in log.ended
      modifies `threads, `queues, `place, `procs, `held, `log
      ensures Now() == WithThreadEnded(old(Now()), t, code) && procs == Dismissed(old(procs), p, t)
      ensures Account() == EndedTally(old(Account()), t, p)
    {
      held, log := Inherited(held, t, p), log.(ended := log.ended[t := log.ended[t] + 1]);
      procs := Dismissed(procs, p, t);
      Unhang(t, code);
    }

    method Unhang(t: nat, code: int)
      requires Placed(queues, place) && t in threads && T(t) in place
      modifies `threads, `queues, `place
      ensures Now() == WithThreadEnded(old(Now()), t, code)
    {
      var q := InQueue(T(t));
      threads := threads[t := threads[t].(process := None, exitcode := code)];
      queues, place := Unqueued(queues, T(t), q), place - {T(t)};
    }

    method EndThread(t: nat, code: int) returns (p: nat)
      requires Sane({}) && t in threads && threads[t].process.Some?
      modifies `threads, `queues, `place, `procs, `held, `log
      ensures old(threads)[t].process == Some(p) && p in old(procs) && t in old(procs)[p].threads
      ensures procs == Dismissed(old(procs), p, t)
      ensures ThreadObj(t) in old(held) && ProcObj(p) in old(held) && held == Inherited(old(held), t, p)
      ensures Fates(old(Now()), Now(), {t}, map[], code) && Sane({ThreadObj(t), ProcObj(p)})
      ensures |Alive(threads)| < |Alive(old(threads))|
    {
      EndedKeeps(Now(), Outside(), Books(), Account(), t, code);
      p := threads[t].process.value;
      Unlink(t, p, code);
    }

    /** First half of __threadShutdown: the thread is gone and its waiters know. */
    method StopThread(t: nat, code: int) returns (p: nat)
      requires Sane({}) && t in threads && threads[t].process.Some?
      modifies `threads, `subs, `events, `queues, `place, `procs, `held, `log
      ensures old(threads)[t].process == Some(p) && p in old(procs) && procs == Dismissed(old(procs), p, t)
      ensures ThreadObj(t) in old(held) && ProcObj(p) in old(held) && held == Inherited(old(held), t, p)
      ensures Sane({ProcObj(p)}) && t in threads && Fates(old(Now()), Now(), {t}, map[ThreadObj(t) := code], code)
      ensures |Alive(threads)| < |Alive(old(threads))|
    {
      ghost var a := Now();
      p := EndThread(t, code);
      ghost var b := Now();
      assert {ThreadObj(t), ProcObj(p)} == {ProcObj(p)} + {ThreadObj(t)};
      Tell(ThreadObj(t), code, {ProcObj(p)});
      EndedAndTold(a, b, Now(), t, code);
    }

    /** The last thread of a process takes the process down. */
    method LastOut(p: nat, code: int) returns (ghost told: map<Obj, int>)
      requires Sane({ProcObj(p)}) && p in procs
      modifies `threads, `subs, `events, `queues, `place, `procs, `refs, `handles, `held, `log
      ensures Sane({}) && held == old(held) && p in procs && OthersKept(old(procs), procs, p)
      ensures procs[p] == if old(procs)[p].threads == [] then Proc([], code, false, false) else old(procs)[p]
      ensures Fates(old(Now()), Now(), {}, told, code)
      ensures Tells(told, if old(procs)[p].threads == [] then {ProcObj(p)} else {}, code, refs)
              && StayDead(old(refs), refs)
      decreases |Alive(threads)|, 4
    {
      if procs[p].threads == [] {
        told := ProcessShutdown(p, code);
        assert Elems([]) == {} && {ProcObj(p)} + ThreadObjs([]) == {ProcObj(p)};
      } else {
        told := map[];
        FatesSame(Now(), Now());
        FatesCode(Now(), Now(), map[], 0, code);
        NotReady(p);
      }
    }

    lemma NotReady(p: nat)
      requires Sane({ProcObj(p)}) && p in procs && procs[p].threads != []
      ensures Sane({})
    {
      assert Look(0);
      assert {ProcObj(p)} == {} + {ProcObj(p)};
      ExemptDone(Now(), Outside(), rank, seen, {}, ProcObj(p));
      TendedAgain(Now(), Outside(), Account(), {}, ProcObj(p));
    }

    /** __threadShutdown: a second call on the same thread does nothing. */
    method ThreadShutdown(t: nat, code: int) returns (ghost told: map<Obj, int>)
      requires Sane({}) && t in threads
      modifies `threads, `subs, `events, `queues, `place, `procs, `refs, `handles, `held, `log
      ensures Sane({}) && held == old(held)
      ensures old(threads)[t].process.None? ==> All() == old(All())
      ensures StayDead(old(refs), refs)
      ensures old(threads)[t].process.Some? ==>
                var p := old(threads)[t].process.value;
                && p in old(procs) && p in procs && procs[p] == Left(old(procs)[p], t, code)
                && OthersKept(old(procs), procs, p)
                && Fates(old(Now()), Now(), {t}, told, code) && Tells(told, EndedWith(old(procs)[p], p, t), code, refs)
      decreases |Alive(threads)|, 1
    {
      told := map[];
      if threads[t].process.Some? {
        var p;
        p, told := KillThread(t, code);
      }
    }

    method KillThread(t: nat, code: int) returns (p: nat, ghost told: map<Obj, int>)
      requires Sane({}) && t in threads && threads[t].process.Some?
      modifies `threads, `subs, `events, `queues, `place, `procs, `refs, `handles, `held, `log
      ensures Sane({}) && held == old(held) && old(threads)[t].process == Some(p) && p in old(procs) && p in procs
      ensures procs[p] == Left(old(procs)[p], t, code) && OthersKept(old(procs), procs, p)
      ensures Fates(old(Now()), Now(), {t}, told, code) && Tells(told, EndedWith(old(procs)[p], p, t), code, refs)
      ensures StayDead(old(refs), refs)
      decreases |Alive(threads)|, 0
    {
      ghost var a, procs0 := Now(), procs;
      p := StopThread(t, code);
      ghost var c, procs1 := Now(), procs;
      OthersOne(procs0, p, procs[p]);
      ghost var t2 := LastOut(p, code);
      ghost var d, procs2 := All(), procs;
      JoinLast(a, c, d.k, procs0[p], p, t, code, t2, old(refs), d.t.refs);
      OthersTrans(procs0, procs1, procs2, p);
      ghost var t3 := ReleaseBoth(t, p, old(held));
      FatesAfter(a, d, All(), {t}, t2 + map[ThreadObj(t) := code], t3, EndedWith(procs0[p], p, t), {}, code);
      StayDeadTrans(old(refs), d.t.refs, refs);
      OthersAfter(d, All(), t3, {}, p);
      OthersTrans(procs0, procs2, procs, p);
      told := t3 + (t2 + map[ThreadObj(t) := code]);
    }

    static lemma JoinLast(a: Snap, c: Snap, d: Snap, was: Proc, p: nat, t: nat, code: int, t2: map<Obj, int>,
                           r1: map<Obj, nat>, r2: map<Obj, nat>)
      requires Fates(a, c, {t}, map[ThreadObj(t) := code], code) && Fates(c, d, {}, t2, code)
      requires Tells(t2, if Without(was.threads, t) == [] then {ProcObj(p)} else {}, code, r2) && StayDead(r1, r2)
      ensures Fates(a, d, {t}, t2 + map[ThreadObj(t) := code], code)
      ensures Tells(t2 + map[ThreadObj(t) := code],
                  {ThreadObj(t)} + (if Without(was.threads, t) == [] then {ProcObj(p)} else {}), code, r2)
    {
      var last := if Without(was.threads, t) == [] then {ProcObj(p)} else {};
      FatesJoin(a, c, d, {t}, {}, map[ThreadObj(t) := code], t2, {ThreadObj(t)}, last, code, r1, r2);
      assert {t} + {} == {t};
    }

    method ReleaseBoth(t: nat, p: nat, ghost was: map<Obj, nat>) returns (ghost told: map<Obj, int>)
      requires Sane({}) && t in threads && p in procs
               && (procs[p].threads != [] || !(procs[p].paged || procs[p].handled))
      requires ThreadObj(t) in was && ProcObj(p) in was && held == Inherited(was, t, p)
      modifies `threads, `subs, `events, `queues, `place, `procs, `refs, `handles, `held, `log
      ensures Sane({}) && held == was && p in procs && procs[p] == old(procs)[p]
              && Aftermath(old(All()), All(), told, {})
    {
      ghost var a := All();
      Referred(ThreadObj(t));
      Referred(ProcObj(p));
      ghost var t1 := Release(ThreadObj(t));
      ghost var b := All();
      StaysSafe(a, t1, p);
      assert held == was[ProcObj(p) := was[ProcObj(p)] + 1];
      ghost var t2 := Release(ProcObj(p));
      AfterTrans(a, b, All(), t1, t2, {});
      told := t2 + t1;
      Unharmed(b, t2, p);
      assert held == was;
    }

    lemma Referred(o: Obj)
      requires Sane({})
      ensures Known(Now(), Outside(), o) <==> o in refs
    {
      assert Look(0);
      assert CountOk(Now(), Outside(), Account(), o);
    }

    /** A process with threads, or without tables, stays as it is. */
    lemma Unharmed(b: State, told: map<Obj, int>, p: nat)
      requires Sane({}) && Aftermath(b, All(), told, {}) && p in b.w.procs && p in procs
      requires b.w.procs[p].threads != [] || !(b.w.procs[p].paged || b.w.procs[p].handled)
      ensures procs[p] == b.w.procs[p]
    {
      assert Peek(0);
      assert ProcAfter(b.w.procs, procs, p);
    }

    /** The exit code is set and announced; the process cannot vanish meanwhile. */
    method Announce(p: nat, code: int)
      requires Sane({ProcObj(p)}) && p in procs
      modifies `threads, `subs, `events, `queues, `place, `procs, `refs, `held
      ensures Sane({}) && procs == old(procs)[p := old(procs)[p].(exitcode := code)]
      ensures ProcObj(p) in old(held) && held == old(held)[ProcObj(p) := old(held)[ProcObj(p)] + 1]
              && StayDead(old(refs), refs)
      ensures Fates(old(Now()), Now(), {}, map[ProcObj(p) := code], code) && |Alive(threads)| <= |Alive(old(threads))|
    {
      ghost var a := Now();
      SetExit(p, code);
      assert {ProcObj(p)} == {} + {ProcObj(p)};
      Tell(ProcObj(p), code, {});
      FatesAlive(a, Now(), {}, map[ProcObj(p) := code], code);
    }

    method SetExit(p: nat, code: int)
      requires Sane({ProcObj(p)}) && p in procs
      modifies `procs, `refs, `held
      ensures Sane({ProcObj(p)}) && procs == old(procs)[p := old(procs)[p].(exitcode := code)]
      ensures ProcObj(p) in old(held) && held == old(held)[ProcObj(p) := old(held)[ProcObj(p)] + 1]
              && StayDead(old(refs), refs)
    {
      ExitKeeps(Now(), Outside(), Books(), Account(), {ProcObj(p)}, p, code);
      procs := procs[p := procs[p].(exitcode := code)];
      AddRef(ProcObj(p));
    }

    /** objectAddRef by kernel code. */
    method AddRef(o: Obj)
      requires o in refs && o in held
      modifies `refs, `held
      ensures Account() == old(Account()).(refs := old(refs)[o := old(refs)[o] + 1],
                  held := old(held)[o := old(held)[o] + 1])
    {
      refs, held := refs[o := refs[o] + 1], held[o := held[o] + 1];
    }

    lemma MemberLives(p: nat, t: nat)
      requires Sane({}) && p in procs && t in procs[p].threads
      ensures NoDup(procs[p].threads) && t in threads && threads[t].process == Some(p)
    {
      assert Look(0);
      assert MembersOf(threads, procs, p);
    }

    /** The first i threads of process p have been shut down. */
    ghost predicate Shut(p: nat, code: int, a: Snap, was: seq<nat>, i: nat, procs0: map<nat, Proc>, told: map<Obj, int>)
      reads this
    {
      && Sane({}) && p in procs && i <= |was| && OthersKept(procs0, procs, p)
      && procs[p].threads == was[i..] && procs[p].exitcode == code
      && Fates(a, Now(), Elems(was[..i]), told, code) && Tells(told, {ProcObj(p)} + ThreadObjs(was[..i]), code, refs)
    }

    /** The deletion-safe walk over the threads of a process. */
    method ShutThreads(p: nat, code: int, ghost a: Snap) returns (ghost told: map<Obj, int>)
      requires Sane({}) && p in procs && procs[p].exitcode == code && Fates(a, Now(), {}, map[ProcObj(p) := code], code)
      modifies `threads, `subs, `events, `queues, `place, `procs, `refs, `handles, `held, `log
      ensures held == old(held) && Shut(p, code, a, old(procs)[p].threads, |old(procs)[p].threads|, old(procs), told)
      ensures StayDead(old(refs), refs)
      decreases |Alive(threads)|, 2
    {
      ghost var was, procs0, i := procs[p].threads, procs, 0;
      ShutNone(p, was);
      OthersOne(procs, p, procs[p]);
      assert procs[p := procs[p]] == procs;
      told := map[ProcObj(p) := code];
      var cur := FirstThread(p);
      while cur.Some?
        invariant Shut(p, code, a, was, i, procs0, told) && held == old(held) && cur == FirstThread(p)
        invariant |Alive(threads)| <= |Alive(old(threads))| && StayDead(old(refs), refs)
        decreases |was| - i
      {
        var next := SecondThread(p);
        ghost var refs1 := refs;
        told := ShutNext(cur.value, p, code, a, was, i, procs0, told);
        StayDeadTrans(old(refs), refs1, refs);
        i := i + 1;
        cur := next;
      }
    }

    static lemma ShutNone(p: nat, was: seq<nat>)
      ensures Elems(was[..0]) == {} && {ProcObj(p)} + ThreadObjs(was[..0]) == {ProcObj(p)} && was[0..] == was
    {
    }

    function FirstThread(p: nat): Option<nat>
      requires p in procs
      reads this
    {
      if procs[p].threads == [] then None else Some(procs[p].threads[0])
    }

    /** The successor, saved before the first thread is shut down. */
    function SecondThread(p: nat): Option<nat>
      requires p in procs
      reads this
    {
      if |procs[p].threads| < 2 then None else Some(procs[p].threads[1])
    }

    method ShutNext(t: nat, p: nat, code: int, ghost a: Snap, ghost was: seq<nat>, ghost i: nat,
                    ghost procs0: map<nat, Proc>,
                    ghost told: map<Obj, int>) returns (ghost told': map<Obj, int>)
      requires Shut(p, code, a, was, i, procs0, told) && i < |was| && t == was[i]
      modifies `threads, `subs, `events, `queues, `place, `procs, `refs, `handles, `held, `log
      ensures Shut(p, code, a, was, i + 1, procs0, told') && held == old(held) && StayDead(old(refs), refs)
      ensures |Alive(threads)| <= |Alive(old(threads))|
      decreases |Alive(threads)|, 2, 0
    {
      ghost var b, procs1 := Now(), procs;
      MemberLives(p, t);
      WithoutHead(was[i..]);
      assert was[i..][1..] == was[i + 1..];
      ghost var t2 := ThreadShutdown(t, code);
      FatesAlive(b, Now(), {t}, t2, code);
      FatesStep(a, b, Now(), procs1[p], p, was, i, code, told, t2, old(refs), refs);
      OthersTrans(procs0, procs1, procs, p);
      told' := t2 + told;
    }

    /** __processShutdown. */
    method ProcessShutdown(p: nat, code: int) returns (ghost told: map<Obj, int>)
      requires Sane({ProcObj(p)}) && p in procs
      modifies `threads, `subs, `events, `queues, `place, `procs, `refs, `handles, `held, `log
      ensures Sane({}) && held == old(held) && p in procs && OthersKept(old(procs), procs, p)
      ensures procs[p] == Proc([], code, false, false)
      ensures var was := old(procs)[p].threads;
              Fates(old(Now()), Now(), Elems(was), told, code)
                  && Tells(told, {ProcObj(p)} + ThreadObjs(was), code, refs)
      ensures StayDead(old(refs), refs)
      decreases |Alive(threads)|, 3
    {
      ghost var a, procs0 := Now(), procs;
      Announce(p, code);
      OthersOne(procs0, p, procs[p]);
      ghost var was, procs1, refs1 := procs[p].threads, procs, refs;
      told := ShutThreads(p, code, a);
      assert was[..|was|] == was;
      ghost var b := All();
      ghost var t2 := Finish(p, old(held));
      FatesAfter(a, b, All(), Elems(was), told, t2, {ProcObj(p)} + ThreadObjs(was), {ProcObj(p)}, code);
      StayDeadTrans(old(refs), refs1, b.t.refs);
      StayDeadTrans(old(refs), b.t.refs, refs);
      OthersTrans(procs0, procs1, b.w.procs, p);
      OthersTrans(procs0, b.w.procs, procs, p);
      told := t2 + told;
    }

    method Finish(p: nat, ghost was: map<Obj, nat>) returns (ghost told: map<Obj, int>)
      requires Sane({}) && p in procs && procs[p].threads == []
      requires ProcObj(p) in was && held == was[ProcObj(p) := was[ProcObj(p)] + 1]
      modifies `threads, `subs, `events, `queues, `place, `procs, `refs, `handles, `held, `log
      ensures Sane({}) && held == was && p in procs && procs[p] == Proc([], old(procs)[p].exitcode, false, false)
      ensures Aftermath(old(All()), All(), told, {ProcObj(p)}) && OthersKept(old(procs), procs, p)
    {
      ghost var a := All();
      Referred(ProcObj(p));
      ghost var t1 := FreeTables(p);
      ghost var b := All();
      ghost var t2 := Release(ProcObj(p));
      Unharmed(b, t2, p);
      AfterWider(b, All(), t2, {}, {ProcObj(p)});
      AfterTrans(a, b, All(), t1, t2, {ProcObj(p)});
      told := t2 + t1;
      OthersAfter(a, All(), told, {ProcObj(p)}, p);
    }

    // ----- kernel entries -----

    /** The object exists: somebody refers to it. */
    predicate Exists(obj: Obj)
      reads this
    {
      obj in refs && refs[obj] > 0
    }

    /** threadWait as a kernel entry. */
    method Wait(t: nat, obj: Obj) returns (blocks: bool)
      requires Sane({}) && t in threads && threads[t].process.Some? && !threads[t].blocked && Exists(obj)
      modifies `threads, `subs, `events, `queues, `place, `seen, `sems, `taken
      ensures Sane({}) && t in threads && threads == old(threads)[t := threads[t]]
      ensures blocks ==>
                threads[t] == old(threads)[t].(blocked := true, eax := 0) && Sleeps(Now(), Outside(), seen, t, obj)
      ensures !blocks ==> threads[t] == old(threads)[t].(eax := threads[t].eax)
      ensures !blocks ==> Answer(Now(), old(Outside()), Outside(), rank, obj, threads[t].eax)
      ensures blocks ==> Cleared(old(Now()), events, obj) && sems == old(sems)
      ensures !obj.EventObj? ==> Q(queues, WaitQ(obj)) == (if blocks then [T(t)] else []) + Q(old(queues), WaitQ(obj))
      ensures Kin(old(Now()), Now()) && OthersStay(old(Now()), Now(), t)
    {
      ghost var a, w := Now(), Outside();
      MayWait(obj);
      blocks := ThreadWait(t, obj);
      Waited(a, w, t, obj, blocks);
    }

    lemma MayWait(obj: Obj)
      requires Sane({}) && Exists(obj)
      ensures Steady() && Known(Now(), Outside(), obj) && (obj.EventObj? ==> obj.ev in rank)
      ensures Ledger(Now(), Outside(), Account(), {}) && events.Keys <= rank.Keys
    {
      assert Look(0);
      assert CountOk(Now(), Outside(), Account(), obj);
    }

    lemma Waited(a: Snap, w: World, t: nat, obj: Obj, blocks: bool)
      requires Steady() && Ledger(a, w, Account(), {}) && a.events.Keys <= rank.Keys && Exists(obj)
      requires Kin(a, Now()) && OthersStay(a, Now(), t) && w.procs == procs && w.sems.Keys == sems.Keys
               && w.devs == devs
      requires t in threads && (blocks ==> Sleeps(Now(), Outside(), seen, t, obj)) && (!blocks ==> !threads[t].blocked)
      ensures Sane({})
    {
      assert Look(0);
      assert ThreadOk(threads, place, t);
      WaitLedger(a, Now(), w, Outside(), Account(), t, obj);
    }

    /** __semaphoreSignal: the token goes to a waiter, or to the counter. */
    method SemSignal(s: nat)
      requires Sane({}) && s in sems
      modifies `threads, `subs, `events, `queues, `place, `sems, `given, `taken
      ensures Sane({})
      ensures if Q(old(queues), WaitQ(SemObj(s))) == []
              then Now() == old(Now()) && sems == old(sems)[s := (old(sems)[s] + 1) % WORD]
              else
                && sems == old(sems) && sems[s] == 0 && Roused(old(Now()), Now(), rank, WaitQ(SemObj(s)), false, 0)
                && Lined(old(queues), queues, WaitQ(SemObj(s)), false)
    {
      if Q(queues, WaitQ(SemObj(s))) == [] {
        AddToken(s);
      } else {
        PassToken(s);
        Rouse(SemObj(s), false, 0, {});
      }
    }

    method AddToken(s: nat)
      requires Sane({}) && s in sems && Q(queues, WaitQ(SemObj(s))) == []
      modifies `sems, `given
      ensures Sane({}) && sems == old(sems)[s := (old(sems)[s] + 1) % WORD]
    {
      assert Look(0);
      GiveBalanced(sems, given, taken, s);
      GiveRests(Now(), Outside(), rank, seen, s);
      WorldKeepsLedger(Now(), Outside(), Outside().(sems := sems[s := (sems[s] + 1) % WORD]), Account(), {});
      given, sems := given[s := given[s] + 1], sems[s := (sems[s] + 1) % WORD];
    }

    /** A token is given and taken at once; waiters only wait at zero. */
    ghost method PassToken(s: nat)
      requires Sane({}) && s in sems && Q(queues, WaitQ(SemObj(s))) != []
      modifies `given, `taken
      ensures Sane({}) && sems[s] == 0
    {
      assert Look(0);
      GiveBalanced(sems, given, taken, s);
      assert Calm(threads, queues, Outside(), SemObj(s));
      given, taken := given[s := given[s] + 1], taken[s := taken[s] + 1];
    }

    /** __eventSignal. */
    method EventSignal(e: nat, result: int)
      requires Sane({}) && e in events
      modifies `threads, `subs, `events, `queues, `place
      ensures Sane({})
      ensures Roused(WithStatus(old(Now()), e, 0), Now(), rank, WaitQ(EventObj(e)), old(events)[e].wakeAll, result)
      ensures Lined(old(queues), queues, WaitQ(EventObj(e)), old(events)[e].wakeAll)
    {
      ClearStatus(e);
      Rouse(EventObj(e), events[e].wakeAll, result, {});
    }

    method ClearStatus(e: nat)
      requires Sane({}) && e in events
      modifies `events
      ensures Sane({}) && Now() == WithStatus(old(Now()), e, 0)
    {
      assert Look(0);
      StatusKeeps(Now(), Outside(), rank, seen, e, 0);
      StatusLedger(Now(), Outside(), Account(), e, 0);
      events := events[e := events[e].(status := 0)];
    }

    /** __semaphoreShutdown and __eventShutdown: every waiter gives up with -1. */
    method Abort(obj: Obj)
      requires Sane({}) && Exists(obj) && (obj.SemObj? || obj.EventObj?)
      modifies `threads, `subs, `events, `queues, `place
      ensures Sane({}) && Roused(old(Now()), Now(), rank, WaitQ(obj), true, -1)
      ensures Lined(old(queues), queues, WaitQ(obj), true)
    {
      Rouse(obj, true, -1, {});
    }

    /** __threadSignal as a kernel entry: any thread may be woken from outside. */
    method Nudge(t: nat, eax: int)
      requires Sane({}) && t in threads
      modifies `threads, `queues, `place
      ensures Sane({})
      ensures if old(threads)[t].process.None? || !old(threads)[t].blocked then Now() == old(Now())
              else
                && T(t) in old(place) && Signalled(old(Now()), Now(), rank, T(t), eax)
                && Behind(old(queues), queues, T(t))
    {
      ghost var a := Now();
      SaneIsValid({});
      SignalThread(t, eax, {});
      if a.threads[t].process.Some? && a.threads[t].blocked {
        WakeKeeps(a, Now(), Outside(), Books(), Account(), {});
      }
    }

    /** A device changes: when it gets ready, everybody who waits for it is woken.  What they are told need not be
        what later waits get. */
    method DeviceTurns(d: nat, now: Option<int>, result: int)
      requires Sane({}) && d in devs
      modifies `threads, `subs, `events, `queues, `place, `devs, `late
      ensures Sane({}) && devs == old(devs)[d := now] && late == old(late) - {d}
      ensures now.None? ==> Now() == old(Now())
      ensures now.Some? ==> Fates(old(Now()), Now(), {}, map[DevObj(d) := result], result)
      ensures now.Some? ==> Roused(old(Now()), Now(), rank, WaitQ(DevObj(d)), true, result)
      ensures now.Some? ==> Lined(old(queues), queues, WaitQ(DevObj(d)), true)
    {
      MakeReady(d, now);
      if now.Some? {
        ghost var a := Now();
        SaneIsValid({});
        DevicePulse(d, true, result);
        SaneIsValid({});
        RousedFates(a, Now(), rank, seen, DevObj(d), result);
      }
    }

    /** A device changes and nobody is woken, as by a write to a timer: if it is ready then and somebody waits for it,
        it is late. */
    method MakeReady(d: nat, now: Option<int>)
      requires Sane({}) && d in devs
      modifies `devs, `late
      ensures Sane({}) && devs == old(devs)[d := now]
      ensures late == if now.Some? && Q(queues, WaitQ(DevObj(d))) != [] then old(late) + {d} else old(late) - {d}
    {
      SetDevice(d, now, now.Some? && Q(queues, WaitQ(DevObj(d))) != []);
    }

    method SetDevice(d: nat, now: Option<int>, ghost isLate: bool)
      requires Sane({}) && d in devs
      requires if isLate then now.Some? else now.None? || Q(queues, WaitQ(DevObj(d))) == []
      modifies `devs, `late
      ensures Sane({}) && Outside() == DeviceSet(old(Outside()), d, now, isLate)
    {
      assert Look(0);
      DeviceRests(Now(), Outside(), rank, seen, d, now, isLate);
      WorldKeepsLedger(Now(), Outside(), DeviceSet(Outside(), d, now, isLate), Account(), {});
      devs, late := devs[d := now], if isLate then late + {d} else late - {d};
    }

    /** One or all of the waiters of a device are woken; with the last of them it is not late any more. */
    method DevicePulse(d: nat, all: bool, result: int)
      requires Sane({}) && d in devs
      modifies `threads, `subs, `events, `queues, `place, `devs, `late
      ensures Sane({}) && Roused(old(Now()), Now(), rank, WaitQ(DevObj(d)), all, result)
      ensures Lined(old(queues), queues, WaitQ(DevObj(d)), all)
      ensures devs == old(devs) && late == if Q(queues, WaitQ(DevObj(d))) == [] then old(late) - {d} else old(late)
    {
      Rouse(DevObj(d), all, result, {});
      if Q(queues, WaitQ(DevObj(d))) == [] {
        SetDevice(d, devs[d], false);
        assert devs == old(devs);
      }
    }

    /** A timer without wakeupAll that does not repeat: it is ready for good and wakes one waiter.  Somebody is left
        asleep on it if and only if it had more than one. */
    method Expire(d: nat, result: int, answer: int)
      requires Sane({}) && d in devs
      modifies `threads, `subs, `events, `queues, `place, `devs, `late
      ensures Sane({}) && devs == old(devs)[d := Some(answer)]
      ensures Roused(old(Now()), Now(), rank, WaitQ(DevObj(d)), false, result)
      ensures Lined(old(queues), queues, WaitQ(DevObj(d)), false)
      ensures Q(queues, WaitQ(DevObj(d))) != [] <==> |Q(old(queues), WaitQ(DevObj(d)))| > 1
      ensures late == if |Q(old(queues), WaitQ(DevObj(d)))| > 1 then old(late) + {d} else old(late) - {d}
    {
      MakeReady(d, Some(answer));
      DevicePulse(d, false, result);
    }

    /** __eventAttachObj; the attached objects must not form a cycle. */
    method Attach(s: nat, e: nat, obj: Obj, ident: int, ghost order: map<nat, nat>)
      requires Sane({}) && s !in subs && e in events && Exists(obj)
      requires var k := WithSub(Now(), s, e, obj, ident); Acyclic(k.subs, k.events, order)
      modifies `subs, `events, `refs, `seen, `rank
      ensures Sane({}) && Now() == WithSub(old(Now()), s, e, obj, ident)
      ensures refs == Grabbed(old(refs), obj) && seen == Unseen(old(seen), s) && rank == order
    {
      Referred(obj);
      AttachKeeps(Now(), Outside(), Books(), Account(), s, e, obj, ident, order);
      Link(s, e, obj, ident, order);
    }

    method Link(s: nat, e: nat, obj: Obj, ident: int, ghost order: map<nat, nat>)
      requires e in events && obj in refs
      modifies `subs, `events, `refs, `seen, `rank
      ensures Now() == WithSub(old(Now()), s, e, obj, ident) && refs == Grabbed(old(refs), obj)
      ensures seen == Unseen(old(seen), s) && rank == order
    {
      subs, refs := subs[s := Sub(false, e, obj, ident)], Grabbed(refs, obj);
      events := events[e := events[e].(subs := events[e].subs + [s])];
      seen, rank := Unseen(seen, s), order;
    }

    /** __eventDetachObj through handle h of a running process: exactly the sub-events of the event with this
        identifier go.  Releasing their objects cannot destroy the event meanwhile, as the handle keeps it. */
    method Detach(h: Handle, ident: int) returns (found: bool, ghost told: map<Obj, int>)
      requires Sane({}) && h in handles && handles[h].EventObj? && h.pid in procs && procs[h.pid].threads != []
      modifies `threads, `subs, `events, `queues, `place, `held, `refs, `handles, `procs, `log
      ensures Sane({}) && held == old(held) && Detached(old(All()), All(), h, ident, told)
      ensures found <==> Matching(old(subs), old(handles)[h].ev, ident) != {}
    {
      var e := handles[h].ev;
      Handles(h);
      var list, i := events[e].subs, 0;
      ghost var a := All();
      SubList(e, ident);
      found, told := false, map[];
      AfterNone(a, {EventObj(e)});
      while i < |list|
        invariant Detaching(a, told, h, e, list, ident, i) && held == old(held)
        invariant found <==> MatchingIn(a.k.subs, list[..i], ident) != {}
      {
        MatchingStep(a.k.subs, list, i, ident);
        ghost var t2;
        var hit;
        hit, t2 := DetachNext(a, told, h, e, list, ident, i);
        found, told := found || hit, t2;
        i := i + 1;
      }
      assert list[..i] == list;
      PrunedAll(a.k, subs, e, ident);
    }

    /** The first i sub-events of event e have been looked at. */
    ghost predicate Detaching(a: State, told: map<Obj, int>, h: Handle, e: nat, list: seq<nat>, ident: int, i: nat)
      reads this
    {
      && i <= |list| && NoDup(list) && (forall s :: s in list ==> s in a.k.subs && a.k.subs[s].event == e)
      && Sane({}) && Aftermath(a, All(), told, {EventObj(e)}) && PrunedTo(a.k.subs, subs, list, ident, i)
      && h in handles && handles[h] == EventObj(e) && h.pid in procs && procs[h.pid].threads != []
    }

    method DetachNext(ghost a: State, ghost told: map<Obj, int>, h: Handle, e: nat, list: seq<nat>, ident: int, i: nat)
      returns (hit: bool, ghost told': map<Obj, int>)
      requires Detaching(a, told, h, e, list, ident, i) && i < |list|
      modifies `threads, `subs, `events, `queues, `place, `held, `refs, `handles, `procs, `log
      ensures Detaching(a, told', h, e, list, ident, i + 1) && held == old(held)
              && (hit <==> a.k.subs[list[i]].ident == ident)
    {
      assert PrunedAt(a.k.subs, subs, list, ident, i, i);
      var s := list[i];
      hit, told' := subs[s].ident == ident, told;
      if hit {
        ghost var b := All();
        ghost var t2 := DetachOne(h, s);
        PrunedStep(a.k.subs, b, All(), list, ident, i, e, t2);
        AfterTrans(a, b, All(), told, t2, {EventObj(e)});
        told' := t2 + told;
      } else {
        PrunedSkip(a.k.subs, subs, list, ident, i);
      }
    }

    method DetachOne(h: Handle, s: nat) returns (ghost told: map<Obj, int>)
      requires Sane({}) && h in handles && handles[h].EventObj? && h.pid in procs && procs[h.pid].threads != []
      requires s in subs && subs[s].event == handles[h].ev
      modifies `threads, `subs, `events, `queues, `place, `held, `refs, `handles, `procs, `log
      ensures Sane({}) && held == old(held) && Aftermath(old(All()), All(), told, {old(handles)[h]})
      ensures h in handles && handles[h] == old(handles)[h] && h.pid in procs && procs[h.pid].threads != []
      ensures s !in subs && Remains(old(subs), subs, handles[h].ev, {s})
    {
      ghost var a, e := All(), EventObj(subs[s].event);
      var o := CutLoose(s);
      ghost var b := All();
      told := ReleaseWith(h, o);
      AfterThen(a, b, All(), told, {e});
      RemainsCut(a.k, subs, s);
    }

    /** Releasing what an event was attached to leaves the event and its other sub-events alone. */
    method ReleaseWith(h: Handle, o: Obj) returns (ghost told: map<Obj, int>)
      requires Sane({}) && o in refs && o in held && held[o] > 0
      requires h in handles && handles[h].EventObj? && h.pid in procs && procs[h.pid].threads != []
      modifies `threads, `subs, `events, `queues, `place, `held, `refs, `handles, `procs, `log
      ensures Sane({}) && o in old(held) && held == old(held)[o := old(held)[o] - 1]
              && Aftermath(old(All()), All(), told, {})
      ensures h in handles && handles[h] == old(handles)[h] && h.pid in procs && procs[h.pid].threads != []
      ensures Remains(old(subs), subs, handles[h].ev, {})
    {
      ghost var b := All();
      Handles(h);
      told := Release(o);
      KeptByHandle(b, told, h);
      RemainsSpared(b, All(), told, handles[h].ev);
    }

    /** A handle of a process with threads stays, and so does its object. */
    lemma KeptByHandle(b: State, told: map<Obj, int>, h: Handle)
      requires Sane({}) && Aftermath(b, All(), told, {}) && h in b.t.handles && h.pid in b.w.procs
               && b.w.procs[h.pid].threads != []
      requires ProcObj(h.pid) in b.t.refs && b.t.handles[h] in b.t.refs
      ensures h.pid in procs && procs[h.pid] == b.w.procs[h.pid] && h in handles && handles[h] == b.t.handles[h]
      ensures Spared(b, All(), {}, handles[h])
    {
      assert Peek(0);
      assert Look(0);
      assert ProcAfter(b.w.procs, procs, h.pid);
      assert CountOk(Now(), Outside(), Account(), ProcObj(h.pid)) && HandleAfter(b, All(), {}, h);
      assert h in Uses(handles, handles[h]);
      assert CountOk(Now(), Outside(), Account(), handles[h]) && ObjAfter(b, All(), {}, handles[h]);
    }

    lemma Handles(h: Handle)
      requires Sane({}) && h in handles
      ensures handles[h] in refs && Known(Now(), Outside(), handles[h]) && h.pid in procs && ProcObj(h.pid) in refs
    {
      assert Look(0);
      assert HandleOk(procs, Account(), h);
      assert CountOk(Now(), Outside(), Account(), handles[h]) && CountOk(Now(), Outside(), Account(), ProcObj(h.pid));
    }

    lemma SubList(e: nat, ident: int)
      requires Sane({}) && e in events
      ensures Attached(subs, events) && NoDup(events[e].subs) && forall s ::
                s in events[e].subs ==> s in subs && subs[s].event == e
      ensures MatchingIn(subs, events[e].subs, ident) == Matching(subs, e, ident)
    {
      assert Look(0);
      MatchingAll(Now(), e, ident);
      assert Lists(subs, events, e);
    }

    // ----- new objects; the identity of the new object is its address, the creator holds a reference -----

    /** threadCreate, as far as lists and references go. */
    method NewThread(t: nat, p: nat)
      requires Sane({}) && t !in threads && p in procs && procs[p].paged && procs[p].handled
      modifies `threads, `queues, `place, `procs, `refs, `held, `log
      ensures Sane({}) && Now() == WithThread(old(Now()), t, p) && procs == Joined(old(procs), p, t)
      ensures ProcObj(p) in old(refs) && Account() == BornTally(old(Account()), t, p)
    {
      ThreadKeeps(Now(), Outside(), Books(), Account(), t, p);
      AddThread(t, p);
    }

    method AddThread(t: nat, p: nat)
      requires p in procs && ProcObj(p) in refs
      modifies `threads, `queues, `place, `procs, `refs, `held, `log
      ensures Now() == WithThread(old(Now()), t, p) && procs == Joined(old(procs), p, t)
      ensures Account() == BornTally(old(Account()), t, p)
    {
      AddRunnable(t, p);
      AddMember(t, p);
    }

    method AddRunnable(t: nat, p: nat)
      modifies `threads, `queues, `place
      ensures Now() == WithThread(old(Now()), t, p)
    {
      threads := threads[t := Thread(false, Some(p), 0, -1)];
      queues, place := queues[RunQ := Q(queues, RunQ) + [T(t)]], place[T(t) := RunQ];
    }

    method AddMember(t: nat, p: nat)
      requires p in procs && ProcObj(p) in refs
      modifies `procs, `refs, `held, `log
      ensures procs == Joined(old(procs), p, t) && Account() == BornTally(old(Account()), t, p)
    {
      procs := Joined(procs, p, t);
      refs := refs[ThreadObj(t) := 2][ProcObj(p) := refs[ProcObj(p)] + 1];
      held, log := held[ThreadObj(t) := 1], log.(ended := log.ended[t := 0]);
    }

    /** processCreate without an original. */
    method NewProcess(p: nat)
      requires Sane({}) && p !in procs
      modifies `procs, `refs, `held, `log
      ensures Sane({}) && procs == old(procs)[p := Proc([], -1, true, true)]
      ensures Account() == NewcomerTally(old(Account()), p)
    {
      ProcessKeeps(Now(), Outside(), Books(), Account(), p);
      AddProcess(p);
    }

    method AddProcess(p: nat)
      modifies `procs, `refs, `held, `log
      ensures procs == old(procs)[p := FRESH] && Account() == NewcomerTally(old(Account()), p)
    {
      procs, refs, held := procs[p := Proc([], -1, true, true)], refs[ProcObj(p) := 1], held[ProcObj(p) := 1];
      log := log.(tables := log.tables[p := 0], handles := log.handles[p := 0]);
    }

    /** __objectInit. */
    method AddObject(o: Obj)
      modifies `refs, `held
      ensures Account() == NewTally(old(Account()), o)
    {
      refs, held := refs[o := 1], held[o := 1];
    }

    /** handleForkTable: the child has the same objects under the same handles, with references of its own. */
    method ForkHandles(from: nat, p: nat)
      requires Sane({}) && from != p && p in procs && procs[p].handled && forall h :: h in handles ==> h.pid != p
      modifies `refs, `handles
      ensures Sane({}) && ForkedTo(old(handles), handles, from, p, {})
    {
      ghost var was := handles;
      var rest := set h | h in handles && h.pid == from;
      while rest != {}
        invariant Sane({}) && ForkedTo(was, handles, from, p, rest)
      {
        var h :| h in rest;
        ForkedStep(was, handles, from, p, rest, h);
        Handles(h);
        OpenHandle(Handle(p, h.slot), handles[h]);
        rest := rest - {h};
      }
    }

    method NewSemaphore(s: nat, value: nat)
      requires Sane({}) && s !in sems && value < WORD
      modifies `sems, `given, `taken, `refs, `held
      ensures Sane({}) && sems == old(sems)[s := value] && given == old(given)[s := value]
              && taken == old(taken)[s := 0]
      ensures Account() == NewTally(old(Account()), SemObj(s))
    {
      SemaphoreKeeps(Now(), Outside(), Books(), Account(), s, value);
      AddSemaphore(s, value);
    }

    method AddSemaphore(s: nat, value: nat)
      modifies `sems, `given, `taken, `refs, `held
      ensures sems == old(sems)[s := value] && Account() == NewTally(old(Account()), SemObj(s))
      ensures Books() == old(Books()).(given := old(given)[s := value], taken := old(taken)[s := 0])
    {
      sems, given, taken := sems[s := value], given[s := value], taken[s := 0];
      AddObject(SemObj(s));
    }

    method NewEvent(e: nat, wakeAll: bool)
      requires Sane({}) && e !in events
      modifies `events, `rank, `refs, `held
      ensures Sane({}) && events == old(events)[e := Event(wakeAll, 0, [])]
      ensures Account() == NewTally(old(Account()), EventObj(e)) && rank == old(rank)[e := 0]
    {
      EventKeeps(Now(), Outside(), Books(), Account(), e, wakeAll);
      AddEvent(e, wakeAll);
    }

    method AddEvent(e: nat, wakeAll: bool)
      modifies `events, `rank, `refs, `held
      ensures Now() == old(Now()).(events := old(events)[e := Event(wakeAll, 0, [])]) && rank == old(rank)[e := 0]
      ensures Account() == NewTally(old(Account()), EventObj(e))
    {
      events, rank := events[e := Event(wakeAll, 0, [])], rank[e := 0];
      AddObject(EventObj(e));
    }

    method NewDevice(d: nat, now: Option<int>)
      requires Sane({}) && d !in devs
      modifies `devs, `refs, `held
      ensures Sane({}) && devs == old(devs)[d := now]
      ensures Exists(DevObj(d)) && Account() == NewTally(old(Account()), DevObj(d))
    {
      DeviceKeeps(Now(), Outside(), Books(), Account(), d, now);
      devs := devs[d := now];
      AddObject(DevObj(d));
    }

    constructor ()
      ensures Sane({}) && Settled(held)
      ensures threads == map[] && events == map[] && procs == map[] && sems == map[] && devs == map[] && queues == map[]
              && handles == map[]
    {
      threads, subs, events, queues, procs, sems, devs, refs := map[], map[], map[], map[], map[], map[], map[], map[];
      handles := map[];
      given, taken, place, seen, rank, held, log := map[], map[], map[], map[], map[], map[], Log(map[], map[], map[]);
      late := {};
    }

    // ----- killing a process -----

    /** Killing a process: each of its threads ends exactly once, its page and handle tables are freed exactly once
        over the life of the process, every reference of its handles is given back, and whoever waited for it or for
        one of its threads goes on with the exit code. */
    method Kill(p: nat, code: int) returns (ghost told: map<Obj, int>)
      requires Sane({}) && p in procs
      modifies `threads, `subs, `events, `queues, `place, `procs, `refs, `handles, `held, `log
      ensures Sane({}) && held == old(held) && p in procs && procs[p] == Proc([], code, false, false)
      ensures OthersKept(old(procs), procs, p) && forall h :: h in handles ==> h.pid != p
      ensures Killed(old(Now()), old(log), Now(), log, p, old(procs)[p].threads, code)
      ensures p in log.tables && log.tables[p] == 1 && p in log.handles && log.handles[p] == 1
      ensures Q(queues, WaitQ(ProcObj(p))) == []
      ensures var was := old(procs)[p].threads;
              Fates(old(Now()), Now(), Elems(was), told, code)
                  && Tells(told, {ProcObj(p)} + ThreadObjs(was), code, refs)
    {
      ghost var a, log0, was := Now(), log, procs[p].threads;
      Weaken(ProcObj(p));
      MembersOnce(p);
      told := ProcessShutdown(p, code);
      EachOnce();
      TellsEnded(told, {ProcObj(p)} + ThreadObjs(was), code, refs);
      KilledAll(a, log0, Now(), log, p, was, code, told);
      Gone(p);
    }

    lemma Weaken(o: Obj)
      requires Sane({})
      ensures Sane({o})
    {
      assert Look(0);
      assert forall x :: x !in {o} ==> Calm(threads, queues, Outside(), x);
      TendedLess(Now(), Outside(), Account(), {o});
    }

    lemma EachOnce()
      requires Sane({})
      ensures forall t :: t in threads ==> EndedOnce(threads, log, t)
    {
      assert Look(0);
    }

    lemma MembersOnce(p: nat)
      requires Sane({}) && p in procs
      ensures AliveIn(Now(), log, p, procs[p].threads)
    {
      assert Look(0);
      assert MembersOf(threads, procs, p);
      assert forall t :: t in threads ==> EndedOnce(threads, log, t);
    }

    lemma Gone(p: nat)
      requires Sane({}) && p in procs && procs[p].threads == []
      ensures p in log.tables && log.tables[p] == One(!procs[p].paged) && p in log.handles
              && log.handles[p] == One(!procs[p].handled)
      ensures Q(queues, WaitQ(ProcObj(p))) == [] && (!procs[p].handled ==> forall h :: h in handles ==> h.pid != p)
    {
      assert Look(0);
      assert FreedOnce(procs, log, p) && Calm(threads, queues, Outside(), ProcObj(p));
      assert forall h :: h in handles ==> HandleOk(procs, Account(), h);
    }

    /** Between kernel entries a reference count is the number of attachments and handles that name the object, plus
        what live threads hold; an object is destroyed exactly if there are none. */
    lemma NoReferenceLost(o: Obj)
      requires Sane({}) && Settled(held) && o in refs
      ensures refs[o] == |Watchers(subs, o)| + |Uses(handles, o)| + Life(threads, procs, o)
      ensures Exists(o) <==> Watchers(subs, o) != {} || Uses(handles, o) != {} || Life(threads, procs, o) > 0
    {
      assert Look(0);
      assert CountOk(Now(), Outside(), Account(), o);
    }

    // ----- runs -----

    /** The creator's reference goes; a handle is made if the process has a handle table and the slot is free. */
    method HandOver(o: Obj, h: Handle)
      requires Sane({}) && o in refs && o in held && held[o] > 0
      modifies `threads, `subs, `events, `queues, `place, `procs, `refs, `handles, `held, `log
      ensures Sane({}) && o in old(held) && held == old(held)[o := old(held)[o] - 1]
      ensures Made(old(All()), All(), o, h)
    {
      ghost var a := All();
      GiveHandle(o, h);
      ghost var told := Release(o);
      assert HandedOver(a, All(), o, h, told);
    }

    method GiveHandle(o: Obj, h: Handle)
      requires Sane({}) && o in refs
      modifies `refs, `handles
      ensures Sane({}) && All() == Given(old(All()), o, h)
    {
      if Tabled(procs, h.pid) && h !in handles {
        OpenHandle(h, o);
      }
    }

    /** The creator's references to a new process and its thread are never the last ones. */
    method ReleasePair(t: nat, p: nat)
      requires Sane({}) && t in threads && threads[t].process == Some(p) && p in procs
      requires var a, b := ThreadObj(t), ProcObj(p); a in held && b in held && held[a] > 0 && held[b] > 0
      modifies `threads, `subs, `events, `queues, `place, `procs, `refs, `handles, `held, `log
      ensures Sane({}) && Now() == old(Now()) && procs == old(procs) && handles == old(handles)
      ensures var a, b := ThreadObj(t), ProcObj(p);
              a in old(held) && b in old(held) && held == old(held)[a := old(held)[a] - 1][b := old(held)[b] - 1]
    {
      Anchored(t, p);
      ghost var told := Release(ThreadObj(t));
      Anchored(t, p);
      told := Release(ProcObj(p));
    }

    lemma Anchored(t: nat, p: nat)
      requires Sane({}) && t in threads && threads[t].process == Some(p) && p in procs
      ensures ThreadObj(t) in refs && ThreadObj(t) in held && refs[ThreadObj(t)] > held[ThreadObj(t)]
      ensures ProcObj(p) in refs && ProcObj(p) in held && refs[ProcObj(p)] > held[ProcObj(p)]
    {
      assert Look(0);
      assert CountOk(Now(), Outside(), Account(), ThreadObj(t)) && CountOk(Now(), Outside(), Account(), ProcObj(p));
      assert MembersOf(threads, procs, p);
    }

    /** handleSet: the new object is in the slot before the old one is released.  It stays there if the process has
        threads; otherwise the release might destroy the process. */
    method SetHandle(h: Handle, o: Obj) returns (ghost told: map<Obj, int>)
      requires Sane({}) && o in refs && h.pid in procs && procs[h.pid].handled
      modifies `threads, `subs, `events, `queues, `place, `procs, `refs, `handles, `held, `log
      ensures Sane({}) && held == old(held) && (h in handles ==> handles[h] == o)
      ensures old(procs)[h.pid].threads != [] ==> h in handles
      ensures Replaced(old(All()), All(), h, o, told)
    {
      told := map[];
      if h in handles {
        told := Exchange(h, o);
      } else {
        OpenHandle(h, o);
      }
    }

    method Exchange(h: Handle, o: Obj) returns (ghost told: map<Obj, int>)
      requires Sane({}) && o in refs && h in handles && h.pid in procs && procs[h.pid].handled
      modifies `threads, `subs, `events, `queues, `place, `procs, `refs, `handles, `held, `log
      ensures Sane({}) && held == old(held) && (h in handles ==> handles[h] == o)
      ensures old(procs)[h.pid].threads != [] ==> h in handles
      ensures Replaced(old(All()), All(), h, o, told)
    {
      ghost var was := held;
      var old_object := Swap(h, o);
      HandBack(was, old_object);
      Handles(h);
      ghost var b := All();
      told := Release(old_object);
      SlotAfter(b, told, h);
    }

    /** The slot has the new object; kernel code has the reference to the old one. */
    method Swap(h: Handle, o: Obj) returns (was: Obj)
      requires Sane({}) && o in refs && h in handles && h.pid in procs && procs[h.pid].handled
      modifies `refs, `handles, `held
      ensures Sane({}) && was == old(handles)[h] && was in old(refs) && was in old(held)
      ensures All() == Swapped(old(All()), h, o)
    {
      was := handles[h];
      Vacate(h);
      OpenHandle(h, o);
      assert (old(handles) - {h})[h := o] == old(handles)[h := o];
    }

    lemma SlotAfter(b: State, told: map<Obj, int>, h: Handle)
      requires Sane({}) && Aftermath(b, All(), told, {}) && h in b.t.handles && h.pid in b.w.procs
      requires ProcObj(h.pid) in b.t.refs && b.t.handles[h] in b.t.refs
      ensures h in handles ==> handles[h] == b.t.handles[h]
      ensures b.w.procs[h.pid].threads != [] ==> h in handles
    {
      assert Peek(0);
      assert HandleAfter(b, All(), {}, h);
      if b.w.procs[h.pid].threads != [] { KeptByHandle(b, told, h); }
    }

    /** One kernel entry; what the caller may not ask for is ignored. */
    method Enter(c: Call)
      requires Sane({}) && Settled(held)
      modifies this
      ensures Sane({}) && Settled(held) && Done(old(Here()), Here(), c)
    {
      ghost var a := Here();
      if !May(threads, subs, events, procs, sems, devs, refs, handles, c) {
        Ignored(a, c);
      } else if Signals(c) {
        Perform(c);
        DonePerformed(a, Here(), c);
      } else if Creates(c) {
        Create(c);
        DoneCreated(a, Here(), c);
      } else {
        Manage(c);
        DoneManaged(a, Here(), c);
      }
    }

    method Perform(c: Call)
      requires Sane({}) && Settled(held) && MayAt(All(), c) && Signals(c)
      modifies this
      ensures Sane({}) && Settled(held) && Performed(old(Here()), Here(), c)
    {
      match c
      case WaitFor(t, obj) => OnWait(t, obj);
      case SignalSemaphore(s) => OnSemaphore(s);
      case SignalEvent(e, result) => OnEvent(e, result);
      case SignalThreadObj(t, eax) => OnNudge(t, eax);
      case Cancel(obj) => OnCancel(obj);
      case Turn(d, now, result) => OnTurn(d, now, result);
      case Change(d, now) => OnChange(d, now);
      case Pulse(d, all, result) => OnPulse(d, all, result);
      case RunOut(d, result, answer) => OnRunOut(d, result, answer);
    }

    method Manage(c: Call)
      requires Sane({}) && Settled(held) && MayAt(All(), c) && !Signals(c) && !Creates(c)
      modifies this
      ensures Sane({}) && Settled(held) && Managed(old(Here()), Here(), c)
    {
      match c
      case EndOfThread(t, code) => OnThreadEnd(t, code);
      case EndOfProcess(p, code) => OnProcessEnd(p, code);
      case Open(h, obj) => OnOpen(h, obj);
      case Put(h, obj) => OnPut(h, obj);
      case Close(h) => OnClose(h);
      case AttachTo(s, e, obj, ident, order) => OnAttach(s, e, obj, ident, order);
      case DetachFrom(h, ident) => OnDetach(h, ident);
    }

    method Create(c: Call)
      requires Sane({}) && Settled(held) && MayAt(All(), c) && Creates(c)
      modifies this
      ensures Sane({}) && Settled(held) && Created(old(Here()), Here(), c)
    {
      match c
      case CreateThread(t, p, h) => OnThread(t, p, h);
      case CreateProcess(p, from, t, h) => OnFork(p, from, t, h);
      case CreateSemaphore(s, value, h) => OnNewSemaphore(s, value, h);
      case CreateEvent(e, wakeAll, h) => OnNewEvent(e, wakeAll, h);
      case CreateDevice(d, now, h) => OnNewDevice(d, now, h);
    }

    method OnWait(t: nat, obj: Obj)
      requires Sane({}) && Settled(held) && t in threads && threads[t].process.Some? && !threads[t].blocked
               && Exists(obj)
      modifies this
      ensures Sane({}) && Settled(held) && WaitDone(old(Here()), Here(), t, obj)
    {
      var _ := Wait(t, obj);
    }

    method OnSemaphore(s: nat)
      requires Sane({}) && Settled(held) && s in sems
      modifies this
      ensures Sane({}) && Settled(held) && SemaphoreDone(old(Here()), Here(), s)
    {
      SemSignal(s);
    }

    method OnEvent(e: nat, result: int)
      requires Sane({}) && Settled(held) && e in events
      modifies this
      ensures Sane({}) && Settled(held) && EventDone(old(Here()), Here(), e, result)
    {
      EventSignal(e, result);
    }

    method OnNudge(t: nat, eax: int)
      requires Sane({}) && Settled(held) && t in threads
      modifies this
      ensures Sane({}) && Settled(held) && NudgeDone(old(Here()), Here(), t, eax)
    {
      Nudge(t, eax);
    }

    method OnCancel(obj: Obj)
      requires Sane({}) && Settled(held) && Exists(obj) && (obj.SemObj? || obj.EventObj?)
      modifies this
      ensures Sane({}) && Settled(held) && CancelDone(old(Here()), Here(), obj)
    {
      Abort(obj);
    }

    method OnTurn(d: nat, now: Option<int>, result: int)
      requires Sane({}) && Settled(held) && d in devs
      modifies this
      ensures Sane({}) && Settled(held) && TurnDone(old(Here()), Here(), d, now, result)
    {
      DeviceTurns(d, now, result);
    }

    method OnChange(d: nat, now: Option<int>)
      requires Sane({}) && Settled(held) && d in devs
      modifies this
      ensures Sane({}) && Settled(held) && ChangeDone(old(Here()), Here(), d, now)
    {
      MakeReady(d, now);
    }

    method OnPulse(d: nat, all: bool, result: int)
      requires Sane({}) && Settled(held) && d in devs
      modifies this
      ensures Sane({}) && Settled(held) && PulseDone(old(Here()), Here(), d, all, result)
    {
      DevicePulse(d, all, result);
    }

    method OnRunOut(d: nat, result: int, answer: int)
      requires Sane({}) && Settled(held) && d in devs
      modifies this
      ensures Sane({}) && Settled(held) && RunOutDone(old(Here()), Here(), d, result, answer)
    {
      Expire(d, result, answer);
    }

    method OnThreadEnd(t: nat, code: int)
      requires Sane({}) && Settled(held) && t in threads
      modifies this
      ensures Sane({}) && Settled(held) && ThreadEndDone(old(Here()), Here(), t, code)
    {
      ghost var told := ThreadShutdown(t, code);
      assert ThreadEnded(old(All()), All(), t, code, told);
    }

    method OnProcessEnd(p: nat, code: int)
      requires Sane({}) && Settled(held) && p in procs
      modifies this
      ensures Sane({}) && Settled(held) && ProcessEndDone(old(Here()), Here(), p, code)
    {
      ghost var told := Kill(p, code);
      assert ProcessEnded(old(All()), All(), p, code, told);
    }

    method OnOpen(h: Handle, obj: Obj)
      requires Sane({}) && Settled(held) && Exists(obj) && h !in handles && Tabled(procs, h.pid)
      modifies this
      ensures Sane({}) && Settled(held) && OpenDone(old(Here()), Here(), h, obj)
    {
      OpenHandle(h, obj);
    }

    method OnPut(h: Handle, obj: Obj)
      requires Sane({}) && Settled(held) && Exists(obj) && Tabled(procs, h.pid)
      modifies this
      ensures Sane({}) && Settled(held) && PutDone(old(Here()), Here(), h, obj)
    {
      ghost var a := Here();
      ghost var told := SetHandle(h, obj);
      PutIs(a, Here(), h, obj, told);
    }

    method OnClose(h: Handle)
      requires Sane({}) && Settled(held) && h in handles
      modifies this
      ensures Sane({}) && Settled(held) && CloseDone(old(Here()), Here(), h)
    {
      ghost var a := Here();
      ghost var told := CloseHandle(h);
      CloseIs(a, Here(), h, told);
    }

    method OnAttach(s: nat, e: nat, obj: Obj, ident: int, order: map<nat, nat>)
      requires Sane({}) && Settled(held) && s !in subs && e in events && Exists(obj)
      requires var k := WithSub(Now(), s, e, obj, ident); Acyclic(k.subs, k.events, order)
      modifies this
      ensures Sane({}) && Settled(held) && AttachDone(old(Here()), Here(), s, e, obj, ident, order)
    {
      Attach(s, e, obj, ident, order);
    }

    method OnDetach(h: Handle, ident: int)
      requires Sane({}) && Settled(held) && h in handles && handles[h].EventObj? && h.pid in procs
               && procs[h.pid].threads != []
      modifies this
      ensures Sane({}) && Settled(held) && DetachDone(old(Here()), Here(), h, ident)
    {
      ghost var a := Here();
      var found;
      ghost var told;
      found, told := Detach(h, ident);
      DetachIs(a, Here(), h, ident, told);
    }

    method OnThread(t: nat, p: nat, h: Handle)
      requires Sane({}) && Settled(held) && t !in threads && p in procs && procs[p].paged && procs[p].handled
      modifies this
      ensures Sane({}) && Settled(held) && ThreadDone(old(Here()), Here(), t, p, h)
    {
      ghost var a := Here();
      StartThread(t, p);
      ghost var m := All();
      HandOver(ThreadObj(t), h);
      ThreadThere(a, m, Here(), t, p, h);
    }

    method StartThread(t: nat, p: nat)
      requires Sane({}) && t !in threads && p in procs && procs[p].paged && procs[p].handled
      modifies `threads, `queues, `place, `procs, `refs, `held, `log
      ensures Sane({}) && Begun(old(All()), All(), t, p)
      ensures ThreadObj(t) in refs && held == old(held)[ThreadObj(t) := 1]
    {
      NewThread(t, p);
    }

    method OnNewSemaphore(s: nat, value: nat, h: Handle)
      requires Sane({}) && Settled(held) && s !in sems && value < WORD
      modifies this
      ensures Sane({}) && Settled(held) && SemaphoreMade(old(Here()), Here(), s, value, h)
    {
      ghost var a := Here();
      NewSemaphore(s, value);
      ghost var m := All();
      assert m == WithSem(a.s, s, value);
      HandOver(SemObj(s), h);
      SemaphoreThere(a, m, Here(), s, value, h);
    }

    method OnNewEvent(e: nat, wakeAll: bool, h: Handle)
      requires Sane({}) && Settled(held) && e !in events
      modifies this
      ensures Sane({}) && Settled(held) && EventMade(old(Here()), Here(), e, wakeAll, h)
    {
      ghost var a := Here();
      NewEvent(e, wakeAll);
      ghost var m := All();
      assert m == WithEvent(a.s, e, wakeAll);
      HandOver(EventObj(e), h);
      EventThere(a, m, Here(), e, wakeAll, h);
    }

    method OnNewDevice(d: nat, now: Option<int>, h: Handle)
      requires Sane({}) && Settled(held) && d !in devs
      modifies this
      ensures Sane({}) && Settled(held) && DeviceMade(old(Here()), Here(), d, now, h)
    {
      ghost var a := Here();
      NewDevice(d, now);
      ghost var m := All();
      assert m == WithDevice(a.s, d, now);
      HandOver(DevObj(d), h);
      DeviceThere(a, m, Here(), d, now, h);
    }

    method OnFork(p: nat, from: Option<nat>, t: nat, h: Handle)
      requires Sane({}) && Settled(held) && p !in procs && t !in threads
      modifies this
      ensures Sane({}) && Settled(held) && ForkDone(old(Here()), Here(), p, from, t, h)
    {
      Spawn(p, from, t, h);
    }

    /** fork, or the start of the first process: a process with one thread. */
    method Spawn(p: nat, from: Option<nat>, t: nat, h: Handle)
      requires Sane({}) && Settled(held) && p !in procs && t !in threads
      modifies `threads, `subs, `events, `queues, `place, `procs, `refs, `handles, `held, `log
      ensures Sane({}) && Settled(held)
      ensures exists hs :: Spawned(old(All()), All(), p, from, t, h, hs)
    {
      Beget(p, from, t);
      ghost var hs := handles;
      Referred(ProcObj(p));
      GiveHandle(ProcObj(p), h);
      ReleasePair(t, p);
      assert Spawned(old(All()), All(), p, from, t, h, hs);
    }

    /** processCreate and threadCreate; the creator holds a reference to both. */
    method Beget(p: nat, from: Option<nat>, t: nat)
      requires Sane({}) && p !in procs && t !in threads
      modifies `threads, `queues, `place, `procs, `refs, `held, `log, `handles
      ensures Sane({}) && Now() == WithThread(old(Now()), t, p) && procs == Joined(old(procs)[p := FRESH], p, t)
      ensures held == old(held)[ProcObj(p) := 1][ThreadObj(t) := 1] && Bequeathed(old(handles), handles, from, p)
    {
      NobodyYet(p);
      NewProcess(p);
      if from.Some? && from.value != p {
        ForkHandles(from.value, p);
      }
      NewThread(t, p);
    }

    lemma NobodyYet(p: nat)
      requires Sane({}) && p !in procs
      ensures forall h :: h in handles ==> h.pid != p
    {
      assert Look(0);
      assert forall h :: h in handles ==> HandleOk(procs, Account(), h);
    }

    /** The invariant holds after every kernel entry of every run, kernel code keeps no reference for itself, and each
        entry does what it is for and nothing else. */
    method Run(calls: seq<Call>) returns (ghost trace: seq<Point>)
      requires Sane({}) && Settled(held)
      modifies this
      ensures Sane({}) && Settled(held)
      ensures Traced(calls, trace) && trace[0] == old(Here()) && trace[|calls|] == Here()
    {
      trace := [Here()];
      for i := 0 to |calls|
        invariant Sane({}) && Settled(held)
        invariant Traced(calls[..i], trace) && trace[0] == old(Here()) && trace[i] == Here()
      {
        Enter(calls[i]);
        TracedNext(calls, trace, i, Here());
        trace := trace + [Here()];
      }
      assert calls[..|calls|] == calls;
    }
  }
}
