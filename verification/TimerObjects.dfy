/** timer.c with both its sides: the timers of the clock are devices that threads of the kernel wait for. */
module TimerObjects {
  import opened Sequences
  import opened WaitQueues
  import KernelObjects
  import Timers

  /** What a wait for the timer answers, if it answers at once. */
  function Answers(tm: Timers.Timer, now: nat): Option<nat> {
    if tm.timeout > now then None
    else if tm.interval > 0 then Some(Timers.Counted(tm, now))
    else Some(if tm.active then 1 else 0)
  }

  /** From a to b the waiters of device d, all or the first, were woken with n. */
  ghost predicate Served(a: Snap, b: Snap, d: nat, all: bool, n: int) {
    var was := Q(a.queues, WaitQ(DevObj(d)));
    if all || was == [] then Q(b.queues, WaitQ(DevObj(d))) == [] && AllWoken(a, b, was, n)
    else Q(b.queues, WaitQ(DevObj(d))) == was[1..] && AllWoken(a, b, was[..1], n)
  }

  /** Nothing has happened to who waits for the device. */
  predicate Unserved(a: Snap, b: Snap, d: nat) { Q(b.queues, WaitQ(DevObj(d))) == Q(a.queues, WaitQ(DevObj(d))) }

  /** Whoever still hangs in a queue has not been woken. */
  lemma StillAsleep(a: Snap, b: Snap, rank: map<nat, nat>, seen: map<Node, set<nat>>, d: nat, n: Node)
    requires Sound(a, rank, seen, {}) && Sound(b, rank, seen, {}) && Effects(a, b) && Unserved(a, b, d)
    requires n in Q(a.queues, WaitQ(DevObj(d)))
    ensures n.T? ==> n.tid in a.threads && n.tid in b.threads && b.threads[n.tid] == a.threads[n.tid]
  {
    assert QueueOk(a.queues, a.place, WaitQ(DevObj(d))) && QueueOk(b.queues, b.place, WaitQ(DevObj(d)));
    match n
    case T(t) =>
      assert ThreadOk(a.threads, a.place, t) && ThreadOk(b.threads, b.place, t);
      assert Woken(a.threads[t], b.threads[t]);
    case S(_) =>
  }

  lemma ServedNow(a: Snap, b: Snap, c: Snap, rank: map<nat, nat>, seen: map<Node, set<nat>>, d: nat, all: bool, n: int)
    requires Sound(a, rank, seen, {}) && Sound(b, rank, seen, {}) && Effects(a, b) && Unserved(a, b, d)
    requires Roused(b, c, rank, WaitQ(DevObj(d)), all, n)
    ensures Served(a, c, d, all, n)
  {
    var was := Q(a.queues, WaitQ(DevObj(d)));
    forall x | x in was && WokenNode(b, c, x, n)
      ensures WokenNode(a, c, x, n)
    {
      StillAsleep(a, b, rank, seen, d, x);
    }
  }

  lemma ServedStays(a: Snap, b: Snap, c: Snap, rank: map<nat, nat>, d: nat, all: bool, n: int, e: nat, all': bool,
                    m: int)
    requires Served(a, b, d, all, n) && e != d && Roused(b, c, rank, WaitQ(DevObj(e)), all', m)
    ensures Served(a, c, d, all, n)
  {
    var was := Q(a.queues, WaitQ(DevObj(d)));
    assert Q(c.queues, WaitQ(DevObj(d))) == Q(b.queues, WaitQ(DevObj(d)));
    AllWokenStays(a, b, c, if all || was == [] then was else was[..1], n);
  }

  /** The first i fired timers have been served, nobody else's waiters have been touched. */
  ghost predicate ServedTo(a: Snap, b: Snap, timers: map<nat, Timers.Timer>, fired: seq<(nat, nat)>, i: nat) {
    && i <= |fired|
    && (forall j {:trigger fired[j]} :: 0 <= j < i ==>
          fired[j].0 in timers && Served(a, b, fired[j].0, timers[fired[j].0].wakeAll, fired[j].1))
    && (forall d {:trigger Unserved(a, b, d)} :: (forall j :: 0 <= j < i ==> fired[j].0 != d) ==> Unserved(a, b, d))
  }

  lemma ServedStep(a: Snap, b: Snap, c: Snap, rank: map<nat, nat>, seen: map<Node, set<nat>>,
                   timers: map<nat, Timers.Timer>, fired: seq<(nat, nat)>, i: nat)
    requires Sound(a, rank, seen, {}) && Sound(b, rank, seen, {}) && Effects(a, b)
    requires ServedTo(a, b, timers, fired, i) && i < |fired| && fired[i].0 in timers
    requires forall j :: 0 <= j < i ==> fired[j].0 != fired[i].0
    requires Roused(b, c, rank, WaitQ(DevObj(fired[i].0)), timers[fired[i].0].wakeAll, fired[i].1)
    ensures Effects(a, c) && ServedTo(a, c, timers, fired, i + 1)
  {
    var d, all, n := fired[i].0, timers[fired[i].0].wakeAll, fired[i].1;
    EffectsTrans(a, b, c);
    assert Unserved(a, b, d);
    ServedNow(a, b, c, rank, seen, d, all, n);
    forall j | 0 <= j < i
      ensures Served(a, c, fired[j].0, timers[fired[j].0].wakeAll, fired[j].1)
    {
      ServedStays(a, b, c, rank, fired[j].0, timers[fired[j].0].wakeAll, fired[j].1, d, all, n);
    }
    forall e | forall j :: 0 <= j < i + 1 ==> fired[j].0 != e
      ensures Unserved(a, c, e)
    {
      assert fired[i].0 != e;
      assert Unserved(a, b, e);
    }
  }

  class TimerObjects {
    const kernel: KernelObjects.Kernel
    const clock: Timers.TimerQueue

    /** The devices of the kernel answer what the timers say. */
    ghost predicate Linked()
      reads this, kernel, clock
    {
      forall t {:trigger clock.timers[t]} :: t in clock.timers ==>
        t in kernel.devs && kernel.devs[t] == Answers(clock.timers[t], clock.now)
    }

    ghost predicate Valid()
      reads this, kernel, clock
    {
      kernel.Sane({}) && clock.OnTime() && Linked()
    }

    /** Who waits for timer t. */
    ghost function Waiters(t: nat): seq<Node> reads this, kernel { Q(kernel.queues, WaitQ(DevObj(t))) }

    /** Somebody waits for the timer although it is ready. */
    ghost predicate Stranded(t: nat)
      reads this, kernel
    {
      t in kernel.devs && kernel.devs[t].Some? && Waiters(t) != []
    }

    constructor ()
      ensures Valid() && fresh(kernel) && fresh(clock) && clock.timers == map[] && clock.now == 0
      ensures kernel.threads == map[] && kernel.procs == map[] && kernel.devs == map[] && kernel.queues == map[]
    {
      kernel := new KernelObjects.Kernel();
      clock := new Timers.TimerQueue();
    }

    /** timerCreate: a new timer is ready, as its timeout is 0. */
    method Create(t: nat, wakeAll: bool)
      requires Valid() && t !in clock.timers && t !in kernel.devs
      modifies kernel`devs, kernel`refs, kernel`held, clock`timers, clock`start, clock`reported
      ensures Valid() && clock.timers == old(clock.timers)[t := Timers.Timer(false, 0, 0, wakeAll)]
      ensures kernel.Exists(DevObj(t)) && kernel.devs == old(kernel.devs)[t := Some(0)]
    {
      kernel.NewDevice(t, Some(0));
      clock.Create(t, wakeAll);
    }

    /** The kernel's view of the timer follows; nobody is woken. */
    method Follow(t: nat)
      requires kernel.Sane({}) && t in clock.timers && t in kernel.devs
      modifies kernel`devs, kernel`late
      ensures kernel.Sane({}) && kernel.devs == old(kernel.devs)[t := Answers(clock.timers[t], clock.now)]
      ensures kernel.late == if Stranded(t) then old(kernel.late) + {t} else old(kernel.late) - {t}
    {
      var tm := clock.timers[t];
      kernel.MakeReady(t, Answers(tm, clock.now));
    }

    /** __timerWrite wakes nobody: it leaves a waiter asleep on a ready timer if and only if there is one and the new
        timeout, a 64-bit sum, is not in the future. */
    method Write(t: nat, info: Option<(nat, nat)>) returns (r: int)
      requires Valid() && clock.now < Timers.LONG && t in clock.timers
      requires info.Some? ==> info.value.0 < Timers.LONG && info.value.1 < WORD
      modifies kernel`devs, kernel`late, clock`timers, clock`list, clock`start, clock`reported
      ensures kernel.Sane({}) && clock.Valid() && Linked() && kernel.Now() == old(kernel.Now())
      ensures r == if info.Some? then Timers.INFO else -1
      ensures info.None? || clock.now + info.value.0 < Timers.LONG ==> Valid()
      ensures info.Some? ==> clock.timers == old(clock.timers)
              [t := Timers.Timer(true, (clock.now + info.value.0) % Timers.LONG, info.value.1,
                  old(clock.timers)[t].wakeAll)]
      ensures info.Some? ==>
                (Stranded(t) <==> Waiters(t) != [] && (clock.now + info.value.0) % Timers.LONG <= clock.now)
      ensures info.Some? ==> (t in kernel.late <==> Stranded(t))
    {
      r := clock.Write(t, info);
      if info.Some? {
        Follow(t);
      }
    }

    /** threadWait on a timer: the thread gets what __timerWait reports, or sleeps. */
    method Wait(u: nat, t: nat) returns (r: Option<nat>)
      requires Valid() && clock.now + WORD < Timers.LONG && t in clock.timers && kernel.Exists(DevObj(t))
      requires u in kernel.threads && kernel.threads[u].process.Some? && !kernel.threads[u].blocked
      modifies kernel, clock`timers, clock`list, clock`reported
      ensures kernel.Sane({}) && clock.Valid() && Linked() && u in kernel.threads
      ensures kernel.threads == old(kernel.threads)[u := kernel.threads[u]] && kernel.refs == old(kernel.refs)
      ensures r.None? <==> old(clock.timers)[t].timeout > clock.now
      ensures Waiters(t) == (if r.None? then [T(u)] else []) + old(Waiters(t))
      ensures if r.None? then kernel.threads[u].blocked
              else kernel.threads[u] == old(kernel.threads)[u].(eax := r.value)
      ensures t in clock.timers && clock.timers == old(clock.timers)[t := clock.timers[t]]
      ensures old(clock.timers)[t].interval == 0 ==>
                && Valid() && clock.timers[t] == old(clock.timers)[t].(active := r.None?)
                && (r.Some? ==> r.value == if old(clock.timers)[t].active then 1 else 0)
    {
      var blocks := kernel.Wait(u, DevObj(t));
      r := Ask(t);
    }

    /** __timerWait. */
    method Ask(t: nat) returns (r: Option<nat>)
      requires Valid() && clock.now + WORD < Timers.LONG && t in clock.timers
      modifies kernel`devs, kernel`late, clock`timers, clock`list, clock`reported
      ensures kernel.Sane({}) && clock.Valid() && Linked() && t in clock.timers
      ensures clock.timers == old(clock.timers)[t := clock.timers[t]]
      ensures r == Answers(old(clock.timers)[t], clock.now)
      ensures old(clock.timers)[t].interval == 0 ==>
                Valid() && clock.timers[t] == old(clock.timers)[t].(active := r.None?)
    {
      r := clock.Wait(t);
      Follow(t);
    }

    /** timer_irq: the clock goes on, and of every timer that fires one or all waiters are woken with the number of
        events.  Nobody else's waiters are. */
    method Tick() returns (fired: seq<(nat, nat)>)
      requires Valid() && clock.now + Timers.TICK + WORD < Timers.LONG
      modifies kernel`threads, kernel`subs, kernel`events, kernel`queues, kernel`place, kernel`devs, kernel`late
      modifies clock`now, clock`timers, clock`list, clock`reported
      ensures Valid() && clock.now == old(clock.now) + Timers.TICK && Timers.AllAhead(clock.timers, clock.now)
      ensures clock.timers.Keys == old(clock.timers).Keys
      ensures forall t :: t in clock.timers ==> clock.timers[t] == Timers.Ticked(old(clock.timers)[t], clock.now)
      ensures Timers.Firings(old(clock.timers), old(clock.list), clock.now, fired)
      ensures Timers.Reported(old(clock.timers), clock.now, fired)
      ensures ServedTo(old(kernel.Now()), kernel.Now(), clock.timers, fired, |fired|)
    {
      fired := clock.Tick();
      FollowAll();
      FiredApart(old(clock.timers), old(clock.list), clock.now, fired);
      ServeAll(fired);
    }

    /** The waiters of the timers that fired, one timer after the other. */
    method ServeAll(fired: seq<(nat, nat)>)
      requires kernel.Sane({}) && Linked() && Apart(clock.timers, fired)
      modifies kernel`threads, kernel`subs, kernel`events, kernel`queues, kernel`place, kernel`devs, kernel`late
      ensures kernel.Sane({}) && Linked() && ServedTo(old(kernel.Now()), kernel.Now(), clock.timers, fired, |fired|)
    {
      ghost var a := kernel.Now();
      kernel.SaneIsValid({});
      EffectsNone(a);
      for i := 0 to |fired|
        invariant kernel.Sane({}) && Linked() && Effects(a, kernel.Now())
        invariant ServedTo(a, kernel.Now(), clock.timers, fired, i)
      {
        Serve(a, fired, i);
      }
    }

    method Serve(ghost a: Snap, fired: seq<(nat, nat)>, i: nat)
      requires kernel.Sane({}) && Linked() && Effects(a, kernel.Now()) && Sound(a, kernel.rank, kernel.seen, {})
      requires ServedTo(a, kernel.Now(), clock.timers, fired, i) && i < |fired| && fired[i].0 in clock.timers
      requires forall j :: 0 <= j < i ==> fired[j].0 != fired[i].0
      modifies kernel`threads, kernel`subs, kernel`events, kernel`queues, kernel`place, kernel`devs, kernel`late
      ensures kernel.Sane({}) && Linked() && Effects(a, kernel.Now())
      ensures ServedTo(a, kernel.Now(), clock.timers, fired, i + 1)
    {
      ghost var b := kernel.Now();
      kernel.SaneIsValid({});
      kernel.DevicePulse(fired[i].0, clock.timers[fired[i].0].wakeAll, fired[i].1);
      ServedStep(a, b, kernel.Now(), kernel.rank, kernel.seen, clock.timers, fired, i);
    }

    /** Of a timer that fired somebody is left asleep on it if and only if it does not repeat, is to wake one waiter,
        and had more than one. */
    lemma StrandedExact(a: Snap, timers: map<nat, Timers.Timer>, list: seq<nat>, fired: seq<(nat, nat)>, j: nat)
      requires Linked() && Timers.ListOk(timers, list) && Timers.Firings(timers, list, clock.now, fired) && j < |fired|
      requires clock.timers.Keys == timers.Keys && Timers.AllAhead(clock.timers, clock.now)
      requires forall t :: t in clock.timers ==> clock.timers[t] == Timers.Ticked(timers[t], clock.now)
      requires ServedTo(a, kernel.Now(), clock.timers, fired, |fired|)
      ensures var t := fired[j].0;
              && t in timers
              && (Stranded(t) <==>
                    timers[t].interval == 0 && !timers[t].wakeAll && |Q(a.queues, WaitQ(DevObj(t)))| > 1)
    {
      var t := fired[j].0;
      assert list[j] in list;
      assert Served(a, kernel.Now(), t, clock.timers[t].wakeAll, fired[j].1);
    }

    /** __timerShutdown: the timer leaves the list and all its waiters give up. */
    method Shutdown(t: nat)
      requires Valid() && t in clock.timers
      modifies kernel`threads, kernel`subs, kernel`events, kernel`queues, kernel`place, kernel`devs, kernel`late
      modifies clock`timers, clock`list
      ensures Valid() && clock.timers == old(clock.timers)[t := old(clock.timers)[t].(active := false)]
      ensures Roused(old(kernel.Now()), kernel.Now(), kernel.rank, WaitQ(DevObj(t)), true, -1) && !Stranded(t)
    {
      clock.Shutdown(t);
      Follow(t);
      kernel.DevicePulse(t, true, -1);
    }

    /** The kernel's view of all timers follows the clock. */
    method FollowAll()
      requires kernel.Sane({}) && forall t :: t in clock.timers ==> t in kernel.devs
      modifies kernel`devs, kernel`late
      ensures kernel.Sane({}) && Linked()
    {
      var rest := clock.timers.Keys;
      while rest != {}
        invariant kernel.Sane({}) && rest <= clock.timers.Keys && forall t :: t in clock.timers ==> t in kernel.devs
        invariant forall t :: t in clock.timers && t !in rest ==> kernel.devs[t] == Answers(clock.timers[t], clock.now)
      {
        var t :| t in rest;
        Follow(t);
        rest := rest - {t};
      }
    }
  }

  /** Each timer at most once. */
  ghost predicate Apart(timers: map<nat, Timers.Timer>, fired: seq<(nat, nat)>) {
    && (forall i :: 0 <= i < |fired| ==> fired[i].0 in timers)
    && (forall i, j :: 0 <= j < i < |fired| ==> fired[j].0 != fired[i].0)
  }

  lemma FiredApart(timers: map<nat, Timers.Timer>, list: seq<nat>, now: nat, fired: seq<(nat, nat)>)
    requires Timers.ListOk(timers, list) && Timers.Firings(timers, list, now, fired)
    ensures Apart(timers, fired)
  {
  }

  lemma EffectsNone(a: Snap)
    ensures Effects(a, a)
  {
  }

  // ----- a lost wake-up -----

  /** Two threads and an armed timer, for which thread 0 waits. */
  method Asleep(wakeAll: bool) returns (o: TimerObjects)
    ensures fresh(o) && fresh(o.kernel) && fresh(o.clock) && o.Valid() && o.clock.now == 0
    ensures 0 in o.clock.timers && o.clock.timers[0] == Timers.Timer(true, 1000, 0, wakeAll)
    ensures T(0) in o.Waiters(0) && o.kernel.Exists(DevObj(0))
    ensures 1 in o.kernel.threads && o.kernel.threads[1].process.Some? && !o.kernel.threads[1].blocked
  {
    o := TwoThreads();
    o.Create(0, wakeAll);
    var _ := o.Write(0, Some((1000, 0)));
    var _ := o.Wait(0, 0);
  }

  method TwoThreads() returns (o: TimerObjects)
    ensures fresh(o) && fresh(o.kernel) && fresh(o.clock) && o.Valid() && o.clock.now == 0
    ensures o.clock.timers == map[] && o.kernel.devs == map[] && o.Waiters(0) == []
    ensures forall u :: 0 <= u < 2 ==>
              u in o.kernel.threads && o.kernel.threads[u].process.Some? && !o.kernel.threads[u].blocked
  {
    o := new TimerObjects();
    Populate(o.kernel);
  }

  /** A process with two threads. */
  method Populate(k: KernelObjects.Kernel)
    requires k.Sane({}) && k.threads == map[] && k.procs == map[] && k.queues == map[]
    modifies k`threads, k`queues, k`place, k`procs, k`refs, k`held, k`log
    ensures k.Sane({}) && Q(k.queues, WaitQ(DevObj(0))) == []
    ensures forall u :: 0 <= u < 2 ==> u in k.threads && k.threads[u].process.Some? && !k.threads[u].blocked
  {
    k.NewProcess(0);
    k.NewThread(0, 0);
    k.NewThread(1, 0);
  }

  /** A timer that is to wake one waiter, and two threads that wait for it: after the tick that fires it, the one that
      came last goes on with one event, and the other sleeps on a timer that is ready. */
  method OneLeftAsleep() returns (o: TimerObjects)
    ensures fresh(o) && o.Valid() && o.Stranded(0) && o.Waiters(0) == [T(0)]
    ensures 1 in o.kernel.threads && !o.kernel.threads[1].blocked && o.kernel.threads[1].eax == 1
  {
    o := BothAsleep();
    ghost var a, timers, list := o.kernel.Now(), o.clock.timers, o.clock.list;
    var fired := o.Tick();
    ghost var j := DueFires(timers, list, o.clock.now, fired, 0);
    o.StrandedExact(a, timers, list, fired, j);
    FirstOfTwo(a, o.kernel.Now(), fired[j].1);
  }

  lemma FirstOfTwo(a: Snap, b: Snap, n: int)
    requires Served(a, b, 0, false, n) && Q(a.queues, WaitQ(DevObj(0))) == [T(1), T(0)]
    ensures Q(b.queues, WaitQ(DevObj(0))) == [T(0)]
    ensures 1 in b.threads && !b.threads[1].blocked && b.threads[1].eax == n
  {
    var was := Q(a.queues, WaitQ(DevObj(0)));
    assert was[..1][0] == T(1);
    assert WokenNode(a, b, T(1), n);
  }

  /** Two threads wait for a timer that is to wake one of them, thread 0 first. */
  method BothAsleep() returns (o: TimerObjects)
    ensures fresh(o) && fresh(o.kernel) && fresh(o.clock) && o.Valid() && o.clock.now == 0
    ensures 0 in o.clock.timers && o.clock.timers[0] == Timers.Timer(true, 10, 0, false)
    ensures o.Waiters(0) == [T(1), T(0)]
  {
    o := TwoThreads();
    o.Create(0, false);
    var _ := o.Write(0, Some((10, 0)));
    BothWait(o);
  }

  method BothWait(o: TimerObjects)
    requires o.Valid() && o.clock.now == 0 && 0 in o.clock.timers
             && o.clock.timers[0] == Timers.Timer(true, 10, 0, false)
    requires o.Waiters(0) == [] && o.kernel.Exists(DevObj(0)) && forall u :: 0 <= u < 2 ==>
               u in o.kernel.threads && o.kernel.threads[u].process.Some? && !o.kernel.threads[u].blocked
    modifies o.kernel, o.clock
    ensures o.Valid() && o.clock.now == 0 && 0 in o.clock.timers && o.clock.timers[0] == old(o.clock.timers)[0]
    ensures o.Waiters(0) == [T(1), T(0)]
  {
    var _ := o.Wait(0, 0);
    var _ := o.Wait(1, 0);
  }

  ghost function DueFires(timers: map<nat, Timers.Timer>, list: seq<nat>, now: nat, fired: seq<(nat, nat)>,
                          t: nat): (j: nat)
    requires Timers.ListOk(timers, list) && Timers.Firings(timers, list, now, fired)
    requires t in timers && timers[t].active && timers[t].timeout <= now
    ensures j < |fired| && fired[j].0 == t
  {
    assert t in list;
    var j: nat :| j < |list| && list[j] == t;
    j
  }

  /** Thread 0 waits for an armed timer; a write makes the timer ready and wakes nobody; thread 1 waits for it too, gets
      its answer at once and takes the timer off the clock's list.  However long the clock then runs, thread 0 sleeps
      on a timer that is ready, whether the timer was to wake all or one. */
  method LostWakeup(wakeAll: bool, ticks: nat) returns (o: TimerObjects, r: Option<nat>)
    requires (ticks + 1) * Timers.TICK + WORD < Timers.LONG
    ensures fresh(o) && o.Valid() && o.clock.now == ticks * Timers.TICK
    ensures r == Some(1) && T(0) in o.Waiters(0) && o.Stranded(0)
  {
    o := Asleep(wakeAll);
    var _ := o.Write(0, Some((0, 0)));
    r := o.Wait(1, 0);
    RunOn(o, ticks);
  }

  method RunOn(o: TimerObjects, ticks: nat)
    requires o.Valid() && o.clock.now + (ticks + 1) * Timers.TICK + WORD < Timers.LONG
    requires 0 in o.clock.timers && !o.clock.timers[0].active && o.clock.timers[0].timeout <= o.clock.now
    requires T(0) in o.Waiters(0)
    modifies o.kernel, o.clock
    ensures o.Valid() && o.clock.now == old(o.clock.now) + ticks * Timers.TICK && T(0) in o.Waiters(0) && o.Stranded(0)
  {
    for i := 0 to ticks
      invariant o.Valid() && o.clock.now == old(o.clock.now) + i * Timers.TICK && T(0) in o.Waiters(0)
      invariant 0 in o.clock.timers && !o.clock.timers[0].active && o.clock.timers[0].timeout <= o.clock.now
    {
      ghost var a := o.kernel.Now();
      var fired := o.Tick();
      assert Unserved(a, o.kernel.Now(), 0);
    }
  }
}
