/** timer.c: timers in a list sorted by timeout, and the tick that fires those that are due. */
module Timers {
  import opened Sequences

  const LONG := 0x1_0000_0000_0000_0000
  const TICK := 12

  datatype Timer = Timer(active: bool, timeout: nat, interval: nat, wakeAll: bool)

  ghost predicate Sized(tm: Timer) { tm.timeout < LONG && tm.interval < WORD }

  // ----- the arithmetic of one firing -----

  /** Events since the timeout, the one at the timeout included. */
  function Events(tm: Timer, now: nat): nat
    requires tm.timeout <= now
  {
    if tm.interval > 0 then (now - tm.timeout) / tm.interval + 1 else 1
  }

  /** The events as counted in 32 bits. */
  function Counted(tm: Timer, now: nat): nat
    requires tm.timeout <= now
  {
    Events(tm, now) % WORD
  }

  /** A timer that has fired: the product is taken in 32 bits, the sum in 64. */
  function Fire(tm: Timer, now: nat): Timer
    requires tm.timeout <= now
  {
    if tm.interval > 0 then
      tm.(timeout := (tm.timeout + Counted(tm, now) * tm.interval % WORD) % LONG, active := true)
    else
      tm.(active := false)
  }

  /** The span since the timeout, rounded up to intervals, fits into 32 bits. */
  predicate Fits(tm: Timer, now: nat)
    requires tm.timeout <= now
  {
    Events(tm, now) * tm.interval < WORD
  }

  lemma EventsSpan(tm: Timer, now: nat)
    requires tm.timeout <= now && tm.interval > 0
    ensures now - tm.timeout < Events(tm, now) * tm.interval <= now - tm.timeout + tm.interval
  {
    var d, i := now - tm.timeout, tm.interval;
    assert d == d / i * i + d % i;
    assert (d / i + 1) * i == d / i * i + i;
  }

  lemma ProductMod(a: nat, b: nat)
    ensures (a % WORD) * b % WORD == a * b % WORD
  {
    assert a == a / WORD * WORD + a % WORD;
    var q, r := a / WORD, a % WORD;
    assert a * b == r * b + (q * b) * WORD by {
      assert (q * WORD + r) * b == q * WORD * b + r * b;
      assert q * WORD * b == (q * b) * WORD;
    }
    ModPlus(r * b, q * b);
  }

  lemma {:induction false} ModPlus(x: nat, k: nat)
    ensures (x + k * WORD) % WORD == x % WORD
    decreases k
  {
    if k > 0 {
      ModPlus(x, k - 1);
      assert x + k * WORD == (x + (k - 1) * WORD) + WORD;
    }
  }

  /** A periodic timer is set right by firing (in the future, a whole number of intervals on, all of them
      reported) exactly if the span since its timeout, rounded up to intervals, fits into 32 bits.
      Otherwise it stays in the past. */
  lemma FireExact(tm: Timer, now: nat)
    requires tm.timeout <= now && 0 < tm.interval < WORD && now + WORD < LONG
    ensures var exact := Fits(tm, now);
            && (exact ==>
               Counted(tm, now) == Events(tm, now) && Fire(tm, now).timeout == tm.timeout + Events(tm,
               now) * tm.interval)
            && (exact <==> Fire(tm, now).timeout > now) && (!exact ==> Fire(tm, now).timeout < now)
  {
    var n, d := Events(tm, now), now - tm.timeout;
    var x := n * tm.interval;
    EventsSpan(tm, now);
    ProductMod(n, tm.interval);
    var step := Counted(tm, now) * tm.interval % WORD;
    assert step == x % WORD;
    CutShort(x, d, tm.interval);
    AtLeast(n, tm.interval);
    assert Fire(tm, now).timeout == tm.timeout + step;
    if x < WORD {
      assert n % WORD == n;
    }
  }

  lemma CutShort(x: nat, d: nat, i: nat)
    requires d < x <= d + i && i < WORD
    ensures x < WORD ==> x % WORD == x
    ensures x >= WORD ==> x % WORD < d
  {
    if x >= WORD {
      assert (x - WORD) % WORD == x % WORD;
    }
  }

  lemma AtLeast(n: nat, i: nat)
    requires i > 0
    ensures n <= n * i
  {
  }

  lemma Onward(tm: Timer, now: nat, s: nat, r: nat)
    requires tm.timeout <= now && 0 < tm.interval < WORD && now + WORD < LONG && Fits(tm, now)
    requires tm.timeout == s + tm.interval * r
    ensures Fire(tm, now).timeout == s + tm.interval * (r + Events(tm, now))
  {
    FireExact(tm, now);
    assert tm.interval * (r + Events(tm, now)) == tm.interval * r + Events(tm, now) * tm.interval;
  }

  lemma SumWraps(a: nat, b: nat)
    requires a < LONG && b < LONG
    ensures (a + b) % LONG >= a <==> a + b < LONG
  {
    assert a + b >= LONG ==> (a + b) % LONG == a + b - LONG;
  }

  /** A timer that is not late by more than a tick is always set right. */
  lemma DueExact(tm: Timer, now: nat)
    requires tm.timeout <= now <= tm.timeout + TICK && 0 < tm.interval < WORD
    ensures Fits(tm, now)
  {
    EventsSpan(tm, now);
    var d, i := now - tm.timeout, tm.interval;
    if i > d {
      assert d / i == 0;
      assert Events(tm, now) * i == i;
    }
  }

  // ----- firing again and again, as the tick does while the first timer is due -----

  /** No multiple of 2^32 up to the span since the timeout, rounded up to intervals, is one of the interval. */
  predicate Settles(tm: Timer, now: nat) {
    tm.timeout <= now && tm.interval > 0 ==>
      forall q {:trigger Meets(tm.interval, q)} ::
          1 <= q <= Events(tm, now) * tm.interval / WORD ==> !Meets(tm.interval, q)
  }

  predicate Meets(i: nat, q: nat)
    requires i > 0
  {
    q * WORD % i == 0
  }

  /** A firing takes a timer that settles further and keeps it so; one that does not settle stays due. */
  lemma SettlesStep(tm: Timer, now: nat)
    requires tm.timeout <= now && 0 < tm.interval < WORD && now + WORD < LONG
    ensures if Settles(tm, now) then Fire(tm, now).timeout > tm.timeout && Settles(Fire(tm, now), now)
            else Fire(tm, now).timeout <= now && !Settles(Fire(tm, now), now)
  {
    var i, x, d := tm.interval, Events(tm, now) * tm.interval, now - tm.timeout;
    FireExact(tm, now);
    EventsSpan(tm, now);
    if !Fits(tm, now) {
      FireStep(tm, now);
      var later := Fire(tm, now);
      var y := Events(later, now) * i;
      EventsSpan(later, now);
      NotFurther(tm.timeout, later.timeout, now, i);
      assert y / WORD <= x / WORD;
      if Settles(tm, now) {
        assert x % WORD == 0 ==> Meets(i, x / WORD) by {
          if x % WORD == 0 { Multiple(Events(tm, now), i); }
        }
      } else {
        var q :| 1 <= q <= x / WORD && Meets(i, q);
        StillMeets(i, q, x, d, y, Events(later, now));
      }
    }
  }

  lemma FireStep(tm: Timer, now: nat)
    requires tm.timeout <= now && 0 < tm.interval < WORD && now + WORD < LONG && !Fits(tm, now)
    ensures Fire(tm, now).timeout == tm.timeout + Events(tm, now) * tm.interval % WORD && Fire(tm, now).timeout <= now
  {
    FireExact(tm, now);
    ProductMod(Events(tm, now), tm.interval);
    EventsSpan(tm, now);
    CutShort(Events(tm, now) * tm.interval, now - tm.timeout, tm.interval);
  }

  lemma Scaled(a: int, b: int, i: nat)
    requires a <= b
    ensures a * i <= b * i
  {
  }

  lemma Multiple(n: nat, i: nat)
    requires i > 0
    ensures n * i % i == 0
  {
    var c := n * i;
    var k, r := c / i, c % i;
    assert c == k * i + r;
    assert (n - k) * i == r;
    if n - k >= 1 {
      Scaled(1, n - k, i);
      assert false;
    } else if n - k <= -1 {
      Scaled(n - k, -1, i);
      assert false;
    }
  }

  lemma Shrinks(a: nat, b: nat, i: nat)
    requires a <= b && i > 0
    ensures a / i <= b / i
  {
    var k, m := a / i, b / i;
    Quotient(a, i);
    Quotient(b, i);
    if k > m { Scaled(m + 1, k, i); }
  }

  lemma Quotient(x: nat, i: nat)
    requires i > 0
    ensures x / i * i <= x < (x / i + 1) * i
  {
    assert x == x / i * i + x % i;
    assert (x / i + 1) * i == x / i * i + i;
  }

  /** A later timeout is not further behind. */
  lemma NotFurther(from: nat, to: nat, now: nat, i: nat)
    requires from <= to <= now && i > 0
    ensures ((now - to) / i + 1) * i <= ((now - from) / i + 1) * i
  {
    Shrinks(now - to, now - from, i);
    Scaled((now - to) / i + 1, (now - from) / i + 1, i);
  }

  /** A multiple of the interval that is less than one interval below another is not below it. */
  lemma NextMultiple(c: nat, y: nat, n: nat, i: nat)
    requires i > 0 && c % i == 0 && y == n * i && y > c - i
    ensures y >= c
  {
    var k := c / i;
    assert c == k * i;
    if n < k {
      Scaled(n, k - 1, i);
      assert false;
    }
    Scaled(k, n, i);
  }

  /** A common multiple of 2^32 and the interval that lay within the span still does. */
  lemma StillMeets(i: nat, q: nat, x: nat, d: nat, y: nat, n: nat)
    requires i > 0 && Meets(i, q) && q <= x / WORD && d < x <= d + i && x % WORD <= d
    requires y == n * i && d - x % WORD < y
    ensures q <= y / WORD
  {
    NextMultiple(q * WORD, y, n, i);
  }

  function Refired(tm: Timer, now: nat, n: nat): Timer
    decreases n
  {
    if n == 0 then tm else
    var last := Refired(tm, now, n - 1);
    if last.timeout <= now then Fire(last, now) else last
  }

  lemma {:induction false} RefiredSettles(tm: Timer, now: nat, n: nat)
    requires 0 < tm.interval < WORD && now + WORD < LONG
    ensures Refired(tm, now, n).interval == tm.interval && (Settles(tm, now) <==> Settles(Refired(tm, now, n), now))
    ensures !Settles(tm, now) ==> Refired(tm, now, n).timeout <= now
    ensures Settles(tm, now) ==> Refired(tm, now, n).timeout > now || Refired(tm, now, n).timeout >= tm.timeout + n
    decreases n
  {
    if n > 0 {
      RefiredSettles(tm, now, n - 1);
      var last := Refired(tm, now, n - 1);
      if last.timeout <= now { SettlesStep(last, now); }
    }
  }

  /** A periodic timer gets ahead of the clock by firing, however often, if and only if the common multiple of its
      interval and 2^32 is beyond the span since its timeout. */
  lemma SettlesExact(tm: Timer, now: nat)
    requires 0 < tm.interval < WORD && now + WORD < LONG
    ensures Settles(tm, now) <==> exists n :: Refired(tm, now, n).timeout > now
  {
    if Settles(tm, now) {
      RefiredSettles(tm, now, now + 1);
      assert Refired(tm, now, now + 1).timeout > now;
    } else {
      forall n: nat
        ensures Refired(tm, now, n).timeout <= now
      {
        RefiredSettles(tm, now, n);
      }
    }
  }

  /** A 1 ms timer that was last set to 9 and is waited for 2^32 - 1 ms later (357913942 ticks after the start of the
      clock) reports nothing and stays in the past; at the next tick it is first set 12 on and then never again, so
      that the tick loop does not end. */
  lemma StaleTimerHangs(tm: Timer)
    requires tm.timeout == 9 && tm.interval == 1
    ensures var now := 9 + WORD - 1;
            && now == 357913942 * TICK && Counted(tm, now) == 0 && Fire(tm, now) == tm.(active := true)
            && !Settles(tm, now + TICK)
            && var later := Fire(tm, now + TICK);
               later.timeout == 9 + TICK && Fire(later, now + TICK) == later.(active := true)
  {
    var now := 9 + WORD - 1;
    assert Events(tm, now) == WORD;
    assert Events(tm, now + TICK) == WORD + TICK;
    assert Meets(1, 1);
    var b := Fire(tm, now + TICK);
    assert Events(b, now + TICK) == WORD;
  }

  // ----- the list -----

  ghost predicate Listed(timers: map<nat, Timer>, list: seq<nat>) {
    && NoDup(list)
    && (forall t :: t in list ==> t in timers)
    && (forall t {:trigger timers[t]} :: t in timers ==> Sized(timers[t]) && (timers[t].active <==> t in list))
  }

  ghost predicate Sorted(timers: map<nat, Timer>, list: seq<nat>)
    requires forall t :: t in list ==> t in timers
  {
    forall i, j :: 0 <= i < j < |list| ==> timers[list[i]].timeout <= timers[list[j]].timeout
  }

  ghost predicate ListOk(timers: map<nat, Timer>, list: seq<nat>) { Listed(timers, list) && Sorted(timers, list) }

  /** No active timer is overdue. */
  ghost predicate Timely(timers: map<nat, Timer>, now: nat) {
    forall t {:trigger NotLate(timers, now, t)} :: t in timers ==> NotLate(timers, now, t)
  }

  predicate NotLate(timers: map<nat, Timer>, now: nat, t: nat)
    requires t in timers
  {
    timers[t].active ==> timers[t].timeout >= now
  }

  /** Since it was set, a timer has moved by its interval times the number of events reported. */
  ghost predicate NoDrift(timers: map<nat, Timer>, start: map<nat, nat>, reported: map<nat, nat>) {
    forall t {:trigger OnSchedule(timers, start, reported, t)} :: t in timers ==> OnSchedule(timers, start, reported, t)
  }

  predicate OnSchedule(timers: map<nat, Timer>, start: map<nat, nat>, reported: map<nat, nat>, t: nat)
    requires t in timers
  {
    t in start && t in reported && timers[t].timeout == start[t] + timers[t].interval * reported[t]
  }

  lemma SetTimely(timers: map<nat, Timer>, now: nat, t: nat, tm: Timer)
    requires Timely(timers, now)
    ensures Timely(timers[t := tm], now) <==> (tm.active ==> tm.timeout >= now)
  {
    var timers' := timers[t := tm];
    forall u | u in timers' && u != t
      ensures NotLate(timers', now, u)
    {
      assert NotLate(timers, now, u);
    }
    assert NotLate(timers', now, t) <==> (tm.active ==> tm.timeout >= now);
  }

  /** A periodic timer has fired: it is on schedule and in the future exactly if the product fits. */
  ghost predicate Righted(timers: map<nat, Timer>, timers': map<nat, Timer>, start: map<nat, nat>,
                          reported': map<nat, nat>, now: nat, t: nat)
    requires t in timers && t in timers' && timers[t].timeout <= now
  {
    && (Fits(timers[t], now) <==> timers'[t].timeout > now)
    && (Fits(timers[t], now) ==>
       Counted(timers[t], now) == Events(timers[t], now) && NoDrift(timers', start, reported'))
    && (Timely(timers, now) ==> (Fits(timers[t], now) <==> Timely(timers', now)))
  }

  lemma FiredWell(timers: map<nat, Timer>, timers': map<nat, Timer>, start: map<nat, nat>, reported: map<nat, nat>,
                  reported': map<nat, nat>, now: nat, t: nat, n: nat)
    requires NoDrift(timers, start, reported) && t in timers && 0 < timers[t].interval < WORD && t in reported
    requires timers[t].timeout <= now && now + WORD < LONG
    requires timers' == timers[t := Fire(timers[t], now)] && n == Counted(timers[t], now)
             && reported' == reported[t := reported[t] + n]
    ensures Righted(timers, timers', start, reported', now, t)
  {
    var tm := timers[t];
    FireExact(tm, now);
    if Timely(timers, now) { SetTimely(timers, now, t, Fire(tm, now)); }
    assert OnSchedule(timers, start, reported, t);
    var s, r := start[t], reported[t];
    if Fits(tm, now) {
      Onward(tm, now, s, r);
      SetOnSchedule(timers, start, reported, t, Fire(tm, now), s, r + Events(tm, now));
      assert start[t := s] == start;
    }
  }

  lemma SetOnSchedule(timers: map<nat, Timer>, start: map<nat, nat>, reported: map<nat, nat>, t: nat, tm: Timer,
                      s: nat, r: nat)
    requires NoDrift(timers, start, reported) && tm.timeout == s + tm.interval * r
    ensures NoDrift(timers[t := tm], start[t := s], reported[t := r])
  {
    var timers', start', reported' := timers[t := tm], start[t := s], reported[t := r];
    forall u | u in timers'
      ensures OnSchedule(timers', start', reported', u)
    {
      assert u != t ==> OnSchedule(timers, start, reported, u);
    }
  }

  lemma SortedCons(timers: map<nat, Timer>, t: nat, rest: seq<nat>)
    requires t in timers && forall u :: u in rest ==> u in timers
    ensures Sorted(timers, [t] + rest) <==>
              Sorted(timers, rest) && forall u :: u in rest ==> timers[t].timeout <= timers[u].timeout
  {
    var list := [t] + rest;
    if Sorted(timers, list) {
      forall u | u in rest
        ensures timers[t].timeout <= timers[u].timeout
      {
        var k :| 0 <= k < |rest| && rest[k] == u;
        assert list[0] == t && list[k + 1] == u;
      }
      forall i, j | 0 <= i < j < |rest|
        ensures timers[rest[i]].timeout <= timers[rest[j]].timeout
      {
        assert list[i + 1] == rest[i] && list[j + 1] == rest[j];
      }
    }
  }

  lemma {:induction false} WithoutSorted(timers: map<nat, Timer>, list: seq<nat>, t: nat)
    requires (forall u :: u in list ==> u in timers) && Sorted(timers, list)
    ensures (forall u :: u in Without(list, t) ==> u in timers) && Sorted(timers, Without(list, t))
  {
    WithoutMembers(list, t);
    if list != [] {
      assert list == [list[0]] + list[1..];
      SortedCons(timers, list[0], list[1..]);
      WithoutSorted(timers, list[1..], t);
      WithoutMembers(list[1..], t);
      SortedCons(timers, list[0], Without(list[1..], t));
    }
  }

  /** A timer leaves the list; its other fields may have changed before. */
  lemma RemoveOk(timers: map<nat, Timer>, list: seq<nat>, t: nat, tm: Timer)
    requires ListOk(timers, list) && t in timers && !tm.active && Sized(tm)
    ensures ListOk(timers[t := tm], Without(list, t))
  {
    WithoutMembers(list, t);
    WithoutSorted(timers, list, t);
  }

  /** Linking timer t in front of position p. */
  lemma InsertOk(timers: map<nat, Timer>, list: seq<nat>, t: nat, tm: Timer, p: nat)
    requires ListOk(timers, list) && t in timers && t !in list && tm.active && Sized(tm) && p <= |list|
    requires forall i :: 0 <= i < p ==> timers[list[i]].timeout <= tm.timeout
    requires p < |list| ==> timers[list[p]].timeout > tm.timeout
    ensures ListOk(timers[t := tm], list[..p] + [t] + list[p..])
  {
    var list', timers' := list[..p] + [t] + list[p..], timers[t := tm];
    InsertMembers(list, t, p);
    InsertSorted(timers, list, t, tm, p);
  }

  lemma InsertSorted(timers: map<nat, Timer>, list: seq<nat>, t: nat, tm: Timer, p: nat)
    requires (forall u :: u in list ==> u in timers) && Sorted(timers, list) && t !in list && p <= |list|
    requires forall i :: 0 <= i < p ==> timers[list[i]].timeout <= tm.timeout
    requires p < |list| ==> timers[list[p]].timeout > tm.timeout
    ensures var list', timers' := list[..p] + [t] + list[p..], timers[t := tm];
            (forall u :: u in list' ==> u in timers') && Sorted(timers', list')
  {
    var list', timers' := list[..p] + [t] + list[p..], timers[t := tm];
    forall i, j | 0 <= i < j < |list'|
      ensures timers'[list'[i]].timeout <= timers'[list'[j]].timeout
    {
      assert i != p ==> list'[i] == list[if i < p then i else i - 1];
      assert j != p ==> list'[j] == list[if j < p then j else j - 1];
    }
  }

  lemma InsertMembers(list: seq<nat>, t: nat, p: nat)
    requires p <= |list| && NoDup(list) && t !in list
    ensures var list' := list[..p] + [t] + list[p..]; NoDup(list') && forall u :: u in list' <==> u == t || u in list
  {
    var list' := list[..p] + [t] + list[p..];
    assert list == list[..p] + list[p..];
    forall i, j | 0 <= i < j < |list'|
      ensures list'[i] != list'[j]
    {
      assert i != p ==> list'[i] == list[if i < p then i else i - 1];
      assert j != p ==> list'[j] == list[if j < p then j else j - 1];
    }
  }

  /** Timer t was linked behind those that are not later and before those that are. */
  ghost predicate InsertedAt(timers: map<nat, Timer>, was: seq<nat>, list: seq<nat>, t: nat, p: nat)
    requires (forall u :: u in was ==> u in timers) && t in timers
  {
    && p <= |was| && list == was[..p] + [t] + was[p..]
    && (forall i :: 0 <= i < p ==> timers[was[i]].timeout <= timers[t].timeout)
    && (forall i :: p <= i < |was| ==> timers[was[i]].timeout > timers[t].timeout)
  }

  ghost predicate Inserted(timers: map<nat, Timer>, was: seq<nat>, list: seq<nat>, t: nat) {
    && t in timers && (forall u :: u in was ==> u in timers)
    && exists p {:trigger InsertedAt(timers, was, list, t, p)} :: InsertedAt(timers, was, list, t, p)
  }

  // ----- the tick -----

  /** All active timers lie in the future. */
  ghost predicate AllAhead(timers: map<nat, Timer>, now: nat) {
    forall t {:trigger timers[t]} :: t in timers && timers[t].active ==> timers[t].timeout > now
  }

  function Ticked(tm: Timer, now: nat): Timer {
    if tm.active && tm.timeout <= now then Fire(tm, now) else tm
  }

  ghost predicate FiredSoFar(timers: map<nat, Timer>, list: seq<nat>, now: nat, fired: seq<(nat, nat)>) {
    && (forall t :: t in list ==> t in timers) && |fired| <= |list|
    && (forall j ::
       0 <= j < |fired| ==> timers[list[j]].timeout <= now && fired[j] == (list[j], Events(timers[list[j]], now)))
  }

  /** The due timers are a prefix of the list; each fired once, with its number of events. */
  ghost predicate Firings(timers: map<nat, Timer>, list: seq<nat>, now: nat, fired: seq<(nat, nat)>) {
    && FiredSoFar(timers, list, now, fired)
    && (forall j :: |fired| <= j < |list| ==> timers[list[j]].timeout > now)
  }

  /** What is reported of every timer that fired: one event if it does not repeat; otherwise as many intervals as have
      begun since its timeout, the timeout itself included. */
  ghost predicate Reported(timers: map<nat, Timer>, now: nat, fired: seq<(nat, nat)>) {
    forall j :: 0 <= j < |fired| ==>
      && fired[j].0 in timers
      && var tm, n := timers[fired[j].0], fired[j].1;
         if tm.interval == 0 then n == 1
         else n >= 1 && tm.timeout + (n - 1) * tm.interval <= now < tm.timeout + n * tm.interval
  }

  lemma FiringsReport(timers: map<nat, Timer>, list: seq<nat>, now: nat, fired: seq<(nat, nat)>)
    requires FiredSoFar(timers, list, now, fired)
    ensures Reported(timers, now, fired)
  {
    forall j | 0 <= j < |fired|
      ensures fired[j].0 in timers
      ensures var tm, n := timers[fired[j].0], fired[j].1;
              if tm.interval == 0 then n == 1
              else n >= 1 && tm.timeout + (n - 1) * tm.interval <= now < tm.timeout + n * tm.interval
    {
      assert list[j] in list;
      var tm := timers[list[j]];
      if tm.interval > 0 {
        EventsSpan(tm, now);
        assert (Events(tm, now) - 1) * tm.interval == Events(tm, now) * tm.interval - tm.interval;
      }
    }
  }

  ghost function DueLen(timers: map<nat, Timer>, list: seq<nat>, now: nat): nat
    requires forall t :: t in list ==> t in timers
  {
    if list == [] || timers[list[0]].timeout > now then 0 else 1 + DueLen(timers, list[1..], now)
  }

  lemma {:induction false} DuePrefix(timers: map<nat, Timer>, list: seq<nat>, now: nat)
    requires (forall t :: t in list ==> t in timers) && Sorted(timers, list)
    ensures DueLen(timers, list, now) <= |list|
    ensures forall j :: 0 <= j < DueLen(timers, list, now) ==> timers[list[j]].timeout <= now
    ensures forall j :: DueLen(timers, list, now) <= j < |list| ==> timers[list[j]].timeout > now
  {
    if list != [] && timers[list[0]].timeout <= now {
      assert Sorted(timers, list[1..]);
      DuePrefix(timers, list[1..], now);
      forall j | 1 <= j < |list|
        ensures timers[list[j]].timeout <= now <==> j - 1 < DueLen(timers, list[1..], now)
      {
        assert list[j] == list[1..][j - 1];
      }
    }
  }

  /** The first i of the d due timers have left; the others lead the list, followed by future timers. */
  ghost predicate TickList(list0: seq<nat>, timers: map<nat, Timer>, list: seq<nat>, now: nat, d: nat, i: nat) {
    && (forall t :: t in list ==> t in timers)
    && i <= d <= |list0| && d - i <= |list| && list[..d - i] == list0[i..d]
    && (forall j :: 0 <= j < d - i ==> timers[list[j]].timeout <= now)
    && (forall j :: d - i <= j < |list| ==> timers[list[j]].timeout > now)
  }

  /** The first i timers of the list have fired. */
  ghost predicate TickMap(timers0: map<nat, Timer>, list0: seq<nat>, timers: map<nat, Timer>, now: nat, i: nat) {
    && timers.Keys == timers0.Keys && i <= |list0|
    && (forall t {:trigger TickedAt(timers0, list0[..i], timers, now, t)} ::
       t in timers ==> TickedAt(timers0, list0[..i], timers, now, t))
  }

  ghost predicate TickedAt(timers0: map<nat, Timer>, done: seq<nat>, timers: map<nat, Timer>, now: nat, t: nat)
    requires timers.Keys == timers0.Keys && t in timers
  {
    timers[t] == if t in done then Ticked(timers0[t], now) else timers0[t]
  }

  lemma HeadDue(timers0: map<nat, Timer>, list0: seq<nat>, timers: map<nat, Timer>, list: seq<nat>, was: nat, now: nat,
                d: nat, i: nat)
    requires ListOk(timers0, list0) && Timely(timers0, was) && ListOk(timers, list)
    requires TickList(list0, timers, list, now, d, i) && TickMap(timers0, list0, timers, now, i)
    requires list != [] && timers[list[0]].timeout <= now
    ensures i < d && list[0] == list0[i] && list[0] !in list0[..i]
    ensures timers[list[0]] == timers0[list0[i]] && timers[list[0]].active && timers[list[0]].timeout >= was
  {
    assert list[0] == list[..d - i][0] == list0[i];
    assert list[0] !in list0[..i];
    assert TickedAt(timers0, list0[..i], timers, now, list[0]) && NotLate(timers0, was, list0[i]);
  }

  /** The head of the list fired: it is gone, or linked in again with a timeout in the future. */
  ghost predicate HeadFired(timers1: map<nat, Timer>, list1: seq<nat>, timers: map<nat, Timer>, list: seq<nat>,
                            now: nat) {
    && list1 != [] && list1[0] in timers1 && timers1[list1[0]].timeout <= now
    && timers == timers1[list1[0] := Fire(timers1[list1[0]], now)]
    && if timers[list1[0]].active then timers[list1[0]].timeout > now && Inserted(timers, list1[1..], list, list1[0])
       else list == list1[1..]
  }

  lemma TickListStep(list0: seq<nat>, timers1: map<nat, Timer>, list1: seq<nat>,
                     timers: map<nat, Timer>, list: seq<nat>, now: nat, d: nat, i: nat)
    requires ListOk(timers1, list1) && ListOk(timers, list) && i < d
    requires TickList(list0, timers1, list1, now, d, i) && HeadFired(timers1, list1, timers, list, now)
    ensures TickList(list0, timers, list, now, d, i + 1)
  {
    var t, rest := list1[0], list1[1..];
    RestDue(timers1, list1, now, d - i);
    assert list1[..d - i][1..] == list0[i + 1..d];
    if timers[t].active {
      var p :| InsertedAt(timers, rest, list, t, p);
      StillLeads(timers, rest, list, t, p, now, d - i - 1);
    }
    assert list[..d - i - 1] == rest[..d - i - 1] == list0[i + 1..d];
  }

  lemma TickMapStep(timers0: map<nat, Timer>, list0: seq<nat>, timers1: map<nat, Timer>, timers: map<nat, Timer>,
                    now: nat, i: nat)
    requires TickMap(timers0, list0, timers1, now, i) && i < |list0| && list0[i] in timers1
             && timers0[list0[i]] == timers1[list0[i]]
    requires timers1[list0[i]].active && timers1[list0[i]].timeout <= now
    requires timers == timers1[list0[i] := Fire(timers1[list0[i]], now)]
    ensures TickMap(timers0, list0, timers, now, i + 1)
  {
    assert list0[..i + 1] == list0[..i] + [list0[i]];
    forall u | u in timers
      ensures TickedAt(timers0, list0[..i + 1], timers, now, u)
    {
      assert TickedAt(timers0, list0[..i], timers1, now, u);
    }
  }

  lemma RestDue(timers: map<nat, Timer>, list: seq<nat>, now: nat, d: nat)
    requires ListOk(timers, list) && 0 < d <= |list|
    requires forall j :: 0 <= j < d ==> timers[list[j]].timeout <= now
    requires forall j :: d <= j < |list| ==> timers[list[j]].timeout > now
    ensures list[0] !in list[1..]
    ensures forall j :: 0 <= j < d - 1 ==> timers[list[1..][j]].timeout <= now
    ensures forall j :: d - 1 <= j < |list| - 1 ==> timers[list[1..][j]].timeout > now
  {
    assert forall j :: 0 <= j < |list| - 1 ==> list[1..][j] == list[j + 1];
  }

  lemma StillLeads(timers: map<nat, Timer>, rest: seq<nat>, list: seq<nat>, t: nat, p: nat, now: nat, d: nat)
    requires (forall u :: u in rest ==> u in timers) && t in timers && t !in rest
             && InsertedAt(timers, rest, list, t, p)
    requires timers[t].timeout > now && d <= |rest|
    requires forall j :: 0 <= j < d ==> timers[rest[j]].timeout <= now
    requires forall j :: d <= j < |rest| ==> timers[rest[j]].timeout > now
    ensures d <= |list| && list[..d] == rest[..d] && (forall u :: u in list ==> u in timers)
    ensures forall j :: 0 <= j < d ==> timers[list[j]].timeout <= now
    ensures forall j :: d <= j < |list| ==> timers[list[j]].timeout > now
  {
    assert p < |rest| ==> timers[rest[p]].timeout > now;
    forall j | 0 <= j < |list|
      ensures j != p ==> list[j] == rest[if j < p then j else j - 1]
    {
    }
  }

  lemma TickDone(timers0: map<nat, Timer>, list0: seq<nat>, timers: map<nat, Timer>, list: seq<nat>, now: nat, d: nat,
                 i: nat)
    requires ListOk(timers0, list0) && ListOk(timers, list)
    requires TickList(list0, timers, list, now, d, i) && TickMap(timers0, list0, timers, now, i)
    requires list == [] || timers[list[0]].timeout > now
    requires forall j :: d <= j < |list0| ==> timers0[list0[j]].timeout > now
    ensures i == d && AllAhead(timers, now) && Timely(timers, now)
    ensures timers.Keys == timers0.Keys && forall t :: t in timers ==> timers[t] == Ticked(timers0[t], now)
  {
    forall t | t in timers
      ensures timers[t].active ==> timers[t].timeout > now
    {
      if timers[t].active {
        var j :| 0 <= j < |list| && list[j] == t;
      }
    }
    forall t | t in timers
      ensures timers[t] == Ticked(timers0[t], now)
    {
      assert TickedAt(timers0, list0[..d], timers, now, t);
      if timers0[t].active {
        var j :| 0 <= j < |list0| && list0[j] == t;
        assert j < d ==> list0[..d][j] == t;
      }
    }
  }

  // ----- the tick from any state -----

  /** What the body of the loop of timer_irq does to the first timer. */
  function FiredOnce(tm: Timer, now: nat): Timer
    requires tm.timeout <= now
  {
    if tm.interval > 0 then Fire(tm, now) else tm.(active := false)
  }

  ghost predicate AllSettle(timers: map<nat, Timer>, now: nat) {
    forall t {:trigger timers[t]} :: t in timers && timers[t].active ==> Settles(timers[t], now)
  }

  /** While one timer that does not settle is in the list, the first timer is due, and stays so whichever fires. */
  lemma TickGoesOn(timers: map<nat, Timer>, list: seq<nat>, now: nat, t: nat)
    requires ListOk(timers, list) && t in timers && timers[t].active && !Settles(timers[t], now) && now + WORD < LONG
    ensures list != [] && timers[list[0]].timeout <= now
    ensures var timers' := timers[list[0] := FiredOnce(timers[list[0]], now)];
            timers'[t].active && !Settles(timers'[t], now)
  {
    var j :| 0 <= j < |list| && list[j] == t;
    assert timers[list[0]].timeout <= timers[list[j]].timeout;
    if list[0] == t { SettlesStep(timers[t], now); }
  }

  /** How far the timers of the list are behind, in all. */
  ghost function Lag(timers: map<nat, Timer>, list: seq<nat>, now: nat): nat {
    if list == [] then 0 else Behind(timers, list[0], now) + Lag(timers, list[1..], now)
  }

  function Behind(timers: map<nat, Timer>, t: nat, now: nat): nat {
    if t in timers && timers[t].timeout <= now then now + 1 - timers[t].timeout else 0
  }

  lemma {:induction false} LagPart(timers: map<nat, Timer>, a: seq<nat>, b: seq<nat>, now: nat)
    ensures Lag(timers, a + b, now) == Lag(timers, a, now) + Lag(timers, b, now)
  {
    if a == [] {
      assert a + b == b;
    } else {
      assert (a + b)[1..] == a[1..] + b;
      LagPart(timers, a[1..], b, now);
    }
  }

  lemma {:induction false} LagSame(timers: map<nat, Timer>, timers': map<nat, Timer>, list: seq<nat>, now: nat)
    requires forall t :: t in list ==> t in timers && t in timers' && timers'[t] == timers[t]
    ensures Lag(timers', list, now) == Lag(timers, list, now)
  {
    if list != [] { LagSame(timers, timers', list[1..], now); }
  }

  /** The first timer goes to another place, or goes: the rest is as far behind as it was. */
  lemma LagFired(timers: map<nat, Timer>, list: seq<nat>, timers': map<nat, Timer>, list': seq<nat>, now: nat, p: nat)
    requires list != [] && NoDup(list) && (forall t :: t in list ==> t in timers) && p < |list|
    requires list[0] in timers' && timers' == timers[list[0] := timers'[list[0]]]
             && list' == list[1..][..p] + [list[0]] + list[1..][p..]
    ensures Lag(timers', list', now) == Lag(timers, list, now) - Behind(timers, list[0], now) + Behind(timers',
                list[0], now)
  {
    LagPut(timers', list[1..], list[0], now, p);
    LagSame(timers, timers', list[1..], now);
  }

  lemma LagPut(timers: map<nat, Timer>, rest: seq<nat>, t: nat, now: nat, p: nat)
    requires p <= |rest|
    ensures Lag(timers, rest[..p] + [t] + rest[p..], now) == Lag(timers, rest, now) + Behind(timers, t, now)
  {
    var a, b := rest[..p], rest[p..];
    LagPart(timers, a + [t], b, now);
    LagPart(timers, a, [t], now);
    LagPart(timers, a, b, now);
    assert rest == a + b;
  }

  lemma LagDropped(timers: map<nat, Timer>, list: seq<nat>, timers': map<nat, Timer>, now: nat)
    requires list != [] && NoDup(list) && (forall t :: t in list ==> t in timers)
    requires list[0] in timers' && timers' == timers[list[0] := timers'[list[0]]] && timers[list[0]].timeout <= now
    ensures Lag(timers', list[1..], now) < Lag(timers, list, now)
  {
    LagSame(timers, timers', list[1..], now);
  }

  lemma HeadOnce(timers: map<nat, Timer>, list: seq<nat>, now: nat)
    requires ListOk(timers, list) && list != [] && timers[list[0]].timeout <= now && now + WORD < LONG
             && AllSettle(timers, now)
    ensures var t := list[0];
            && AllSettle(timers[t := FiredOnce(timers[t], now)], now)
            && (timers[t].interval > 0 ==>
               Behind(timers[t := FiredOnce(timers[t], now)], t, now) < Behind(timers, t, now))
  {
    var t := list[0];
    if timers[t].interval > 0 { SettlesStep(timers[t], now); }
  }

  /** sizeof(struct timerInfo). */
  const INFO := 12

  class TimerQueue {
    var now: nat                        // currentKernelTimestamp
    var timers: map<nat, Timer>
    var list: seq<nat>                  // timerList
    ghost var start: map<nat, nat>      // timeout when last set
    ghost var reported: map<nat, nat>   // events reported since

    ghost predicate Valid()
      reads this
    {
      ListOk(timers, list)
    }

    ghost predicate OnTime()
      reads this
    {
      Valid() && Timely(timers, now) && NoDrift(timers, start, reported)
    }

    constructor ()
      ensures OnTime() && timers == map[] && now == 0
    {
      now, timers, list, start, reported := 0, map[], [], map[], map[];
    }

    /** timerCreate. */
    method Create(t: nat, wakeAll: bool)
      requires OnTime() && t !in timers
      modifies `timers, `start, `reported
      ensures OnTime() && timers == old(timers)[t := Timer(false, 0, 0, wakeAll)]
    {
      SetTimely(timers, now, t, Timer(false, 0, 0, wakeAll));
      SetOnSchedule(timers, start, reported, t, Timer(false, 0, 0, wakeAll), 0, 0);
      timers := timers[t := Timer(false, 0, 0, wakeAll)];
      start, reported := start[t := 0], reported[t := 0];
    }

    /** __timerDeactivate. */
    method Deactivate(t: nat)
      requires Valid() && t in timers
      modifies `timers, `list
      ensures Valid() && timers == old(timers)[t := old(timers)[t].(active := false)] && list == Without(old(list), t)
    {
      RemoveOk(timers, list, t, timers[t].(active := false));
      if timers[t].active {
        list, timers := Without(list, t), timers[t := timers[t].(active := false)];
      } else {
        WithoutAbsent(list, t);
      }
    }

    /** __timerActivate: in front of the first timer that is later. */
    method Activate(t: nat)
      requires Valid() && t in timers
      modifies `timers, `list
      ensures Valid() && timers == old(timers)[t := old(timers)[t].(active := true)]
      ensures if old(timers)[t].active then list == old(list) else Inserted(timers, old(list), list, t)
    {
      if !timers[t].active {
        var p := 0;
        while p < |list| && timers[list[p]].timeout <= timers[t].timeout
          invariant p <= |list| && forall i :: 0 <= i < p ==> timers[list[i]].timeout <= timers[t].timeout
        {
          p := p + 1;
        }
        InsertOk(timers, list, t, timers[t].(active := true), p);
        list, timers := list[..p] + [t] + list[p..], timers[t := timers[t].(active := true)];
        assert InsertedAt(timers, old(list), list, t, p);
      }
    }

    /** New timeout and interval, then __timerUpdate. */
    method Update(t: nat, timeout: nat, interval: nat)
      requires Valid() && t in timers && timeout < LONG && interval < WORD
      modifies `timers, `list
      ensures Valid() && timers == old(timers)[t := Timer(true, timeout, interval, old(timers)[t].wakeAll)]
      ensures Inserted(timers, Without(old(list), t), list, t)
    {
      Unlink(t, timeout, interval);
      Activate(t);
    }

    method Unlink(t: nat, timeout: nat, interval: nat)
      requires Valid() && t in timers && timeout < LONG && interval < WORD
      modifies `timers, `list
      ensures Valid() && timers == old(timers)[t := Timer(false, timeout, interval, old(timers)[t].wakeAll)]
      ensures list == Without(old(list), t)
    {
      RemoveOk(timers, list, t, Timer(false, timeout, interval, timers[t].wakeAll));
      if timers[t].active {
        list := Without(list, t);
      } else {
        WithoutAbsent(list, t);
      }
      timers := timers[t := Timer(false, timeout, interval, timers[t].wakeAll)];
    }

    /** __timerWrite: -1 for a malformed request.  The timer ends up in the past, though it was set to the
        future, exactly if the 64-bit sum overflows. */
    method Write(t: nat, info: Option<(nat, nat)>) returns (r: int)
      requires OnTime() && now < LONG && t in timers && (info.Some? ==> info.value.0 < LONG && info.value.1 < WORD)
      modifies `timers, `list, `start, `reported
      ensures info.None? ==> r == -1 && timers == old(timers) && OnTime()
      ensures info.Some? ==>
                r == INFO && timers == old(timers)[t := Timer(true, (now + info.value.0) % LONG, info.value.1,
                  old(timers)[t].wakeAll)]
      ensures Valid() && NoDrift(timers, start, reported)
      ensures info.Some? ==> (Timely(timers, now) <==> now + info.value.0 < LONG)
    {
      if info.None? {
        return -1;
      }
      SumWraps(now, info.value.0);
      Arm(t, (now + info.value.0) % LONG, info.value.1);
      return INFO;
    }

    /** A timer is set anew; all are on time afterwards exactly if the new timeout is not in the past. */
    method Arm(t: nat, timeout: nat, interval: nat)
      requires OnTime() && t in timers && timeout < LONG && interval < WORD
      modifies `timers, `list, `start, `reported
      ensures Valid() && timers == old(timers)[t := Timer(true, timeout, interval, old(timers)[t].wakeAll)]
      ensures NoDrift(timers, start, reported) && (Timely(timers, now) <==> timeout >= now)
    {
      ghost var tm := Timer(true, timeout, interval, timers[t].wakeAll);
      SetTimely(timers, now, t, tm);
      SetOnSchedule(timers, start, reported, t, tm, timeout, 0);
      Update(t, timeout, interval);
      start, reported := start[t := timeout], reported[t := 0];
    }

    /** __timerShutdown; the caller wakes all waiters with -1. */
    method Shutdown(t: nat)
      requires OnTime() && t in timers
      modifies `timers, `list
      ensures OnTime() && timers == old(timers)[t := old(timers)[t].(active := false)]
    {
      ghost var tm := timers[t].(active := false);
      SetTimely(timers, now, t, tm);
      assert OnSchedule(timers, start, reported, t);
      SetOnSchedule(timers, start, reported, t, tm, start[t], reported[t]);
      assert start[t := start[t]] == start && reported[t := reported[t]] == reported;
      Deactivate(t);
    }

    /** __timerGetStatus: of a timer that does not repeat, whether it is still in the list. */
    method GetStatus(t: nat) returns (r: int)
      requires Valid() && t in timers
      ensures (r == -1 <==> timers[t].interval > 0) && (r == 0 <==> timers[t].interval == 0 && t in list)
      ensures r == 1 <==> timers[t].interval == 0 && t !in list
    {
      if timers[t].interval > 0 {
        return -1;
      }
      return if timers[t].active then 0 else 1;
    }

    /** __timerWait: None if the caller has to queue up.  A stale periodic timer is set right exactly if the
        product fits into 32 bits. */
    method Wait(t: nat) returns (r: Option<nat>)
      requires OnTime() && t in timers && now + WORD < LONG
      modifies `timers, `list, `reported
      ensures Valid() && (r.None? <==> old(timers)[t].timeout > now)
      ensures r.None? ==> OnTime() && timers == old(timers)[t := old(timers)[t].(active := true)]
      ensures r.Some? && old(timers)[t].interval == 0 ==>
                && OnTime() && timers == old(timers)[t := old(timers)[t].(active := false)]
                && r.value == if old(timers)[t].active then 1 else 0
      ensures r.Some? && old(timers)[t].interval > 0 ==>
                && timers == old(timers)[t := Fire(old(timers)[t], now)] && r.value == Counted(old(timers)[t], now)
                && (OnTime() <==> Fits(old(timers)[t], now))
    {
      if timers[t].timeout > now {
        Enable(t);
        return None;
      }
      if timers[t].interval > 0 {
        var n := FireTimer(t);
        return Some(n);
      }
      var n := if timers[t].active then 1 else 0;
      Shutdown(t);
      return Some(n);
    }

    method Enable(t: nat)
      requires OnTime() && t in timers && timers[t].timeout > now
      modifies `timers, `list
      ensures OnTime() && timers == old(timers)[t := old(timers)[t].(active := true)]
    {
      ghost var tm := timers[t].(active := true);
      SetTimely(timers, now, t, tm);
      assert OnSchedule(timers, start, reported, t);
      SetOnSchedule(timers, start, reported, t, tm, start[t], reported[t]);
      assert start[t := start[t]] == start && reported[t := reported[t]] == reported;
      Activate(t);
    }

    /** The timer is advanced past the current time, as far as 32 bits allow. */
    method FireTimer(t: nat) returns (n: nat)
      requires Valid() && NoDrift(timers, start, reported) && t in timers && timers[t].interval > 0
      requires timers[t].timeout <= now && now + WORD < LONG
      modifies `timers, `list, `reported
      ensures Valid() && timers == old(timers)[t := Fire(old(timers)[t], now)] && n == Counted(old(timers)[t], now)
      ensures t in timers && Righted(old(timers), timers, start, reported, now, t)
      ensures Inserted(timers, Without(old(list), t), list, t)
    {
      ghost var timers0, reported0 := timers, reported;
      assert OnSchedule(timers, start, reported, t);
      n := Advance(t);
      reported := reported[t := reported[t] + n];
      FiredWell(timers0, timers, start, reported0, reported, now, t, n);
    }

    method Advance(t: nat) returns (n: nat)
      requires Valid() && t in timers && timers[t].interval > 0 && timers[t].timeout <= now
      modifies `timers, `list
      ensures Valid() && timers == old(timers)[t := Fire(old(timers)[t], now)] && n == Counted(old(timers)[t], now)
      ensures Inserted(timers, Without(old(list), t), list, t)
    {
      ghost var tm := timers[t];
      n := ((now - timers[t].timeout) / timers[t].interval + 1) % WORD;
      assert n == Counted(tm, now);
      Update(t, (timers[t].timeout + n * timers[t].interval % WORD) % LONG, timers[t].interval);
    }

    /** The body of the loop of timer_irq; the caller wakes the waiters with the number of events. */
    method FireHead() returns (n: nat)
      requires Valid() && NoDrift(timers, start, reported) && list != [] && now + WORD < LONG
      requires timers[list[0]].timeout <= now <= timers[list[0]].timeout + TICK
      modifies `timers, `list, `reported
      ensures Valid() && NoDrift(timers, start, reported) && n == Events(old(timers)[old(list)[0]], now)
      ensures HeadFired(old(timers), old(list), timers, list, now)
    {
      var t := list[0];
      WithoutHead(list);
      if timers[t].interval > 0 {
        DueExact(timers[t], now);
        n := FireTimer(t);
      } else {
        n := 1;
        ghost var tm := timers[t].(active := false);
        assert OnSchedule(timers, start, reported, t);
        SetOnSchedule(timers, start, reported, t, tm, start[t], reported[t]);
        assert start[t := start[t]] == start && reported[t := reported[t]] == reported;
        Deactivate(t);
      }
    }

    /** timer_irq: 12 ms later, every timer that is due fires once, in the order of the list. */
    method Tick() returns (fired: seq<(nat, nat)>)
      requires OnTime() && now + TICK + WORD < LONG
      modifies `now, `timers, `list, `reported
      ensures now == old(now) + TICK && OnTime() && AllAhead(timers, now)
      ensures timers.Keys == old(timers).Keys && forall t :: t in timers ==> timers[t] == Ticked(old(timers)[t], now)
      ensures Firings(old(timers), old(list), now, fired) && Reported(old(timers), now, fired)
    {
      ghost var timers0, list0 := timers, list;
      now := now + TICK;
      ghost var d := DueLen(timers0, list0, now);
      DuePrefix(timers0, list0, now);
      ghost var i := 0;
      fired := [];
      while list != [] && timers[list[0]].timeout <= now
        invariant Valid() && NoDrift(timers, start, reported) && now == old(now) + TICK
        invariant TickList(list0, timers, list, now, d, i) && TickMap(timers0, list0, timers, now, i)
        invariant |fired| == i && FiredSoFar(timers0, list0, now, fired)
        decreases d - i
      {
        fired := TickNext(timers0, list0, old(now), d, i, fired);
        i := i + 1;
      }
      TickDone(timers0, list0, timers, list, now, d, i);
      FiringsReport(timers0, list0, now, fired);
    }

    method TickNext(ghost timers0: map<nat, Timer>, ghost list0: seq<nat>, ghost was: nat, ghost d: nat, ghost i: nat,
                    fired: seq<(nat, nat)>) returns (fired': seq<(nat, nat)>)
      requires ListOk(timers0, list0) && Timely(timers0, was) && now == was + TICK && now + WORD < LONG
      requires Valid() && NoDrift(timers, start, reported) && list != [] && timers[list[0]].timeout <= now
      requires TickList(list0, timers, list, now, d, i) && TickMap(timers0, list0, timers, now, i)
      requires |fired| == i && FiredSoFar(timers0, list0, now, fired)
      modifies `timers, `list, `reported
      ensures i < d && Valid() && NoDrift(timers, start, reported)
      ensures TickList(list0, timers, list, now, d, i + 1) && TickMap(timers0, list0, timers, now, i + 1)
      ensures |fired'| == i + 1 && FiredSoFar(timers0, list0, now, fired')
    {
      var t := list[0];
      ghost var list1, timers1 := list, timers;
      HeadDue(timers0, list0, timers, list, was, now, d, i);
      var n := FireHead();
      TickListStep(list0, timers1, list1, timers, list, now, d, i);
      TickMapStep(timers0, list0, timers1, timers, now, i);
      fired' := fired + [(t, n)];
    }

    /** timer_irq from any state, timers that are late by hours included: it ends if all timers settle, and by
        TickGoesOn only then. */
    method TickLate()
      requires Valid() && now + TICK + WORD < LONG && AllSettle(timers, now + TICK)
      modifies `now, `timers, `list
      ensures Valid() && now == old(now) + TICK && AllAhead(timers, now) && timers.Keys == old(timers).Keys
    {
      now := now + TICK;
      while list != [] && timers[list[0]].timeout <= now
        invariant Valid() && AllSettle(timers, now) && now == old(now) + TICK && timers.Keys == old(timers).Keys
        decreases Lag(timers, list, now)
      {
        FireFirst();
      }
      forall t | t in timers && timers[t].active
        ensures timers[t].timeout > now
      {
        var j :| 0 <= j < |list| && list[j] == t;
        assert timers[list[0]].timeout <= timers[list[j]].timeout;
      }
    }

    method FireFirst()
      requires Valid() && list != [] && timers[list[0]].timeout <= now && now + WORD < LONG && AllSettle(timers, now)
      modifies `timers, `list
      ensures Valid() && AllSettle(timers, now) && timers.Keys == old(timers).Keys
      ensures Lag(timers, list, now) < Lag(old(timers), old(list), now)
    {
      ghost var timers0, list0 := timers, list;
      var t := list[0];
      WithoutHead(list);
      HeadOnce(timers, list, now);
      if timers[t].interval > 0 {
        var _ := Advance(t);
        ghost var p: nat :| p <= |list0[1..]| && InsertedAt(timers, list0[1..], list, t, p);
        LagFired(timers0, list0, timers, list, now, p);
      } else {
        Deactivate(t);
        LagDropped(timers0, list0, timers, now);
      }
    }
  }

  /** The state of StaleTimerHangs is reached: set, shut down, forgotten for seven weeks, waited for. */
  method StaleRun() returns (q: TimerQueue, r: Option<nat>)
    ensures fresh(q) && q.Valid() && q.now == 9 + WORD - 1 && r == Some(0)
    ensures 0 in q.timers && q.timers[0] == Timer(true, 9, 1, true) && !Settles(q.timers[0], q.now + TICK)
  {
    q := new TimerQueue();
    q.Create(0, true);
    var _ := q.Write(0, Some((9, 1)));
    q.Shutdown(0);
    ghost var tm := Timer(false, 9, 1, true);
    StaleTimerHangs(tm);
    var n := 0;
    while n < 357913942
      invariant n <= 357913942 && q.OnTime() && q.now == n * TICK && fresh(q)
      invariant 0 in q.timers && q.timers[0] == tm
    {
      var _ := q.Tick();
      n := n + 1;
    }
    r := q.Wait(0);
    StaleTimerHangs(q.timers[0]);
  }

  /** After one tick, a write of the largest timeout sets the timer to 11, which is in the past. */
  method OverflowRun() returns (q: TimerQueue)
    ensures fresh(q) && q.Valid() && q.now == TICK && 0 in q.timers && q.timers[0] == Timer(true, 11, 1, true)
    ensures !Timely(q.timers, q.now)
  {
    q := new TimerQueue();
    q.Create(0, true);
    var _ := q.Tick();
    var _ := q.Write(0, Some((LONG - 1, 1)));
  }
}
