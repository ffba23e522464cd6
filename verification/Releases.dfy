/** What giving back references may do: objects without references are destroyed, and their own references go. */
module Releases {
  import opened Sequences
  import opened WaitQueues
  import opened Lifecycle
  import opened Attachments

  datatype State = State(k: Snap, w: World, t: Tally)

  /** Objects outside `self` that were destroyed before, or exist still, are left alone. */
  predicate Spared(a: State, b: State, self: set<Obj>, x: Obj) {
    x !in self && x in a.t.refs && x in b.t.refs && (a.t.refs[x] == 0 || b.t.refs[x] > 0)
  }

  /** Counts only sink; an object that is spared keeps its tables or sub-events. */
  predicate ObjAfter(a: State, b: State, self: set<Obj>, x: Obj) {
    && (x in a.t.refs && x in b.t.refs ==> b.t.refs[x] <= a.t.refs[x])
    && (Spared(a, b, self, x) ==>
          match x
          case ProcObj(p) => p in a.w.procs && p in b.w.procs ==> b.w.procs[p] == a.w.procs[p]
          case EventObj(e) => e in a.k.events && e in b.k.events ==> b.k.events[e].subs == a.k.events[e].subs
          case _ => true)
  }

  /** A process may lose its tables when it has no threads. */
  predicate ProcAfter(procs: map<nat, Proc>, procs': map<nat, Proc>, p: nat) {
    p in procs && p in procs' ==>
      || procs'[p] == procs[p]
      || (procs[p].threads == [] && procs'[p] == procs[p].(paged := false, handled := false))
  }

  predicate HandleAfter(a: State, b: State, self: set<Obj>, h: Handle) {
    && (h in b.t.handles ==> h in a.t.handles && b.t.handles[h] == a.t.handles[h])
    && (h in a.t.handles && Spared(a, b, self, ProcObj(h.pid)) ==> h in b.t.handles)
  }

  predicate SubAfter(a: State, b: State, self: set<Obj>, s: nat) {
    && (s in b.k.subs ==> s in a.k.subs && b.k.subs[s] == a.k.subs[s].(blocked := b.k.subs[s].blocked))
    && (s in a.k.subs && Spared(a, b, self, EventObj(a.k.subs[s].event)) ==> s in b.k.subs)
  }

  /** The object has been destroyed. */
  predicate Dead(refs: map<Obj, nat>, o: Obj) { Passive(o) && o in refs && refs[o] == 0 }

  /** Only who waited for a semaphore or device that has been destroyed gave up, with -1. */
  ghost predicate Notices(told: map<Obj, int>, refs: map<Obj, nat>) {
    forall o {:trigger told[o]} :: o in told ==> told[o] == -1 && Dead(refs, o)
  }

  /** What has been destroyed stays so. */
  ghost predicate StayDead(refs: map<Obj, nat>, refs': map<Obj, nat>) {
    forall o {:trigger Dead(refs', o)} :: Dead(refs, o) ==> Dead(refs', o)
  }

  lemma StayDeadTrans(a: map<Obj, nat>, b: map<Obj, nat>, c: map<Obj, nat>)
    requires StayDead(a, b) && StayDead(b, c)
    ensures StayDead(a, c)
  {
    forall o | Dead(a, o)
      ensures Dead(c, o)
    {
      assert Dead(b, o);
    }
  }

  /** What is left to release: sub-events and handles. */
  ghost function Weight(a: State): nat { |a.k.subs| + |a.t.handles| }

  ghost predicate Consequences(a: State, b: State, told: map<Obj, int>, self: set<Obj>) {
    && Fates(a.k, b.k, {}, told, 0) && Notices(told, b.t.refs)
    && b.w.sems == a.w.sems && b.w.devs == a.w.devs && b.w.late == a.w.late && b.k.events.Keys == a.k.events.Keys
    && (forall x {:trigger ObjAfter(a, b, self, x)} :: ObjAfter(a, b, self, x))
    && (forall p {:trigger ProcAfter(a.w.procs, b.w.procs, p)} :: ProcAfter(a.w.procs, b.w.procs, p))
    && (forall h {:trigger HandleAfter(a, b, self, h)} :: HandleAfter(a, b, self, h))
    && (forall s {:trigger SubAfter(a, b, self, s)} :: SubAfter(a, b, self, s))
  }

  /** All that releasing references may have done; the details are out of the prover's sight until a proof says Peek. */
  ghost predicate Aftermath(a: State, b: State, told: map<Obj, int>, self: set<Obj>) {
    && b.w.procs.Keys == a.w.procs.Keys && b.t.refs.Keys == a.t.refs.Keys && Weight(b) <= Weight(a)
    && forall n {:trigger Peek(n)} :: Peek(n) ==> Consequences(a, b, told, self)
  }

  /** Asks for the details of Aftermath. */
  predicate Peek(n: nat) { true }

  lemma SparedTwice(a: State, b: State, c: State, self: set<Obj>, x: Obj)
    requires ObjAfter(a, b, self, x) && ObjAfter(b, c, self, x) && b.t.refs.Keys == a.t.refs.Keys
             && Spared(a, c, self, x)
    ensures Spared(a, b, self, x) && Spared(b, c, self, x)
  {
  }

  lemma AfterStayDead(a: State, b: State, told: map<Obj, int>, self: set<Obj>)
    requires Aftermath(a, b, told, self)
    ensures StayDead(a.t.refs, b.t.refs)
  {
    assert Peek(0);
    forall o | Dead(a.t.refs, o)
      ensures Dead(b.t.refs, o)
    {
      assert ObjAfter(a, b, self, o);
    }
  }

  lemma NoticesJoin(t1: map<Obj, int>, t2: map<Obj, int>, r1: map<Obj, nat>, r2: map<Obj, nat>)
    requires Notices(t1, r1) && Notices(t2, r2) && StayDead(r1, r2)
    ensures Notices(t2 + t1, r2)
  {
    forall o | o in t2 + t1
      ensures (t2 + t1)[o] == -1 && Dead(r2, o)
    {
      assert o in t1 ==> Dead(r1, o);
    }
  }

  lemma AfterTrans(a: State, b: State, c: State, t1: map<Obj, int>, t2: map<Obj, int>, self: set<Obj>)
    requires Aftermath(a, b, t1, self) && Aftermath(b, c, t2, self)
    ensures Aftermath(a, c, t2 + t1, self)
  {
    assert Peek(0);
    var nobody: set<nat> := {};
    FatesTrans(a.k, b.k, c.k, nobody, nobody, t1, t2, 0);
    assert nobody + nobody == nobody;
    AfterStayDead(b, c, t2, self);
    NoticesJoin(t1, t2, b.t.refs, c.t.refs);
    forall x
      ensures ObjAfter(a, c, self, x)
    {
      assert ObjAfter(a, b, self, x) && ObjAfter(b, c, self, x);
      if Spared(a, c, self, x) { SparedTwice(a, b, c, self, x); }
    }
    forall p
      ensures ProcAfter(a.w.procs, c.w.procs, p)
    {
      assert ProcAfter(a.w.procs, b.w.procs, p) && ProcAfter(b.w.procs, c.w.procs, p);
    }
    forall h
      ensures HandleAfter(a, c, self, h)
    {
      assert HandleAfter(a, b, self, h) && HandleAfter(b, c, self, h);
      assert ObjAfter(a, b, self, ProcObj(h.pid)) && ObjAfter(b, c, self, ProcObj(h.pid));
    }
    forall s
      ensures SubAfter(a, c, self, s)
    {
      assert SubAfter(a, b, self, s) && SubAfter(b, c, self, s);
      if s in a.k.subs {
        var e := EventObj(a.k.subs[s].event);
        assert ObjAfter(a, b, self, e) && ObjAfter(b, c, self, e);
      }
    }
  }

  lemma AfterWider(a: State, b: State, told: map<Obj, int>, self: set<Obj>, wider: set<Obj>)
    requires Aftermath(a, b, told, self) && self <= wider
    ensures Aftermath(a, b, told, wider)
  {
    assert Peek(0);
    forall x
      ensures ObjAfter(a, b, wider, x)
    {
      assert ObjAfter(a, b, self, x);
    }
    forall h
      ensures HandleAfter(a, b, wider, h)
    {
      assert HandleAfter(a, b, self, h);
    }
    forall s
      ensures SubAfter(a, b, wider, s)
    {
      assert SubAfter(a, b, self, s);
    }
  }

  lemma AfterNone(a: State, self: set<Obj>)
    ensures Aftermath(a, a, map[], self)
  {
    assert forall u :: u in a.k.threads ==> FateOf(a.k, a.k, {}, map[], 0, u);
  }

  /** Everybody who waited is woken. */
  lemma AfterRouse(a: State, b: State, told: map<Obj, int>, code: int, self: set<Obj>)
    requires Effects(a.k, b.k) && Fates(a.k, b.k, {}, told, code) && b.w == a.w && b.t == a.t && Notices(told, a.t.refs)
    ensures Aftermath(a, b, told, self)
  {
    FatesCode(a.k, b.k, told, code, 0);
    forall x
      ensures ObjAfter(a, b, self, x)
    {
      if x.EventObj? && x.ev in b.k.events {
        assert b.k.events[x.ev] == a.k.events[x.ev].(status := b.k.events[x.ev].status);
      }
    }
    forall s
      ensures SubAfter(a, b, self, s)
    {
      assert s in b.k.subs ==> b.k.subs[s] == a.k.subs[s] || b.k.subs[s] == a.k.subs[s].(blocked := false);
    }
    assert b.k.subs.Keys == a.k.subs.Keys;
    assert |b.k.subs.Keys| == |b.k.subs| && |a.k.subs.Keys| == |a.k.subs|;
  }

  lemma AfterCut(a: State, b: State, s: nat)
    requires s in a.k.subs && a.k.subs[s].event in a.k.events && b.k == WithoutSub(a.k, s)
    requires b.w == a.w && b.t == a.t.(held := b.t.held)
    ensures Aftermath(a, b, map[], {EventObj(a.k.subs[s].event)}) && Weight(b) < Weight(a)
  {
    FatesSame(a.k, b.k);
    AfterLess(a, b, s, a.k.subs[s].event);
  }

  /** One sub-event of e less. */
  lemma AfterLess(a: State, b: State, s: nat, e: nat)
    requires Fates(a.k, b.k, {}, map[], 0) && s in a.k.subs && a.k.subs[s].event == e && b.k.subs == a.k.subs - {s}
    requires e in a.k.events && e in b.k.events && b.k.events == a.k.events[e := b.k.events[e]]
    requires b.w == a.w && b.t == a.t.(held := b.t.held)
    ensures Aftermath(a, b, map[], {EventObj(e)}) && Weight(b) < Weight(a)
  {
    DropSize(a.k.subs, s);
    forall x
      ensures ObjAfter(a, b, {EventObj(e)}, x)
    {
    }
    forall x
      ensures SubAfter(a, b, {EventObj(e)}, x)
    {
      assert x != s && x in a.k.subs ==> b.k.subs[x] == a.k.subs[x];
    }
    SameRest(a, b, {EventObj(e)});
  }

  lemma FatesSame(a: Snap, b: Snap)
    requires b.threads == a.threads && forall u: nat ::
               T(u) in a.place ==> T(u) in b.place && b.place[T(u)] == a.place[T(u)]
    ensures Fates(a, b, {}, map[], 0)
  {
    forall u | u in a.threads
      ensures FateOf(a, b, {}, map[], 0, u)
    {
      assert Woken(a.threads[u], b.threads[u]);
    }
  }

  /** Processes and handles that did not change. */
  lemma SameRest(a: State, b: State, self: set<Obj>)
    requires b.w == a.w && b.t.handles == a.t.handles
    ensures forall p :: ProcAfter(a.w.procs, b.w.procs, p)
    ensures forall h :: HandleAfter(a, b, self, h)
  {
  }

  lemma AfterClose(a: State, b: State, h: Handle)
    requires h in a.t.handles && b.k == a.k && b.w == a.w && b.t == a.t.(handles := a.t.handles - {h}, held := b.t.held)
    ensures Aftermath(a, b, map[], {ProcObj(h.pid)}) && Weight(b) < Weight(a)
  {
    FatesSame(a.k, b.k);
    DropSize(a.t.handles, h);
    SameObjs(a, b, {ProcObj(h.pid)});
    OneClosed(a, b, h);
    SameSubs(a, b, {ProcObj(h.pid)});
  }

  lemma SameObjs(a: State, b: State, self: set<Obj>)
    requires b.k == a.k && b.w == a.w && b.t.refs == a.t.refs
    ensures forall x :: ObjAfter(a, b, self, x)
    ensures forall p :: ProcAfter(a.w.procs, b.w.procs, p)
  {
  }

  lemma OneClosed(a: State, b: State, h: Handle)
    requires h in a.t.handles && b.t.handles == a.t.handles - {h}
    ensures forall g :: HandleAfter(a, b, {ProcObj(h.pid)}, g)
  {
    var self := {ProcObj(h.pid)};
    forall g
      ensures HandleAfter(a, b, self, g)
    {
      assert g != h && g in a.t.handles ==> g in b.t.handles;
    }
  }

  lemma SameSubs(a: State, b: State, self: set<Obj>)
    requires b.k == a.k
    ensures forall s :: SubAfter(a, b, self, s)
  {
  }

  lemma AfterTouch(a: State, b: State, p: nat)
    requires p in a.w.procs && a.w.procs[p].threads == [] && b.k == a.k && b.t == a.t.(log := b.t.log)
    requires b.w == a.w.(procs := a.w.procs[p := a.w.procs[p].(paged := false, handled := false)])
    ensures Aftermath(a, b, map[], {ProcObj(p)})
  {
    FatesSame(a.k, b.k);
    SameSubs(a, b, {ProcObj(p)});
    forall x
      ensures ObjAfter(a, b, {ProcObj(p)}, x)
    {
      assert x.ProcObj? && x !in {ProcObj(p)} ==> x.pid != p;
    }
    forall q
      ensures ProcAfter(a.w.procs, b.w.procs, q)
    {
      assert q != p && q in a.w.procs ==> b.w.procs[q] == a.w.procs[q];
    }
  }

  lemma TouchedAfter(a: State, b: State, c: State, told: map<Obj, int>, p: nat)
    requires Aftermath(a, b, told, {ProcObj(p)})
    requires p in b.w.procs && b.w.procs[p].threads == [] && c.k == b.k && c.t == b.t.(log := c.t.log)
    requires c.w == b.w.(procs := b.w.procs[p := b.w.procs[p].(paged := false, handled := false)])
    ensures Aftermath(a, c, told, {ProcObj(p)})
  {
    AfterTouch(b, c, p);
    AfterTrans(a, b, c, told, map[], {ProcObj(p)});
    assert map[] + told == told;
  }

  /** One reference less. */
  predicate OneLess(a: State, m: State, o: Obj) {
    && o in a.t.refs && a.t.refs[o] > 0 && m.k == a.k && m.w == a.w
    && m.t == a.t.(refs := a.t.refs[o := a.t.refs[o] - 1], held := m.t.held)
  }

  /** Giving back a reference, and what follows if it was the last. */
  lemma AfterDecrement(a: State, m: State, b: State, o: Obj, told: map<Obj, int>)
    requires OneLess(a, m, o) && if m.t.refs[o] == 0 then Aftermath(m, b, told, {o}) else b == m && told == map[]
    ensures Aftermath(a, b, told, {})
  {
    if m.t.refs[o] == 0 {
      AfterLast(a, m, b, o, told);
    } else {
      FatesSame(a.k, m.k);
      SameRest(a, m, {});
      SameSubs(a, m, {});
    }
  }

  lemma AfterLast(a: State, m: State, b: State, o: Obj, told: map<Obj, int>)
    requires OneLess(a, m, o) && m.t.refs[o] == 0 && Aftermath(m, b, told, {o})
    ensures Aftermath(a, b, told, {})
  {
    assert Peek(0);
    forall x
      ensures ObjAfter(a, b, {}, x)
    {
      assert ObjAfter(m, b, {o}, x);
    }
    LastHandles(a, m, b, o, told);
    LastSubs(a, m, b, o, told);
  }

  lemma LastHandles(a: State, m: State, b: State, o: Obj, told: map<Obj, int>)
    requires OneLess(a, m, o) && m.t.refs[o] == 0 && Aftermath(m, b, told, {o})
    ensures forall h :: HandleAfter(a, b, {}, h)
  {
    assert Peek(0);
    forall h
      ensures HandleAfter(a, b, {}, h)
    {
      assert HandleAfter(m, b, {o}, h) && ObjAfter(m, b, {o}, ProcObj(h.pid));
    }
  }

  lemma LastSubs(a: State, m: State, b: State, o: Obj, told: map<Obj, int>)
    requires OneLess(a, m, o) && m.t.refs[o] == 0 && Aftermath(m, b, told, {o})
    ensures forall s :: SubAfter(a, b, {}, s)
  {
    assert Peek(0);
    forall s
      ensures SubAfter(a, b, {}, s)
    {
      assert SubAfter(m, b, {o}, s);
      if s in a.k.subs { assert ObjAfter(m, b, {o}, EventObj(a.k.subs[s].event)); }
    }
  }

  /** A step that tells nobody anything, then releases. */
  lemma AfterThen(a: State, b: State, c: State, told: map<Obj, int>, self: set<Obj>)
    requires Aftermath(a, b, map[], self) && Aftermath(b, c, told, {})
    ensures Aftermath(a, c, told, self)
  {
    AfterWider(b, c, told, {}, self);
    AfterTrans(a, b, c, map[], told, self);
    assert told + map[] == told;
  }

  lemma HandBack(held: map<Obj, nat>, o: Obj)
    requires o in held
    ensures var h := Handed(held, o); h[o := h[o] - 1] == held
  {
  }

  /** A reference to o is gone; with the last one, waiters of a semaphore or device are told. */
  ghost predicate Dropped(refs: map<Obj, nat>, refs': map<Obj, nat>, told: map<Obj, int>, o: Obj) {
    && o in refs && o in refs' && refs'[o] < refs[o] && (refs[o] == 1 && (o.SemObj? || o.DevObj?) ==> o in told)
  }

  /** Kernel code holds no reference. */
  ghost predicate Settled(held: map<Obj, nat>) { forall o {:trigger held[o]} :: o in held ==> held[o] == 0 }

  // ----- copying a handle table -----

  /** Process p has the handles of process `from`, but for those in `rest`; nobody else's have changed. */
  ghost predicate ForkedTo(was: map<Handle, Obj>, now: map<Handle, Obj>, from: nat, p: nat, rest: set<Handle>) {
    && (forall h: Handle {:trigger h in now} :: h.pid != p ==> (h in now <==> h in was))
    && (forall h: Handle {:trigger h in now} :: h.pid == p ==> (h in now <==> Handle(from, h.slot) in was - rest))
    && (forall h: Handle {:trigger now[h]} ::
       h in now ==> now[h] == was[Handle(if h.pid == p then from else h.pid, h.slot)])
    && (forall h :: h in rest ==> h in was && h.pid == from) && from != p
  }

  lemma ForkedStep(was: map<Handle, Obj>, now: map<Handle, Obj>, from: nat, p: nat, rest: set<Handle>, h: Handle)
    requires ForkedTo(was, now, from, p, rest) && h in rest
    ensures h in now && Handle(p, h.slot) !in now
            && ForkedTo(was, now[Handle(p, h.slot) := now[h]], from, p, rest - {h})
  {
    assert h == Handle(from, h.slot);
  }

  // ----- who is told what -----

  /** Waiters of the objects in `ended` get the exit code, those of semaphores and devices that have been destroyed -1,
      and nobody else is told anything. */
  ghost predicate Tells(told: map<Obj, int>, ended: set<Obj>, code: int, refs: map<Obj, nat>) {
    forall o {:trigger TellsAt(told, ended, code, refs, o)} :: TellsAt(told, ended, code, refs, o)
  }

  predicate TellsAt(told: map<Obj, int>, ended: set<Obj>, code: int, refs: map<Obj, nat>, o: Obj) {
    && (o in ended ==> !Passive(o) && o in told && told[o] == code)
    && (o in told && o !in ended ==> told[o] == -1 && Dead(refs, o))
  }

  lemma TellsEnded(told: map<Obj, int>, ended: set<Obj>, code: int, refs: map<Obj, nat>)
    requires Tells(told, ended, code, refs)
    ensures forall o :: o in ended ==> o in told && told[o] == code
  {
    forall o | o in ended
      ensures o in told && told[o] == code
    {
      assert TellsAt(told, ended, code, refs, o);
    }
  }

  lemma TellsMerge(t1: map<Obj, int>, e1: set<Obj>, r1: map<Obj, nat>, t2: map<Obj, int>, e2: set<Obj>,
                   r2: map<Obj, nat>, code: int)
    requires Tells(t1, e1, code, r1) && Tells(t2, e2, code, r2) && StayDead(r1, r2)
    ensures Tells(t2 + t1, e1 + e2, code, r2)
  {
    var told, ended := t2 + t1, e1 + e2;
    forall o
      ensures TellsAt(told, ended, code, r2, o)
    {
      assert TellsAt(t1, e1, code, r1, o) && TellsAt(t2, e2, code, r2, o);
      assert Dead(r1, o) ==> Dead(r2, o);
    }
  }

  /** Fates one after the other. */
  lemma FatesJoin(a: Snap, b: Snap, c: Snap, v1: set<nat>, v2: set<nat>, t1: map<Obj, int>, t2: map<Obj, int>,
                  e1: set<Obj>, e2: set<Obj>, code: int, r1: map<Obj, nat>, r2: map<Obj, nat>)
    requires Fates(a, b, v1, t1, code) && Fates(b, c, v2, t2, code)
    requires Tells(t1, e1, code, r1) && Tells(t2, e2, code, r2) && StayDead(r1, r2)
    ensures Fates(a, c, v1 + v2, t2 + t1, code) && Tells(t2 + t1, e1 + e2, code, r2)
  {
    FatesTrans(a, b, c, v1, v2, t1, t2, code);
    TellsMerge(t1, e1, r1, t2, e2, r2, code);
  }

  lemma AfterTells(b: State, c: State, told: map<Obj, int>, self: set<Obj>, code: int)
    requires Aftermath(b, c, told, self)
    ensures Fates(b.k, c.k, {}, told, code) && Tells(told, {}, code, c.t.refs)
  {
    assert Peek(0);
    FatesCode(b.k, c.k, told, 0, code);
  }

  /** Fates, then releases. */
  lemma FatesAfter(a: Snap, b: State, c: State, v: set<nat>, t1: map<Obj, int>, t2: map<Obj, int>, ended: set<Obj>,
                   self: set<Obj>, code: int)
    requires Fates(a, b.k, v, t1, code) && Tells(t1, ended, code, b.t.refs) && Aftermath(b, c, t2, self)
    ensures Fates(a, c.k, v, t2 + t1, code) && Tells(t2 + t1, ended, code, c.t.refs) && StayDead(b.t.refs, c.t.refs)
  {
    AfterTells(b, c, t2, self, code);
    AfterStayDead(b, c, t2, self);
    NothingMore(v);
    NothingMore(ended);
    FatesJoin(a, b.k, c.k, v, {}, t1, t2, ended, {}, code, b.t.refs, c.t.refs);
  }

  lemma NothingMore<A>(s: set<A>)
    ensures s + {} == s
  {
  }

  /** Threads and exit codes of the processes other than p. */
  ghost predicate OthersKept(procs: map<nat, Proc>, procs': map<nat, Proc>, p: nat) {
    && procs'.Keys == procs.Keys
    && forall q {:trigger SameMembers(procs, procs', q)} :: q != p ==> SameMembers(procs, procs', q)
  }

  predicate SameMembers(procs: map<nat, Proc>, procs': map<nat, Proc>, q: nat) {
    q in procs && q in procs' ==> procs'[q].threads == procs[q].threads && procs'[q].exitcode == procs[q].exitcode
  }

  lemma OthersTrans(a: map<nat, Proc>, b: map<nat, Proc>, c: map<nat, Proc>, p: nat)
    requires OthersKept(a, b, p) && OthersKept(b, c, p)
    ensures OthersKept(a, c, p)
  {
    forall q | q != p
      ensures SameMembers(a, c, q)
    {
      assert SameMembers(a, b, q) && SameMembers(b, c, q);
    }
  }

  lemma OthersAfter(a: State, b: State, told: map<Obj, int>, self: set<Obj>, p: nat)
    requires Aftermath(a, b, told, self)
    ensures OthersKept(a.w.procs, b.w.procs, p)
    ensures p in a.w.procs ==> ProcAfter(a.w.procs, b.w.procs, p)
    ensures Spared(a, b, self, ProcObj(p)) && p in a.w.procs ==> b.w.procs[p] == a.w.procs[p]
  {
    assert Peek(0);
    assert ObjAfter(a, b, self, ProcObj(p));
    forall q
      ensures SameMembers(a.w.procs, b.w.procs, q)
    {
      assert ProcAfter(a.w.procs, b.w.procs, q);
    }
  }

  lemma OthersOne(procs: map<nat, Proc>, p: nat, r: Proc)
    requires p in procs
    ensures OthersKept(procs, procs[p := r], p)
  {
  }

  ghost function ThreadObjs(list: seq<nat>): set<Obj> { set t | t in list :: ThreadObj(t) }

  /** One more thread of the process has been shut down. */
  lemma FatesStep(a: Snap, b: Snap, c: Snap, proc: Proc, p: nat, was: seq<nat>, i: nat, code: int, t1: map<Obj, int>,
                  t2: map<Obj, int>,
                  r1: map<Obj, nat>, r2: map<Obj, nat>)
    requires i < |was| && Fates(a, b, Elems(was[..i]), t1, code)
             && Tells(t1, {ProcObj(p)} + ThreadObjs(was[..i]), code, r1) && StayDead(r1, r2)
    requires Fates(b, c, {was[i]}, t2, code)
    requires Tells(t2, {ThreadObj(was[i])} + (if Without(proc.threads, was[i]) == [] then {ProcObj(p)} else {}), code,
                 r2)
    ensures Fates(a, c, Elems(was[..i + 1]), t2 + t1, code)
            && Tells(t2 + t1, {ProcObj(p)} + ThreadObjs(was[..i + 1]), code, r2)
  {
    var e1, e2 := {ProcObj(p)} + ThreadObjs(was[..i]),
            {ThreadObj(was[i])} + (if Without(proc.threads, was[i]) == [] then {ProcObj(p)} else {});
    FatesJoin(a, b, c, Elems(was[..i]), {was[i]}, t1, t2, e1, e2, code, r1, r2);
    assert was[..i + 1] == was[..i] + [was[i]];
    assert Elems(was[..i]) + {was[i]} == Elems(was[..i + 1]);
    assert ThreadObjs(was[..i]) + {ThreadObj(was[i])} == ThreadObjs(was[..i + 1]);
    assert e1 + e2 == {ProcObj(p)} + ThreadObjs(was[..i + 1]);
  }

  // ----- detaching by identifier -----

  /** Of the sub-events of e exactly those with the identifier are gone. */
  ghost predicate Pruned(subs: map<nat, Sub>, subs': map<nat, Sub>, e: nat, ident: int) {
    forall s {:trigger s in subs'} :: s in subs && subs[s].event == e ==> (s in subs' <==> subs[s].ident != ident)
  }

  /** The same for the first i of the list; the others are all there, with their identifiers. */
  ghost predicate PrunedTo(subs: map<nat, Sub>, subs': map<nat, Sub>, list: seq<nat>, ident: int, i: nat) {
    forall j {:trigger PrunedAt(subs, subs', list, ident, i, j)} ::
        0 <= j < |list| ==> PrunedAt(subs, subs', list, ident, i, j)
  }

  predicate PrunedAt(subs: map<nat, Sub>, subs': map<nat, Sub>, list: seq<nat>, ident: int, i: nat, j: nat)
    requires j < |list|
  {
    && list[j] in subs && (list[j] in subs' <==> j >= i || subs[list[j]].ident != ident)
    && (list[j] in subs' ==> subs'[list[j]].ident == subs[list[j]].ident && subs'[list[j]].event == subs[list[j]].event)
  }

  lemma PrunedSkip(subs: map<nat, Sub>, subs': map<nat, Sub>, list: seq<nat>, ident: int, i: nat)
    requires PrunedTo(subs, subs', list, ident, i) && i < |list| && list[i] in subs && subs[list[i]].ident != ident
    ensures PrunedTo(subs, subs', list, ident, i + 1)
  {
    var n := i + 1;
    forall j | 0 <= j < |list|
      ensures PrunedAt(subs, subs', list, ident, n, j)
    {
      assert PrunedAt(subs, subs', list, ident, i, j);
    }
  }

  lemma PrunedStep(subs: map<nat, Sub>, b: State, c: State, list: seq<nat>, ident: int, i: nat, e: nat,
                   told: map<Obj, int>)
    requires PrunedTo(subs, b.k.subs, list, ident, i) && i < |list| && NoDup(list)
             && Aftermath(b, c, told, {EventObj(e)})
    requires (forall s :: s in list ==> s in subs && subs[s].event == e) && subs[list[i]].ident == ident
    requires list[i] !in c.k.subs && Remains(b.k.subs, c.k.subs, e, {list[i]})
    ensures PrunedTo(subs, c.k.subs, list, ident, i + 1)
  {
    assert Peek(0);
    var n, now := i + 1, c.k.subs;
    forall j | 0 <= j < |list|
      ensures PrunedAt(subs, now, list, ident, n, j)
    {
      assert PrunedAt(subs, b.k.subs, list, ident, i, j) && SubAfter(b, c, {EventObj(e)}, list[j]);
      assert list[j] in list;
    }
  }

  /** No sub-event is new, and those of e are all left but for `gone`. */
  ghost predicate Remains(subs: map<nat, Sub>, subs': map<nat, Sub>, e: nat, gone: set<nat>) {
    && subs'.Keys <= subs.Keys
    && forall x {:trigger x in subs'} :: x in subs && subs[x].event == e && x !in gone ==> x in subs'
  }

  lemma RemainsSpared(a: State, b: State, told: map<Obj, int>, e: nat)
    requires Aftermath(a, b, told, {}) && Spared(a, b, {}, EventObj(e))
    ensures Remains(a.k.subs, b.k.subs, e, {})
  {
    assert Peek(0);
    forall x
      ensures x in b.k.subs ==> x in a.k.subs
      ensures x in a.k.subs && a.k.subs[x].event == e ==> x in b.k.subs
    {
      assert SubAfter(a, b, {}, x);
    }
  }

  lemma RemainsCut(k: Snap, subs': map<nat, Sub>, s: nat)
    requires s in k.subs && k.subs[s].event in k.events && Remains(WithoutSub(k, s).subs, subs', k.subs[s].event, {})
    ensures s !in subs' && Remains(k.subs, subs', k.subs[s].event, {s})
  {
    var mid := WithoutSub(k, s).subs;
    assert s !in mid && forall x :: x in k.subs && x != s ==> x in mid && mid[x] == k.subs[x];
  }

  lemma PrunedAll(k: Snap, subs': map<nat, Sub>, e: nat, ident: int)
    requires Attached(k.subs, k.events) && e in k.events
             && PrunedTo(k.subs, subs', k.events[e].subs, ident, |k.events[e].subs|)
    ensures Pruned(k.subs, subs', e, ident)
  {
    var list := k.events[e].subs;
    forall s | s in k.subs && k.subs[s].event == e
      ensures s in subs' <==> k.subs[s].ident != ident
    {
      assert ListedBack(k.subs, k.events, s);
      var j :| 0 <= j < |list| && list[j] == s;
      assert PrunedAt(k.subs, subs', list, ident, |list|, j);
    }
  }
}
