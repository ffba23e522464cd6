/** Threads, sub-events and the queues they wait in, as values. */
module WaitQueues {

  import opened Sequences

  /** Kernel objects that can be waited for.  A device stands for a pipe end or a timer: it is ready
      with a result, or it is not. */
  datatype Obj = ThreadObj(tid: nat) | ProcObj(pid: nat) | SemObj(sem: nat) | EventObj(ev: nat) | DevObj(dev: nat)

  /** threadList, or the `waiters` list of an object. */
  datatype Queue = RunQ | WaitQ(obj: Obj)

  /** What hangs in a queue: a thread's or a sub-event's list entry. */
  datatype Node = T(tid: nat) | S(sid: nat)

  datatype Thread = Thread(blocked: bool, process: Option<nat>, eax: int, exitcode: int)

  datatype Sub = Sub(blocked: bool, event: nat, wait: Obj, ident: int)

  datatype Event = Event(wakeAll: bool, status: int, subs: seq<nat>)

  function Q(queues: map<Queue, seq<Node>>, q: Queue): seq<Node> { if q in queues then queues[q] else [] }

  // ----- the invariant -----

  /** A node hangs in exactly the queue that `place` names, once. */
  ghost predicate QueueOk(queues: map<Queue, seq<Node>>, place: map<Node, Queue>, q: Queue) {
    NoDup(Q(queues, q)) && forall n :: n in Q(queues, q) <==> n in place && place[n] == q
  }

  ghost predicate Placed(queues: map<Queue, seq<Node>>, place: map<Node, Queue>) {
    forall q {:trigger QueueOk(queues, place, q)} :: QueueOk(queues, place, q)
  }

  /** A live thread is runnable and in the run list, or blocked and in a wait queue; a dead one is nowhere. */
  ghost predicate ThreadOk(threads: map<nat, Thread>, place: map<Node, Queue>, t: nat)
    requires t in threads
  {
    if threads[t].process.None? then T(t) !in place
    else T(t) in place && (threads[t].blocked <==> place[T(t)] != RunQ)
  }

  ghost predicate ThreadsOk(threads: map<nat, Thread>, place: map<Node, Queue>) {
    && (forall t {:trigger ThreadOk(threads, place, t)} :: t in threads ==> ThreadOk(threads, place, t))
    && (forall n {:trigger n in place} :: n in place && n.T? ==> n.tid in threads)
  }

  /** A blocked sub-event hangs in the queue of its object; events are attached without cycles. */
  ghost predicate SubOk(subs: map<nat, Sub>, events: map<nat, Event>, rank: map<nat, nat>, place: map<Node, Queue>,
                        s: nat)
    requires s in subs
  {
    var u := subs[s];
    && (u.blocked <==> S(s) in place) && (u.blocked ==> place[S(s)] == WaitQ(u.wait))
    && u.event in events && u.event in rank
    && (u.wait.EventObj? ==> u.wait.ev in rank && rank[u.wait.ev] < rank[u.event])
  }

  ghost predicate SubsOk(subs: map<nat, Sub>, events: map<nat, Event>, rank: map<nat, nat>, place: map<Node, Queue>) {
    && (forall s {:trigger SubOk(subs, events, rank, place, s)} :: s in subs ==> SubOk(subs, events, rank, place, s))
    && (forall n {:trigger n in place} :: n in place && n.S? ==> n.sid in subs)
  }

  /** Node n waits for a wake-all event: every sub-object attached when it began to wait is still
      being waited for.  Events in `ex` are being fired right now. */
  ghost predicate ReadyAt(subs: map<nat, Sub>, events: map<nat, Event>, place: map<Node, Queue>,
                          seen: map<Node, set<nat>>, ex: set<nat>, n: Node)
    requires n in place
  {
    place[n].WaitQ? && place[n].obj.EventObj? ==>
      var e := place[n].obj.ev;
      && e in events
      && (events[e].wakeAll && e !in ex ==>
            n in seen && forall s :: s in seen[n] && s in subs && subs[s].event == e ==> subs[s].blocked)
  }

  ghost predicate Ready(subs: map<nat, Sub>, events: map<nat, Event>, place: map<Node, Queue>,
                        seen: map<Node, set<nat>>, ex: set<nat>)
  {
    forall n {:trigger ReadyAt(subs, events, place, seen, ex, n)} ::
        n in place ==> ReadyAt(subs, events, place, seen, ex, n)
  }

  /** Depth of a queue in the attachment order. */
  function Level(rank: map<nat, nat>, q: Queue): int {
    if q.WaitQ? && q.obj.EventObj? && q.obj.ev in rank then rank[q.obj.ev] else -1
  }

  // ----- moves between queues -----

  function Unqueued(queues: map<Queue, seq<Node>>, n: Node, q: Queue): map<Queue, seq<Node>> {
    queues[q := Without(Q(queues, q), n)]
  }

  lemma UnqueueKeeps(queues: map<Queue, seq<Node>>, place: map<Node, Queue>, n: Node)
    requires Placed(queues, place) && n in place
    ensures Placed(Unqueued(queues, n, place[n]), place - {n})
  {
    var q0 := place[n];
    var queues', place' := Unqueued(queues, n, q0), place - {n};
    WithoutMembers(Q(queues, q0), n);
    forall q
      ensures QueueOk(queues', place', q)
    {
      assert QueueOk(queues, place, q);
    }
  }

  lemma EnqueueKeeps(queues: map<Queue, seq<Node>>, place: map<Node, Queue>, n: Node, q: Queue, s: seq<Node>)
    requires Placed(queues, place) && n !in place
    requires s == [n] + Q(queues, q) || s == Q(queues, q) + [n]
    ensures Placed(queues[q := s], place[n := q])
  {
    var queues', place' := queues[q := s], place[n := q];
    assert QueueOk(queues, place, q);
    assert n !in Q(queues, q);
    forall r
      ensures QueueOk(queues', place', r)
    {
      assert QueueOk(queues, place, r);
    }
  }

  // ----- what a wake-up may change -----

  /** A thread stays as it is, or it was blocked and is runnable now. */
  predicate Woken(u: Thread, v: Thread) {
    v == u || (u.blocked && v == u.(blocked := false, eax := v.eax))
  }

  ghost predicate ThreadsWoken(threads: map<nat, Thread>, threads': map<nat, Thread>) {
    && threads'.Keys == threads.Keys
    && forall t {:trigger threads'[t]} :: t in threads' ==> Woken(threads[t], threads'[t])
  }

  ghost predicate SubsWoken(subs: map<nat, Sub>, subs': map<nat, Sub>) {
    && subs'.Keys == subs.Keys
    && forall s {:trigger subs'[s]} ::
       s in subs' ==> subs'[s] == subs[s] || (subs[s].blocked && subs'[s] == subs[s].(blocked := false))
  }

  ghost predicate EventsWoken(events: map<nat, Event>, events': map<nat, Event>) {
    && events'.Keys == events.Keys
    && forall e {:trigger events'[e]} :: e in events' ==> events'[e] == events[e].(status := events'[e].status)
  }

  /** Nodes only leave wait queues. */
  ghost predicate PlaceWoken(place: map<Node, Queue>, place': map<Node, Queue>) {
    forall n {:trigger n in place'} :: n in place' && place'[n] != RunQ ==> n in place && place[n] == place'[n]
  }

  /** Wait queues other than q and those of events above q are as they were. */
  ghost predicate QueuesFramed(queues: map<Queue, seq<Node>>, queues': map<Queue, seq<Node>>, rank: map<nat, nat>,
                               q: Queue) {
    forall r {:trigger Q(queues', r)} ::
        r != RunQ && r != q && Level(rank, r) <= Level(rank, q) ==> Q(queues', r) == Q(queues, r)
  }

  /** Nodes in wait queues. */
  ghost function Waiting(place: map<Node, Queue>): set<Node> {
    set n | n in place && place[n] != RunQ
  }

  /** The part of the kernel state that a wake-up changes. */
  datatype Snap = Snap(threads: map<nat, Thread>, subs: map<nat, Sub>, events: map<nat, Event>,
                       queues: map<Queue, seq<Node>>, place: map<Node, Queue>)

  ghost predicate Effects(a: Snap, b: Snap) {
    && ThreadsWoken(a.threads, b.threads) && SubsWoken(a.subs, b.subs)
    && EventsWoken(a.events, b.events) && PlaceWoken(a.place, b.place)
  }

  lemma EffectsTrans(a: Snap, b: Snap, c: Snap)
    requires Effects(a, b) && Effects(b, c)
    ensures Effects(a, c)
  {
    forall t | t in c.threads
      ensures Woken(a.threads[t], c.threads[t])
    {
      assert Woken(b.threads[t], c.threads[t]) && Woken(a.threads[t], b.threads[t]);
    }
    forall s | s in c.subs
      ensures c.subs[s] == a.subs[s] || (a.subs[s].blocked && c.subs[s] == a.subs[s].(blocked := false))
    {
      assert b.subs[s] == a.subs[s] || (a.subs[s].blocked && b.subs[s] == a.subs[s].(blocked := false));
    }
    forall e | e in c.events
      ensures c.events[e] == a.events[e].(status := c.events[e].status)
    {
      assert b.events[e] == a.events[e].(status := b.events[e].status);
    }
    forall n | n in c.place && c.place[n] != RunQ
      ensures n in a.place && a.place[n] == c.place[n]
    {
      assert n in b.place && b.place[n] == c.place[n];
    }
  }

  ghost predicate EventsFramed(events: map<nat, Event>, events': map<nat, Event>, rank: map<nat, nat>, level: int) {
    && events'.Keys == events.Keys
    && forall e {:trigger events'[e]} :: e in events' && (e in rank ==> rank[e] <= level) ==> events'[e] == events[e]
  }

  ghost predicate Sound(k: Snap, rank: map<nat, nat>, seen: map<Node, set<nat>>, ex: set<nat>) {
    && Placed(k.queues, k.place) && ThreadsOk(k.threads, k.place)
    && SubsOk(k.subs, k.events, rank, k.place) && Ready(k.subs, k.events, k.place, seen, ex)
  }

  /** A blocked thread moves to the end of the run list. */
  function WithThreadRun(k: Snap, t: nat, eax: int): Snap
    requires t in k.threads && T(t) in k.place
  {
    var queues := Unqueued(k.queues, T(t), k.place[T(t)]);
    k.(threads := k.threads[t := k.threads[t].(blocked := false, eax := eax)],
       queues := queues[RunQ := Q(queues, RunQ) + [T(t)]],
       place := k.place[T(t) := RunQ])
  }

  lemma ThreadRuns(k: Snap, rank: map<nat, nat>, seen: map<Node, set<nat>>, ex: set<nat>, t: nat, eax: int)
    requires Sound(k, rank, seen, ex) && t in k.threads && k.threads[t].process.Some? && k.threads[t].blocked
             && T(t) in k.place
    ensures var k' := WithThreadRun(k, t, eax);
            Sound(k', rank, seen, ex) && Effects(k, k')
  {
    assert ThreadOk(k.threads, k.place, t);
    var k' := WithThreadRun(k, t, eax);
    UnqueueKeeps(k.queues, k.place, T(t));
    var queues := Unqueued(k.queues, T(t), k.place[T(t)]);
    EnqueueKeeps(queues, k.place - {T(t)}, T(t), RunQ, Q(queues, RunQ) + [T(t)]);
    assert (k.place - {T(t)})[T(t) := RunQ] == k'.place;
    forall u | u in k'.threads
      ensures ThreadOk(k'.threads, k'.place, u)
    {
      assert ThreadOk(k.threads, k.place, u);
    }
    forall s | s in k'.subs
      ensures SubOk(k'.subs, k'.events, rank, k'.place, s)
    {
      assert SubOk(k.subs, k.events, rank, k.place, s);
    }
    forall n | n in k'.place
      ensures ReadyAt(k'.subs, k'.events, k'.place, seen, ex, n)
    {
      assert ReadyAt(k.subs, k.events, k.place, seen, ex, n);
    }
  }

  /** A blocked sub-event leaves its queue; its event starts to fire. */
  function WithSubFired(k: Snap, s: nat, result: int): Snap
    requires s in k.subs && S(s) in k.place && k.subs[s].event in k.events
  {
    var e := k.subs[s].event;
    k.(subs := k.subs[s := k.subs[s].(blocked := false)],
       events := k.events[e := k.events[e].(status := result)],
       queues := Unqueued(k.queues, S(s), k.place[S(s)]),
       place := k.place - {S(s)})
  }

  lemma SubFires(k: Snap, rank: map<nat, nat>, seen: map<Node, set<nat>>, ex: set<nat>, s: nat, result: int)
    requires Sound(k, rank, seen, ex) && s in k.subs && k.subs[s].blocked && S(s) in k.place
             && k.subs[s].event in k.events
    ensures var k' := WithSubFired(k, s, result);
            Sound(k', rank, seen, ex + {k.subs[s].event}) && Effects(k, k')
  {
    var e := k.subs[s].event;
    var k' := WithSubFired(k, s, result);
    UnqueueKeeps(k.queues, k.place, S(s));
    forall u | u in k'.threads
      ensures ThreadOk(k'.threads, k'.place, u)
    {
      assert ThreadOk(k.threads, k.place, u);
    }
    forall u | u in k'.subs
      ensures SubOk(k'.subs, k'.events, rank, k'.place, u)
    {
      assert SubOk(k.subs, k.events, rank, k.place, u);
    }
    forall n | n in k'.place
      ensures ReadyAt(k'.subs, k'.events, k'.place, seen, ex + {e}, n)
    {
      assert ReadyAt(k.subs, k.events, k.place, seen, ex, n);
    }
  }

  /** Once nobody waits for a fired event any more, or it wakes only one, it need not be exempt. */
  lemma FiringDone(k: Snap, rank: map<nat, nat>, seen: map<Node, set<nat>>, ex: set<nat>, e: nat)
    requires Sound(k, rank, seen, ex + {e})
             && (e in k.events && k.events[e].wakeAll ==> Q(k.queues, WaitQ(EventObj(e))) == [])
    ensures Sound(k, rank, seen, ex)
  {
    assert QueueOk(k.queues, k.place, WaitQ(EventObj(e)));
    forall n | n in k.place
      ensures ReadyAt(k.subs, k.events, k.place, seen, ex, n)
    {
      assert ReadyAt(k.subs, k.events, k.place, seen, ex + {e}, n);
    }
  }

  /** This node was woken with this result. */
  predicate WokenNode(a: Snap, b: Snap, n: Node, eax: int) {
    match n
    case T(t) => t in a.threads && t in b.threads && b.threads[t] == a.threads[t].(blocked := false, eax := eax)
    case S(s) => s in b.subs && !b.subs[s].blocked
  }

  ghost predicate AllWoken(a: Snap, b: Snap, nodes: seq<Node>, eax: int) {
    forall n {:trigger WokenNode(a, b, n, eax)} :: n in nodes ==> WokenNode(a, b, n, eax)
  }

  lemma AllWokenStays(a: Snap, b: Snap, c: Snap, nodes: seq<Node>, eax: int)
    requires AllWoken(a, b, nodes, eax) && Effects(b, c)
    ensures AllWoken(a, c, nodes, eax)
  {
    forall n | n in nodes
      ensures WokenNode(a, c, n, eax)
    {
      assert WokenNode(a, b, n, eax);
      match n
      case T(t) => assert Woken(b.threads[t], c.threads[t]);
      case S(s) => assert c.subs[s] == b.subs[s];
    }
  }

  /** What signalling one waiting node does. */
  ghost predicate Signalled(a: Snap, b: Snap, rank: map<nat, nat>, n: Node, eax: int)
    requires n in a.place
  {
    && Effects(a, b) && WokenNode(a, b, n, eax)
    && Q(b.queues, a.place[n]) == Without(Q(a.queues, a.place[n]), n)
    && QueuesFramed(a.queues, b.queues, rank, a.place[n])
    && EventsFramed(a.events, b.events, rank, Level(rank, a.place[n]))
    && Waiting(b.place) < Waiting(a.place)
  }

  lemma ThreadSignalled(k: Snap, rank: map<nat, nat>, seen: map<Node, set<nat>>, ex: set<nat>, t: nat, eax: int)
    requires Sound(k, rank, seen, ex) && t in k.threads && T(t) in k.place && k.place[T(t)] != RunQ
    requires k.threads[t].process.Some? && k.threads[t].blocked
    ensures Signalled(k, WithThreadRun(k, t, eax), rank, T(t), eax)
  {
    ThreadRuns(k, rank, seen, ex, t, eax);
    var k' := WithThreadRun(k, t, eax);
    assert T(t) in Waiting(k.place) && T(t) !in Waiting(k'.place);
  }

  /** What waking a queue does. */
  ghost predicate Roused(a: Snap, b: Snap, rank: map<nat, nat>, q: Queue, all: bool, eax: int) {
    var was := Q(a.queues, q);
    && Effects(a, b) && QueuesFramed(a.queues, b.queues, rank, q)
    && EventsFramed(a.events, b.events, rank, Level(rank, q))
    && Waiting(b.place) <= Waiting(a.place)
    && (if all || was == [] then Q(b.queues, q) == [] && AllWoken(a, b, was, eax)
        else Q(b.queues, q) == was[1..] && AllWoken(a, b, was[..1], eax))
  }

  /** The nodes that queueWakeup signals. */
  function ToWake(was: seq<Node>, all: bool): seq<Node> { if all || was == [] then was else was[..1] }

  /** The run list when the nodes have been signalled one after another: each thread goes to the end of it, and so do
      the threads that a sub-event wakes. */
  ghost predicate Appended(a: seq<Node>, b: seq<Node>, nodes: seq<Node>)
    decreases |nodes|
  {
    if nodes == [] then b == a
    else exists m :: Appended(a, m, nodes[..|nodes| - 1]) && Comes(m, b, Last(nodes))
  }

  function Last(nodes: seq<Node>): Node
    requires nodes != []
  {
    nodes[|nodes| - 1]
  }

  /** What signalling one node does to the run list. */
  predicate Comes(a: seq<Node>, b: seq<Node>, n: Node) { if n.T? then b == a + [n] else a <= b }

  /** Waking queue q appends those who are woken to the run list. */
  ghost predicate Lined(a: map<Queue, seq<Node>>, b: map<Queue, seq<Node>>, q: Queue, all: bool) {
    Appended(Q(a, RunQ), Q(b, RunQ), ToWake(Q(a, q), all))
  }

  ghost predicate Behind(a: map<Queue, seq<Node>>, b: map<Queue, seq<Node>>, n: Node) {
    Comes(Q(a, RunQ), Q(b, RunQ), n)
  }

  lemma AppendedNext(a: seq<Node>, m: seq<Node>, b: seq<Node>, nodes: seq<Node>, i: nat)
    requires i < |nodes| && Appended(a, m, nodes[..i]) && Comes(m, b, nodes[i])
    ensures Appended(a, b, nodes[..i + 1])
  {
    assert nodes[..i + 1][..i] == nodes[..i] && Last(nodes[..i + 1]) == nodes[i];
  }

  /** Nobody in the run list is overtaken. */
  lemma {:induction false} AppendedBehind(a: seq<Node>, b: seq<Node>, nodes: seq<Node>)
    requires Appended(a, b, nodes)
    ensures a <= b
    decreases |nodes|
  {
    if nodes != [] {
      var m :| Appended(a, m, nodes[..|nodes| - 1]) && Comes(m, b, Last(nodes));
      AppendedBehind(a, m, nodes[..|nodes| - 1]);
    }
  }

  /** A queue of threads only goes to the end of the run list as it is. */
  lemma {:induction false} ThreadsAppended(a: seq<Node>, b: seq<Node>, nodes: seq<Node>)
    requires forall n :: n in nodes ==> n.T?
    ensures Appended(a, b, nodes) <==> b == a + nodes
    decreases |nodes|
  {
    if nodes != [] {
      var front, last := nodes[..|nodes| - 1], Last(nodes);
      assert nodes == front + [last] && last in nodes;
      ThreadsAppended(a, a + front, front);
      assert b == a + nodes ==> Comes(a + front, b, last);
      if Appended(a, b, nodes) {
        var m :| Appended(a, m, front) && Comes(m, b, last);
        ThreadsAppended(a, m, front);
      }
    }
  }

  /** Threads are woken in the order of the queue: what is behind the first i of them was woken later. */
  lemma {:induction false} InOrder(a: seq<Node>, b: seq<Node>, nodes: seq<Node>, i: nat)
    requires Appended(a, b, nodes) && i <= |nodes|
    ensures exists m :: Appended(a, m, nodes[..i]) && m <= b
    decreases |nodes|
  {
    if i == |nodes| {
      assert nodes[..i] == nodes;
    } else {
      var m :| Appended(a, m, nodes[..|nodes| - 1]) && Comes(m, b, Last(nodes));
      InOrder(a, m, nodes[..|nodes| - 1], i);
      assert nodes[..|nodes| - 1][..i] == nodes[..i];
    }
  }

  /** A fired sub-event: its own removal, then the waiters of its event roused. */
  lemma SubSignalled(k: Snap, m: Snap, b: Snap, rank: map<nat, nat>, seen: map<Node, set<nat>>, ex: set<nat>, s: nat,
                     result: int)
    requires Sound(k, rank, seen, ex) && s in k.subs && k.subs[s].blocked && S(s) in k.place
             && k.subs[s].event in k.events
    requires m == WithSubFired(k, s, result)
    requires Roused(m, b, rank, WaitQ(EventObj(k.subs[s].event)), k.events[k.subs[s].event].wakeAll, k.subs[s].ident)
    ensures Signalled(k, b, rank, S(s), result)
    ensures k.subs[s].event in b.events && b.events[k.subs[s].event].status == result
  {
    assert SubOk(k.subs, k.events, rank, k.place, s);
    SubFires(k, rank, seen, ex, s, result);
    EffectsTrans(k, m, b);
    assert b.subs[s] == m.subs[s];
    FiredWaiting(k, m, b, s);
    FiredFrames(k, m, b, rank, s, result);
  }

  /** The queue of the sub-event lies below that of its event. */
  lemma FiredFrames(k: Snap, m: Snap, b: Snap, rank: map<nat, nat>, s: nat, result: int)
    requires s in k.subs && k.subs[s].blocked && S(s) in k.place && k.subs[s].event in k.events
             && SubOk(k.subs, k.events, rank, k.place, s)
    requires m == WithSubFired(k, s, result)
    requires var r := WaitQ(EventObj(k.subs[s].event));
             QueuesFramed(m.queues, b.queues, rank, r) && EventsFramed(m.events, b.events, rank, Level(rank, r))
    ensures Q(b.queues, k.place[S(s)]) == Without(Q(k.queues, k.place[S(s)]), S(s))
    ensures QueuesFramed(k.queues, b.queues, rank, k.place[S(s)])
            && EventsFramed(k.events, b.events, rank, Level(rank, k.place[S(s)]))
    ensures k.subs[s].event in b.events && b.events[k.subs[s].event].status == result
  {
    var q, r := k.place[S(s)], WaitQ(EventObj(k.subs[s].event));
    assert q != r && Level(rank, q) < Level(rank, r);
    assert Q(b.queues, q) == Q(m.queues, q);
  }

  lemma FiredWaiting(k: Snap, m: Snap, b: Snap, s: nat)
    requires S(s) in k.place && k.place[S(s)] != RunQ && m.place == k.place - {S(s)}
             && Waiting(b.place) <= Waiting(m.place)
    ensures Waiting(b.place) < Waiting(k.place)
  {
    assert S(s) in Waiting(k.place) && S(s) !in Waiting(m.place);
    assert Waiting(m.place) <= Waiting(k.place);
  }

  /** One step of the wake-up loop: signalling the head leaves the tail in place. */
  lemma RouseStep(a: Snap, b: Snap, c: Snap, rank: map<nat, nat>, q: Queue, i: nat, eax: int)
    requires i < |Q(a.queues, q)| && Q(b.queues, q) == Q(a.queues, q)[i..] && NoDup(Q(b.queues, q)) && q != RunQ
    requires Effects(a, b) && QueuesFramed(a.queues, b.queues, rank, q)
             && EventsFramed(a.events, b.events, rank, Level(rank, q))
    requires Waiting(b.place) <= Waiting(a.place) && AllWoken(a, b, Q(a.queues, q)[..i], eax)
    requires var n := Q(a.queues, q)[i]; n in b.place && b.place[n] == q && Signalled(b, c, rank, n, eax)
    requires var n := Q(a.queues, q)[i]; n.T? ==> n.tid in b.threads && b.threads[n.tid].blocked
    ensures Q(c.queues, q) == Q(a.queues, q)[i + 1..]
    ensures Effects(a, c) && QueuesFramed(a.queues, c.queues, rank, q)
            && EventsFramed(a.events, c.events, rank, Level(rank, q))
    ensures Waiting(c.place) < Waiting(a.place) && AllWoken(a, c, Q(a.queues, q)[..i + 1], eax)
  {
    var was := Q(a.queues, q);
    EffectsTrans(a, b, c);
    WithoutHead(was[i..]);
    assert was[i..][1..] == was[i + 1..];
    AllWokenStays(a, b, c, was[..i], eax);
    forall n | n in was[..i + 1]
      ensures WokenNode(a, c, n, eax)
    {
      if n in was[..i] {
        assert WokenNode(a, c, n, eax);
      } else {
        assert n == was[i] && WokenNode(b, c, n, eax);
      }
    }
  }

  lemma WaitingLess(place: map<Node, Queue>, place': map<Node, Queue>, n: Node)
    requires n in place && place[n] != RunQ && place' == place - {n}
    ensures |Waiting(place')| < |Waiting(place)|
  {
    var now, was := Waiting(place'), Waiting(place);
    forall m | m in now
      ensures m in was - {n}
    {
      assert m in place';
    }
    SubsetSize(now, was - {n});
  }

  /** The event of sub-event s fired: waiters (all of them, or the first) got its identifier. */
  ghost predicate Fired(a: Snap, b: Snap, s: nat, result: int) {
    && s in a.subs && a.subs[s].event in a.events && a.subs[s].event in b.events
    && var e := a.subs[s].event;
       var was := Q(a.queues, WaitQ(EventObj(e)));
       && b.events[e].status == result && Lined(a.queues, b.queues, WaitQ(EventObj(e)), a.events[e].wakeAll)
       && AllWoken(a, b, if a.events[e].wakeAll then was else if was == [] then [] else was[..1], a.subs[s].ident)
       && (a.events[e].wakeAll ==> Q(b.queues, WaitQ(EventObj(e))) == [])
  }

  lemma FiredIs(k: Snap, m: Snap, b: Snap, rank: map<nat, nat>, s: nat, result: int)
    requires s in k.subs && S(s) in k.place && k.subs[s].event in k.events && m == WithSubFired(k, s, result)
    requires k.place[S(s)] != WaitQ(EventObj(k.subs[s].event))
    requires var e := k.subs[s].event; Roused(m, b, rank, WaitQ(EventObj(e)), k.events[e].wakeAll, k.subs[s].ident)
    requires k.subs[s].event in b.events && b.events[k.subs[s].event].status == result
    requires var e := k.subs[s].event; Lined(m.queues, b.queues, WaitQ(EventObj(e)), k.events[e].wakeAll)
    requires k.place[S(s)] != RunQ
    ensures Fired(k, b, s, result)
  {
    assert Q(m.queues, RunQ) == Q(k.queues, RunQ);
    var e := k.subs[s].event;
    var was := Q(k.queues, WaitQ(EventObj(e)));
    assert Q(m.queues, WaitQ(EventObj(e))) == was;
    var nodes := if k.events[e].wakeAll then was else if was == [] then [] else was[..1];
    forall n | n in nodes
      ensures WokenNode(k, b, n, k.subs[s].ident)
    {
      assert WokenNode(m, b, n, k.subs[s].ident);
    }
  }

  lemma HeadWaits(k: Snap, rank: map<nat, nat>, seen: map<Node, set<nat>>, ex: set<nat>, q: Queue)
    requires Sound(k, rank, seen, ex) && Q(k.queues, q) != [] && q != RunQ
    ensures NoDup(Q(k.queues, q))
    ensures var n := Q(k.queues, q)[0];
            && n in k.place && k.place[n] == q && n in Waiting(k.place)
            && (n.T? ==> n.tid in k.threads && k.threads[n.tid].blocked && k.threads[n.tid].process.Some?)
            && (n.S? ==> n.sid in k.subs && k.subs[n.sid].blocked)
  {
    assert QueueOk(k.queues, k.place, q);
    var n := Q(k.queues, q)[0];
    assert n in Q(k.queues, q);
    match n
    case T(t) => assert ThreadOk(k.threads, k.place, t);
    case S(s) => assert SubOk(k.subs, k.events, rank, k.place, s);
  }

  // ----- starting to wait -----

  function SubsOf(events: map<nat, Event>, obj: Obj): set<nat> {
    if obj.EventObj? && obj.ev in events then set s | s in events[obj.ev].subs else {}
  }

  /** Every sub-event listed by an event belongs to it, and the other way round. */
  ghost predicate Attached(subs: map<nat, Sub>, events: map<nat, Event>) {
    && (forall e {:trigger Lists(subs, events, e)} :: e in events ==> Lists(subs, events, e))
    && (forall s {:trigger ListedBack(subs, events, s)} :: s in subs ==> ListedBack(subs, events, s))
  }

  ghost predicate Lists(subs: map<nat, Sub>, events: map<nat, Event>, e: nat)
    requires e in events
  {
    NoDup(events[e].subs) && forall s :: s in events[e].subs ==> s in subs && subs[s].event == e
  }

  predicate ListedBack(subs: map<nat, Sub>, events: map<nat, Event>, s: nat)
    requires s in subs
  {
    subs[s].event in events ==> s in events[subs[s].event].subs
  }

  /** All sub-objects of the event are being waited for. */
  ghost predicate AllBlocked(subs: map<nat, Sub>, events: map<nat, Event>, obj: Obj) {
    forall s {:trigger subs[s]} :: s in SubsOf(events, obj) && s in subs ==> subs[s].blocked
  }

  /** A node starts to wait at the head of the queue of `obj`. */
  function WithQueued(k: Snap, n: Node, obj: Obj): Snap {
    k.(queues := k.queues[WaitQ(obj) := [n] + Q(k.queues, WaitQ(obj))], place := k.place[n := WaitQ(obj)])
  }

  function WithSubBlocked(k: Snap, s: nat): Snap
    requires s in k.subs
  {
    WithQueued(k.(subs := k.subs[s := k.subs[s].(blocked := true)]), S(s), k.subs[s].wait)
  }

  lemma SubBlocks(k: Snap, rank: map<nat, nat>, seen: map<Node, set<nat>>, s: nat)
    requires Sound(k, rank, seen, {}) && s in k.subs && !k.subs[s].blocked
             && AllBlocked(k.subs, k.events, k.subs[s].wait)
    requires k.subs[s].wait.EventObj? ==> k.subs[s].wait.ev in k.events
    ensures Sound(WithSubBlocked(k, s), rank, seen[S(s) := SubsOf(k.events, k.subs[s].wait)], {}) && S(s) !in k.place
  {
    var k' := WithSubBlocked(k, s);
    var seen' := seen[S(s) := SubsOf(k.events, k.subs[s].wait)];
    assert SubOk(k.subs, k.events, rank, k.place, s);
    EnqueueKeeps(k.queues, k.place, S(s), WaitQ(k.subs[s].wait), [S(s)] + Q(k.queues, WaitQ(k.subs[s].wait)));
    forall u | u in k'.threads
      ensures ThreadOk(k'.threads, k'.place, u)
    {
      assert ThreadOk(k.threads, k.place, u);
    }
    forall u | u in k'.subs
      ensures SubOk(k'.subs, k'.events, rank, k'.place, u)
    {
      assert SubOk(k.subs, k.events, rank, k.place, u);
    }
    forall n | n in k'.place
      ensures ReadyAt(k'.subs, k'.events, k'.place, seen', {}, n)
    {
      if n != S(s) { assert ReadyAt(k.subs, k.events, k.place, seen, {}, n); }
    }
  }

  function WithThreadBlocked(k: Snap, t: nat, obj: Obj): Snap
    requires t in k.threads && T(t) in k.place
  {
    WithQueued(k.(threads := k.threads[t := k.threads[t].(blocked := true)],
                  queues := Unqueued(k.queues, T(t), k.place[T(t)]), place := k.place - {T(t)}), T(t), obj)
  }

  lemma ThreadBlocks(k: Snap, rank: map<nat, nat>, seen: map<Node, set<nat>>, t: nat, obj: Obj)
    requires Sound(k, rank, seen, {}) && t in k.threads && k.threads[t].process.Some? && !k.threads[t].blocked
    requires AllBlocked(k.subs, k.events, obj) && (obj.EventObj? ==> obj.ev in k.events)
    ensures T(t) in k.place && k.place[T(t)] == RunQ
    ensures Sound(WithThreadBlocked(k, t, obj), rank, seen[T(t) := SubsOf(k.events, obj)], {})
  {
    assert ThreadOk(k.threads, k.place, t);
    var k' := WithThreadBlocked(k, t, obj);
    var seen' := seen[T(t) := SubsOf(k.events, obj)];
    UnqueueKeeps(k.queues, k.place, T(t));
    var queues := Unqueued(k.queues, T(t), RunQ);
    EnqueueKeeps(queues, k.place - {T(t)}, T(t), WaitQ(obj), [T(t)] + Q(queues, WaitQ(obj)));
    forall u | u in k'.threads
      ensures ThreadOk(k'.threads, k'.place, u)
    {
      assert ThreadOk(k.threads, k.place, u);
    }
    forall u | u in k'.subs
      ensures SubOk(k'.subs, k'.events, rank, k'.place, u)
    {
      assert SubOk(k.subs, k.events, rank, k.place, u);
    }
    forall n | n in k'.place
      ensures ReadyAt(k'.subs, k'.events, k'.place, seen', {}, n)
    {
      if n != T(t) { assert ReadyAt(k.subs, k.events, k.place, seen, {}, n); }
    }
  }

  /** What asking an object may change: sub-events start to wait, events forget their status. */
  ghost predicate Asked(a: Snap, b: Snap) {
    && b.threads == a.threads && b.subs.Keys == a.subs.Keys && b.events.Keys == a.events.Keys
    && (forall e {:trigger AskedEvent(a, b, e)} :: e in b.events ==> AskedEvent(a, b, e))
    && (forall s {:trigger AskedSub(a, b, s)} :: s in b.subs ==> AskedSub(a, b, s))
    && (forall n {:trigger AskedNode(a, b, n)} :: AskedNode(a, b, n))
  }

  predicate AskedEvent(a: Snap, b: Snap, e: nat) {
    e in a.events && e in b.events && b.events[e] == a.events[e].(status := b.events[e].status)
  }

  predicate AskedSub(a: Snap, b: Snap, s: nat) {
    && s in a.subs && s in b.subs
    && b.subs[s] == a.subs[s].(blocked := b.subs[s].blocked) && (a.subs[s].blocked ==> b.subs[s].blocked)
  }

  predicate AskedNode(a: Snap, b: Snap, n: Node) {
    && (n in a.place ==> n in b.place && b.place[n] == a.place[n])
    && (n in b.place && n !in a.place ==> n.S?)
  }

  lemma AskedTrans(a: Snap, b: Snap, c: Snap)
    requires Asked(a, b) && Asked(b, c)
    ensures Asked(a, c)
  {
    forall s | s in c.subs
      ensures AskedSub(a, c, s)
    {
      assert AskedSub(a, b, s) && AskedSub(b, c, s);
    }
    forall e | e in c.events
      ensures AskedEvent(a, c, e)
    {
      assert AskedEvent(a, b, e) && AskedEvent(b, c, e);
    }
    forall n
      ensures AskedNode(a, c, n)
    {
      assert AskedNode(a, b, n) && AskedNode(b, c, n);
    }
  }

  // ----- nobody sleeps on a true condition -----

  datatype Proc = Proc(threads: seq<nat>, exitcode: int, paged: bool, handled: bool)

  /** The objects that a wait would find ready at once (events look at their sub-objects instead), and the late
      devices: those that became ready without waking all their waiters. */
  datatype World = World(procs: map<nat, Proc>, sems: map<nat, nat>, devs: map<nat, Option<int>>, late: set<nat>)

  /** Nothing to wait for: the object is ready, or there is no such object. */
  predicate ReadyNow(threads: map<nat, Thread>, w: World, obj: Obj) {
    match obj
    case ThreadObj(t) => t in threads ==> threads[t].process.None?
    case ProcObj(p) => p in w.procs ==> w.procs[p].threads == []
    case SemObj(s) => s in w.sems ==> w.sems[s] > 0
    case DevObj(d) => d in w.devs ==> w.devs[d].Some?
    case EventObj(_) => false
  }

  ghost predicate NoSleepers(threads: map<nat, Thread>, queues: map<Queue, seq<Node>>, w: World, ex: set<Obj>) {
    forall obj {:trigger Calm(threads, queues, w, obj)} :: obj !in ex ==> Calm(threads, queues, w, obj)
  }

  predicate Calm(threads: map<nat, Thread>, queues: map<Queue, seq<Node>>, w: World, obj: Obj) {
    ReadyNow(threads, w, obj) && !Late(w, obj) ==> Q(queues, WaitQ(obj)) == []
  }

  predicate Late(w: World, obj: Obj) { obj.DevObj? && obj.dev in w.late }

  /** Only a device that is ready can be late. */
  ghost predicate LateReady(w: World) {
    forall d {:trigger w.devs[d]} {:trigger d in w.late} :: d in w.late ==> d in w.devs && w.devs[d].Some?
  }

  lemma QueuesShrink(a: Snap, b: Snap, q: Queue)
    requires Placed(a.queues, a.place) && Placed(b.queues, b.place) && PlaceWoken(a.place, b.place) && q != RunQ
    ensures Q(a.queues, q) == [] ==> Q(b.queues, q) == []
  {
    assert QueueOk(a.queues, a.place, q) && QueueOk(b.queues, b.place, q);
    if Q(b.queues, q) != [] {
      var n := Q(b.queues, q)[0];
      assert n in Q(b.queues, q);
      assert n in Q(a.queues, q);
    }
  }

  /** Waking up puts nobody to sleep. */
  lemma WakeKeepsCalm(a: Snap, b: Snap, w: World, ex: set<Obj>)
    requires Placed(a.queues, a.place) && Placed(b.queues, b.place) && Effects(a, b)
             && NoSleepers(a.threads, a.queues, w, ex)
    ensures NoSleepers(b.threads, b.queues, w, ex)
  {
    forall obj | obj !in ex
      ensures Calm(b.threads, b.queues, w, obj)
    {
      if obj.ThreadObj? && obj.tid in b.threads { assert Woken(a.threads[obj.tid], b.threads[obj.tid]); }
      assert Calm(a.threads, a.queues, w, obj);
      QueuesShrink(a, b, WaitQ(obj));
    }
  }

  /** The kernel at rest, but for objects in `ex` that became ready and still have waiters. */
  ghost predicate Rest(k: Snap, w: World, rank: map<nat, nat>, seen: map<Node, set<nat>>, ex: set<Obj>) {
    && Sound(k, rank, seen, {}) && Attached(k.subs, k.events) && SubsKnown(k, w)
    && NoSleepers(k.threads, k.queues, w, ex) && LateReady(w)
  }

  predicate Known(k: Snap, w: World, obj: Obj) {
    match obj
    case ThreadObj(t) => t in k.threads
    case ProcObj(p) => p in w.procs
    case SemObj(s) => s in w.sems
    case DevObj(d) => d in w.devs
    case EventObj(e) => e in k.events
  }

  ghost predicate SubsKnown(k: Snap, w: World) {
    forall s {:trigger Known(k, w, k.subs[s].wait)} :: s in k.subs ==> Known(k, w, k.subs[s].wait)
  }

  /** Initial value plus signals equals value plus tokens taken, on a 32-bit counter. */
  ghost predicate Balanced(sems: map<nat, nat>, given: map<nat, int>, taken: map<nat, int>) {
    forall s {:trigger BalancedAt(sems, given, taken, s)} :: s in sems ==> BalancedAt(sems, given, taken, s)
  }

  predicate BalancedAt(sems: map<nat, nat>, given: map<nat, int>, taken: map<nat, int>, s: nat)
    requires s in sems
  {
    s in given && s in taken && sems[s] < WORD && (given[s] - taken[s] - sems[s]) % WORD == 0
  }

  /** Asking only ever takes tokens. */
  ghost predicate TokensTaken(sems: map<nat, nat>, sems': map<nat, nat>) {
    sems'.Keys == sems.Keys && forall s {:trigger FewerTokens(sems, sems', s)} :: FewerTokens(sems, sems', s)
  }

  predicate FewerTokens(sems: map<nat, nat>, sems': map<nat, nat>, s: nat) {
    s in sems && s in sems' ==> sems'[s] <= sems[s]
  }

  lemma TakeBalanced(sems: map<nat, nat>, given: map<nat, int>, taken: map<nat, int>, s: nat)
    requires Balanced(sems, given, taken) && s in sems && sems[s] > 0
    ensures s in taken && Balanced(sems[s := sems[s] - 1], given, taken[s := taken[s] + 1])
  {
    assert BalancedAt(sems, given, taken, s);
    var sems', taken' := sems[s := sems[s] - 1], taken[s := taken[s] + 1];
    forall x | x in sems'
      ensures BalancedAt(sems', given, taken', x)
    {
      assert BalancedAt(sems, given, taken, x);
    }
  }

  lemma GiveBalanced(sems: map<nat, nat>, given: map<nat, int>, taken: map<nat, int>, s: nat)
    requires Balanced(sems, given, taken) && s in sems
    ensures s in given && s in taken && Balanced(sems[s := (sems[s] + 1) % WORD], given[s := given[s] + 1], taken)
    ensures Balanced(sems, given[s := given[s] + 1], taken[s := taken[s] + 1])
  {
    assert BalancedAt(sems, given, taken, s);
    var sems', given', taken' := sems[s := (sems[s] + 1) % WORD], given[s := given[s] + 1], taken[s := taken[s] + 1];
    forall x | x in sems
      ensures BalancedAt(sems', given', taken, x) && BalancedAt(sems, given', taken', x)
    {
      assert BalancedAt(sems, given, taken, x);
      if x == s && sems[s] + 1 == WORD {
        assert given'[s] - taken[s] - sems'[s] == (given[s] - taken[s] - sems[s]) + WORD;
      }
    }
  }

  /** A queue that gains a node belongs to an object that is not ready. */
  lemma QueueingKeepsCalm(threads: map<nat, Thread>, queues: map<Queue, seq<Node>>, w: World, ex: set<Obj>, obj: Obj,
                          s: seq<Node>)
    requires NoSleepers(threads, queues, w, ex) && !ReadyNow(threads, w, obj)
    ensures NoSleepers(threads, queues[WaitQ(obj) := s], w, ex)
  {
    var queues' := queues[WaitQ(obj) := s];
    forall o | o !in ex
      ensures Calm(threads, queues', w, o)
    {
      assert Calm(threads, queues, w, o);
    }
  }

  /** Sub-events of events at or above depth d are as they were. */
  ghost predicate Below(subs: map<nat, Sub>, subs': map<nat, Sub>, rank: map<nat, nat>, d: nat) {
    forall s {:trigger SameAbove(subs, subs', rank, d, s)} :: SameAbove(subs, subs', rank, d, s)
  }

  predicate SameAbove(subs: map<nat, Sub>, subs': map<nat, Sub>, rank: map<nat, nat>, d: nat, s: nat) {
    s in subs && s in subs' && subs[s].event in rank && rank[subs[s].event] >= d ==> subs'[s] == subs[s]
  }

  function WithStatus(k: Snap, e: nat, status: int): Snap
    requires e in k.events
  {
    k.(events := k.events[e := k.events[e].(status := status)])
  }

  lemma StatusSound(k: Snap, rank: map<nat, nat>, seen: map<Node, set<nat>>, e: nat, status: int)
    requires Sound(k, rank, seen, {}) && e in k.events
    ensures Sound(WithStatus(k, e, status), rank, seen, {})
  {
    var k' := WithStatus(k, e, status);
    forall s | s in k'.subs
      ensures SubOk(k'.subs, k'.events, rank, k'.place, s)
    {
      assert SubOk(k.subs, k.events, rank, k.place, s);
    }
    forall n | n in k'.place
      ensures ReadyAt(k'.subs, k'.events, k'.place, seen, {}, n)
    {
      assert ReadyAt(k.subs, k.events, k.place, seen, {}, n);
    }
  }

  lemma StatusKeeps(k: Snap, w: World, rank: map<nat, nat>, seen: map<Node, set<nat>>, e: nat, status: int)
    requires Rest(k, w, rank, seen, {}) && e in k.events
    ensures Rest(WithStatus(k, e, status), w, rank, seen, {})
  {
    StatusSound(k, rank, seen, e, status);
    var k' := WithStatus(k, e, status);
    forall s | s in k'.subs
      ensures Known(k', w, k'.subs[s].wait) && ListedBack(k'.subs, k'.events, s)
    {
      assert Known(k, w, k.subs[s].wait) && ListedBack(k.subs, k.events, s);
    }
    forall f | f in k'.events
      ensures Lists(k'.subs, k'.events, f)
    {
      assert Lists(k.subs, k.events, f);
    }
  }

  lemma StatusAsked(k: Snap, e: nat, status: int)
    requires e in k.events
    ensures Asked(k, WithStatus(k, e, status))
  {
    var k' := WithStatus(k, e, status);
    assert forall u :: u in k'.subs ==> AskedSub(k, k', u);
    assert forall f :: f in k'.events ==> AskedEvent(k, k', f);
  }

  lemma BlockingKeeps(k: Snap, w: World, s: nat)
    requires s in k.subs && Attached(k.subs, k.events) && SubsKnown(k, w) && S(s) !in k.place
    ensures var k' := WithSubBlocked(k, s);
            Attached(k'.subs, k'.events) && SubsKnown(k', w) && Asked(k, k')
  {
    var k' := WithSubBlocked(k, s);
    forall u | u in k'.subs
      ensures Known(k', w, k'.subs[u].wait) && ListedBack(k'.subs, k'.events, u)
    {
      assert Known(k, w, k.subs[u].wait) && ListedBack(k.subs, k.events, u);
    }
    forall f | f in k'.events
      ensures Lists(k'.subs, k'.events, f)
    {
      assert Lists(k.subs, k.events, f);
    }
  }

  lemma EaxKeeps(k: Snap, w: World, rank: map<nat, nat>, seen: map<Node, set<nat>>, t: nat, eax: int)
    requires Rest(k, w, rank, seen, {}) && t in k.threads
    ensures Rest(k.(threads := k.threads[t := k.threads[t].(eax := eax)]), w, rank, seen, {})
  {
    var k' := k.(threads := k.threads[t := k.threads[t].(eax := eax)]);
    forall u | u in k'.threads
      ensures ThreadOk(k'.threads, k'.place, u)
    {
      assert ThreadOk(k.threads, k.place, u);
    }
    forall s | s in k'.subs
      ensures Known(k', w, k'.subs[s].wait)
    {
      assert Known(k, w, k.subs[s].wait);
    }
    forall o
      ensures Calm(k'.threads, k'.queues, w, o)
    {
      assert Calm(k.threads, k.queues, w, o);
    }
  }

  lemma ThreadSleeps(k: Snap, w: World, rank: map<nat, nat>, seen: map<Node, set<nat>>, t: nat, obj: Obj)
    requires Rest(k, w, rank, seen, {}) && t in k.threads && k.threads[t].process.Some? && !k.threads[t].blocked
    requires AllBlocked(k.subs, k.events, obj) && !ReadyNow(k.threads, w, obj) && Known(k, w, obj)
    ensures T(t) in k.place && k.place[T(t)] == RunQ
    ensures var k', seen' := WithThreadBlocked(k, t, obj), seen[T(t) := SubsOf(k.events, obj)];
            Rest(k', w, rank, seen', {}) && Sleeps(k', w, seen', t, obj)
  {
    ThreadBlocks(k, rank, seen, t, obj);
    ThreadBlocksCalm(k, w, t, obj);
  }

  lemma ThreadBlocksCalm(k: Snap, w: World, t: nat, obj: Obj)
    requires t in k.threads && T(t) in k.place && k.place[T(t)] == RunQ && SubsKnown(k, w)
    requires NoSleepers(k.threads, k.queues, w, {}) && !ReadyNow(k.threads, w, obj)
    ensures var k' := WithThreadBlocked(k, t, obj);
            SubsKnown(k', w) && NoSleepers(k'.threads, k'.queues, w, {})
  {
    var k' := WithThreadBlocked(k, t, obj);
    forall o
      ensures Calm(k'.threads, k'.queues, w, o)
    {
      assert Calm(k.threads, k.queues, w, o);
    }
    forall s | s in k'.subs
      ensures Known(k', w, k'.subs[s].wait)
    {
      assert Known(k, w, k.subs[s].wait);
    }
  }

  lemma TakeKeeps(k: Snap, w: World, s: nat, w': World)
    requires SubsKnown(k, w) && NoSleepers(k.threads, k.queues, w, {}) && s in w.sems && w.sems[s] > 0
    requires w' == w.(sems := w.sems[s := w.sems[s] - 1])
    ensures SubsKnown(k, w') && NoSleepers(k.threads, k.queues, w', {})
  {
    forall u | u in k.subs
      ensures Known(k, w', k.subs[u].wait)
    {
      assert Known(k, w, k.subs[u].wait);
    }
    forall o
      ensures Calm(k.threads, k.queues, w', o)
    {
      assert Calm(k.threads, k.queues, w, o);
    }
  }

  /** How deep events may be nested in the object. */
  ghost function Deep(rank: map<nat, nat>, obj: Obj): nat {
    if obj.EventObj? && obj.ev in rank then rank[obj.ev] + 1 else 0
  }

  /** The event was answered by the i-th of its sub-objects: all before it wait, and its own answer is the status. */
  ghost predicate AnsweredAt(k: Snap, w: World, w': World, rank: map<nat, nat>, e: nat, ident: int, i: nat)
    decreases Deep(rank, EventObj(e)), 0
  {
    && e in k.events && i < |k.events[e].subs| && Waits(k.subs, k.events[e].subs, i)
    && var s := k.events[e].subs[i];
       && s in k.subs && k.subs[s].ident == ident && !k.subs[s].blocked
       && Deep(rank, k.subs[s].wait) < Deep(rank, EventObj(e))
       && Answer(k, w, w', rank, k.subs[s].wait, k.events[e].status)
  }

  ghost predicate AnsweredBy(k: Snap, w: World, w': World, rank: map<nat, nat>, e: nat, ident: int)
    decreases Deep(rank, EventObj(e)), 1
  {
    exists i {:trigger AnsweredAt(k, w, w', rank, e, ident, i)} :: AnsweredAt(k, w, w', rank, e, ident, i)
  }

  /** The answer v of an object that had something to say in world w and leaves world w'. */
  ghost predicate Answer(k: Snap, w: World, w': World, rank: map<nat, nat>, obj: Obj, v: int)
    decreases Deep(rank, obj), 2
  {
    match obj
    case ThreadObj(t) => t in k.threads && k.threads[t].process.None? && v == k.threads[t].exitcode
    case ProcObj(p) => p in w.procs && w.procs[p].threads == [] && v == w.procs[p].exitcode
    case SemObj(s) => s in w.sems && w.sems[s] > 0 && w'.sems == w.sems[s := w.sems[s] - 1] && v == w.sems[s] - 1
    case DevObj(d) => d in w.devs && w.devs[d] == Some(v)
    case EventObj(e) => AnsweredBy(k, w, w', rank, e, v)
  }

  lemma {:induction false} AnswerEax(k: Snap, w: World, w': World, rank: map<nat, nat>, obj: Obj, v: int, t: nat,
                                     eax: int)
    requires Answer(k, w, w', rank, obj, v) && t in k.threads
    ensures Answer(k.(threads := k.threads[t := k.threads[t].(eax := eax)]), w, w', rank, obj, v)
    decreases Deep(rank, obj)
  {
    if obj.EventObj? {
      assert AnsweredBy(k, w, w', rank, obj.ev, v);
      var i: nat :| AnsweredAt(k, w, w', rank, obj.ev, v, i);
      var s := k.events[obj.ev].subs[i];
      AnswerEax(k, w, w', rank, k.subs[s].wait, k.events[obj.ev].status, t, eax);
      assert AnsweredAt(k.(threads := k.threads[t := k.threads[t].(eax := eax)]), w, w', rank, obj.ev, v, i);
    }
  }

  /** The status of an event does not matter to what is nested in it. */
  lemma {:induction false} AnswerStatus(k: Snap, w: World, w': World, rank: map<nat, nat>, obj: Obj, v: int, e: nat,
                                        status: int)
    requires Answer(k, w, w', rank, obj, v) && e in k.events && Deep(rank, obj) < Deep(rank, EventObj(e))
    ensures Answer(WithStatus(k, e, status), w, w', rank, obj, v)
    decreases Deep(rank, obj)
  {
    if obj.EventObj? {
      assert AnsweredBy(k, w, w', rank, obj.ev, v);
      var i: nat :| AnsweredAt(k, w, w', rank, obj.ev, v, i);
      var s := k.events[obj.ev].subs[i];
      AnswerStatus(k, w, w', rank, k.subs[s].wait, k.events[obj.ev].status, e, status);
      assert AnsweredAt(WithStatus(k, e, status), w, w', rank, obj.ev, v, i);
    }
  }

  /** Some of the first i sub-events of the list are not waiting. */
  ghost predicate AnyFree(subs: map<nat, Sub>, list: seq<nat>, i: nat) {
    exists j :: 0 <= j < i && j < |list| && list[j] in subs && !subs[list[j]].blocked
  }

  lemma AnyFreeNext(subs: map<nat, Sub>, list: seq<nat>, i: nat)
    requires i < |list|
    ensures AnyFree(subs, list, i + 1) <==> AnyFree(subs, list, i) || (list[i] in subs && !subs[list[i]].blocked)
  {
  }

  /** The status of an event that did not answer: cleared if there was anything to ask. */
  ghost function StatusAsleep(subs: map<nat, Sub>, event: Event): int {
    if AnyFree(subs, event.subs, |event.subs|) then 0 else event.status
  }

  ghost predicate Cleared(a: Snap, events: map<nat, Event>, obj: Obj) {
    obj.EventObj? ==>
      obj.ev in a.events && obj.ev in events && events[obj.ev].status == StatusAsleep(a.subs, a.events[obj.ev])
  }

  /** Events at depth d or above keep their status. */
  ghost predicate StatusKept(a: map<nat, Event>, b: map<nat, Event>, rank: map<nat, nat>, d: nat) {
    forall e {:trigger StatusAt(a, b, rank, d, e)} :: StatusAt(a, b, rank, d, e)
  }

  predicate StatusAt(a: map<nat, Event>, b: map<nat, Event>, rank: map<nat, nat>, d: nat, e: nat) {
    e in a && e in b && e in rank && rank[e] >= d ==> b[e].status == a[e].status
  }

  lemma StatusTrans(a: map<nat, Event>, b: map<nat, Event>, c: map<nat, Event>, rank: map<nat, nat>, d1: nat, d2: nat,
                    d: nat)
    requires StatusKept(a, b, rank, d1) && StatusKept(b, c, rank, d2) && d1 <= d && d2 <= d && b.Keys == a.Keys
    ensures StatusKept(a, c, rank, d)
  {
    forall e
      ensures StatusAt(a, c, rank, d, e)
    {
      assert StatusAt(a, b, rank, d1, e) && StatusAt(b, c, rank, d2, e);
    }
  }

  /** Everything that holds when a sub-event has hung itself into the queue of what it waits for. */
  lemma SubBlocked(k: Snap, w: World, rank: map<nat, nat>, seen: map<Node, set<nat>>, s: nat)
    requires Rest(k, w, rank, seen, {}) && s in k.subs && !k.subs[s].blocked && k.subs[s].event in rank
    requires !ReadyNow(k.threads, w, k.subs[s].wait) && AllBlocked(k.subs, k.events, k.subs[s].wait)
    ensures Rest(WithSubBlocked(k, s), w, rank, seen[S(s) := SubsOf(k.events, k.subs[s].wait)], {})
    ensures Asked(k, WithSubBlocked(k, s)) && Below(k.subs, WithSubBlocked(k, s).subs, rank, rank[k.subs[s].event] + 1)
  {
    var obj := k.subs[s].wait;
    assert Known(k, w, obj);
    SubBlocks(k, rank, seen, s);
    BlockingKeeps(k, w, s);
    QueueingKeepsCalm(k.threads, k.queues, w, {}, obj, [S(s)] + Q(k.queues, WaitQ(obj)));
  }

  /** Everything an inquiry at depth d may do. */
  ghost predicate Inquiry(a: Snap, sems: map<nat, nat>, b: Snap, sems': map<nat, nat>, rank: map<nat, nat>, d: nat) {
    Asked(a, b) && TokensTaken(sems, sems') && Below(a.subs, b.subs, rank, d)
  }

  lemma InquiryTrans(a: Snap, s0: map<nat, nat>, b: Snap, s1: map<nat, nat>, c: Snap, s2: map<nat, nat>,
                     rank: map<nat, nat>, d1: nat, d2: nat, d: nat)
    requires Inquiry(a, s0, b, s1, rank, d1) && Inquiry(b, s1, c, s2, rank, d2) && d1 <= d && d2 <= d
    ensures Inquiry(a, s0, c, s2, rank, d)
  {
    AskedTrans(a, b, c);
    forall s
      ensures SameAbove(a.subs, c.subs, rank, d, s) && FewerTokens(s0, s2, s)
    {
      assert SameAbove(a.subs, b.subs, rank, d1, s) && SameAbove(b.subs, c.subs, rank, d2, s);
      assert FewerTokens(s0, s1, s) && FewerTokens(s1, s2, s);
      assert s in b.subs && s in a.subs ==> AskedSub(a, b, s);
    }
  }

  lemma InquiryNone(a: Snap, sems: map<nat, nat>, rank: map<nat, nat>, d: nat)
    ensures Inquiry(a, sems, a, sems, rank, d)
  {
    assert forall s :: s in a.subs ==> AskedSub(a, a, s);
    assert forall e :: e in a.events ==> AskedEvent(a, a, e);
  }

  /** The first i sub-events of the list are waiting. */
  ghost predicate Waits(subs: map<nat, Sub>, list: seq<nat>, i: nat) {
    forall j {:trigger list[j]} :: 0 <= j < i <= |list| && list[j] in subs ==> subs[list[j]].blocked
  }

  lemma WaitsOn(a: Snap, b: Snap, list: seq<nat>, i: nat)
    requires Asked(a, b) && i <= |list| && Waits(a.subs, list, i)
    ensures Waits(b.subs, list, i)
  {
    forall j | 0 <= j < i && list[j] in b.subs
      ensures b.subs[list[j]].blocked
    {
      assert AskedSub(a, b, list[j]);
    }
  }

  lemma StillWaits(a: Snap, b: Snap, list: seq<nat>, i: nat)
    requires Asked(a, b) && i < |list| && Waits(a.subs, list, i) && (list[i] in b.subs ==> b.subs[list[i]].blocked)
    ensures Waits(b.subs, list, i + 1)
  {
    forall j | 0 <= j < i + 1 && list[j] in b.subs
      ensures b.subs[list[j]].blocked
    {
      assert AskedSub(a, b, list[j]);
    }
  }

  /** Thread t is blocked at the head of the queue of an object that is not ready, and remembers which
      sub-objects its event had. */
  ghost predicate Sleeps(k: Snap, w: World, seen: map<Node, set<nat>>, t: nat, obj: Obj) {
    && !ReadyNow(k.threads, w, obj) && AllBlocked(k.subs, k.events, obj)
    && T(t) in k.place && k.place[T(t)] == WaitQ(obj) && [T(t)] <= Q(k.queues, WaitQ(obj))
    && T(t) in seen && seen[T(t)] == SubsOf(k.events, obj)
  }
}
