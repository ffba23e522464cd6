/** What the kernel entries do, as relations between the states before and after. */
module KernelSteps {
  import opened Sequences
  import opened WaitQueues
  import opened Lifecycle
  import opened Attachments
  import opened Releases

  /** Kernel entries.  `order` shows that an attachment closes no cycle; creation puts the new object into the
      handle h, and a process is a fork of `from` or the first one. */
  datatype Call =
    | WaitFor(t: nat, obj: Obj)
    | SignalSemaphore(s: nat)
    | SignalEvent(e: nat, result: int)
    | SignalThreadObj(t: nat, eax: int)
    | Cancel(obj: Obj)
    | Turn(d: nat, now: Option<int>, result: int)
    | Change(d: nat, now: Option<int>)
    | Pulse(d: nat, all: bool, result: int)
    | RunOut(d: nat, result: int, answer: int)
    | EndOfThread(t: nat, code: int)
    | EndOfProcess(p: nat, code: int)
    | Open(h: Handle, obj: Obj)
    | Put(h: Handle, obj: Obj)
    | Close(h: Handle)
    | AttachTo(s: nat, e: nat, obj: Obj, ident: int, order: map<nat, nat>)
    | DetachFrom(h: Handle, ident: int)
    | CreateThread(t: nat, p: nat, h: Handle)
    | CreateProcess(p: nat, from: Option<nat>, t: nat, h: Handle)
    | CreateSemaphore(s: nat, value: nat, h: Handle)
    | CreateEvent(e: nat, wakeAll: bool, h: Handle)
    | CreateDevice(d: nat, now: Option<int>, h: Handle)

  datatype Point = Point(s: State, b: Book)

  predicate Referenced(refs: map<Obj, nat>, o: Obj) { o in refs && refs[o] > 0 }

  predicate Tabled(procs: map<nat, Proc>, p: nat) { p in procs && procs[p].handled }

  /** What a caller may ask for. */
  predicate May(threads: map<nat, Thread>, subs: map<nat, Sub>, events: map<nat, Event>, procs: map<nat, Proc>,
                sems: map<nat, nat>, devs: map<nat, Option<int>>, refs: map<Obj, nat>, handles: map<Handle, Obj>,
                c: Call)
  {
    match c
    case WaitFor(t, obj) => t in threads && threads[t].process.Some? && !threads[t].blocked && Referenced(refs, obj)
    case SignalSemaphore(s) => s in sems
    case SignalEvent(e, _) => e in events
    case SignalThreadObj(t, _) => t in threads
    case Cancel(obj) => Referenced(refs, obj) && (obj.SemObj? || obj.EventObj?)
    case Turn(d, _, _) => d in devs
    case Change(d, _) => d in devs
    case Pulse(d, _, _) => d in devs
    case RunOut(d, _, _) => d in devs
    case EndOfThread(t, _) => t in threads
    case EndOfProcess(p, _) => p in procs
    case Open(h, obj) => Referenced(refs, obj) && Tabled(procs, h.pid) && h !in handles
    case Put(h, obj) => Referenced(refs, obj) && Tabled(procs, h.pid)
    case Close(h) => h in handles
    case AttachTo(s, e, obj, ident, order) =>
      && s !in subs && e in events && Referenced(refs, obj)
      && Acyclic(subs[s := Sub(false, e, obj, ident)], events[e := events[e].(subs := events[e].subs + [s])], order)
    case DetachFrom(h, _) => h in handles && handles[h].EventObj? && h.pid in procs && procs[h.pid].threads != []
    case CreateThread(t, p, _) => t !in threads && p in procs && procs[p].paged && procs[p].handled
    case CreateProcess(p, _, t, _) => p !in procs && t !in threads
    case CreateSemaphore(s, value, _) => s !in sems && value < WORD
    case CreateEvent(e, _, _) => e !in events
    case CreateDevice(d, _, _) => d !in devs
  }

  predicate MayAt(a: State, c: Call) {
    May(a.k.threads, a.k.subs, a.k.events, a.w.procs, a.w.sems, a.w.devs, a.t.refs, a.t.handles, c)
  }

  /** One kernel entry; what the caller may not ask for is ignored. */
  ghost predicate Done(a: Point, b: Point, c: Call) {
    forall n {:trigger Show(n)} :: Show(n) ==>
      if !MayAt(a.s, c) then b == a
      else if Signals(c) then Performed(a, b, c)
      else if Creates(c) then Created(a, b, c)
      else Managed(a, b, c)
  }

  lemma Ignored(a: Point, c: Call)
    requires !MayAt(a.s, c)
    ensures Done(a, a, c)
  {
  }

  lemma DonePerformed(a: Point, b: Point, c: Call)
    requires MayAt(a.s, c) && Signals(c) && Performed(a, b, c)
    ensures Done(a, b, c)
  {
  }

  lemma DoneCreated(a: Point, b: Point, c: Call)
    requires MayAt(a.s, c) && Creates(c) && Created(a, b, c)
    ensures Done(a, b, c)
  {
  }

  lemma DoneManaged(a: Point, b: Point, c: Call)
    requires MayAt(a.s, c) && !Signals(c) && !Creates(c) && Managed(a, b, c)
    ensures Done(a, b, c)
  {
  }

  predicate Signals(c: Call) {
    || c.WaitFor? || c.SignalSemaphore? || c.SignalEvent? || c.SignalThreadObj? || c.Cancel?
    || c.Turn? || c.Change? || c.Pulse? || c.RunOut?
  }

  predicate Creates(c: Call) {
    c.CreateThread? || c.CreateProcess? || c.CreateSemaphore? || c.CreateEvent? || c.CreateDevice?
  }

  ghost predicate Performed(a: Point, b: Point, c: Call)
    requires MayAt(a.s, c) && Signals(c)
  {
    forall n {:trigger Show(n)} :: Show(n) ==>
      match c
      case WaitFor(t, obj) => WaitDone(a, b, t, obj)
      case SignalSemaphore(s) => SemaphoreDone(a, b, s)
      case SignalEvent(e, result) => EventDone(a, b, e, result)
      case SignalThreadObj(t, eax) => NudgeDone(a, b, t, eax)
      case Cancel(obj) => CancelDone(a, b, obj)
      case Turn(d, now, result) => TurnDone(a, b, d, now, result)
      case Change(d, now) => ChangeDone(a, b, d, now)
      case Pulse(d, all, result) => PulseDone(a, b, d, all, result)
      case RunOut(d, result, answer) => RunOutDone(a, b, d, result, answer)
  }

  /** Entries that may change what objects there are and who refers to them. */
  ghost predicate Managed(a: Point, b: Point, c: Call)
    requires MayAt(a.s, c) && !Signals(c) && !Creates(c)
  {
    forall n {:trigger Show(n)} :: Show(n) ==>
      match c
      case EndOfThread(t, code) => ThreadEndDone(a, b, t, code)
      case EndOfProcess(p, code) => ProcessEndDone(a, b, p, code)
      case Open(h, obj) => OpenDone(a, b, h, obj)
      case Put(h, obj) => PutDone(a, b, h, obj)
      case Close(h) => CloseDone(a, b, h)
      case AttachTo(s, e, obj, ident, order) => AttachDone(a, b, s, e, obj, ident, order)
      case DetachFrom(h, ident) => DetachDone(a, b, h, ident)
  }

  ghost predicate Created(a: Point, b: Point, c: Call)
    requires MayAt(a.s, c) && Creates(c)
  {
    forall n {:trigger Show(n)} :: Show(n) ==>
      match c
      case CreateThread(t, p, h) => ThreadDone(a, b, t, p, h)
      case CreateProcess(p, from, t, h) => ForkDone(a, b, p, from, t, h)
      case CreateSemaphore(s, value, h) => SemaphoreMade(a, b, s, value, h)
      case CreateEvent(e, wakeAll, h) => EventMade(a, b, e, wakeAll, h)
      case CreateDevice(d, now, h) => DeviceMade(a, b, d, now, h)
  }

  /** Asks for the details of an entry, which are out of the prover's sight otherwise. */
  predicate Show(n: nat) { true }

  /** Neither references nor processes, nor what the proofs remember of the waiting ones. */
  predicate Aside(a: Point, b: Point) { b.b == a.b && b.s.t == a.s.t && b.s.w.procs == a.s.w.procs }

  /** Semaphores, devices and what the proofs remember. */
  predicate Apart(a: Point, b: Point) { b.b == a.b && b.s.w == a.s.w.(procs := b.s.w.procs) }

  /** The waiters of an object were woken in their order. */
  ghost predicate Woke(a: Point, b: Point, obj: Obj, all: bool, eax: int) {
    Roused(a.s.k, b.s.k, a.b.rank, WaitQ(obj), all, eax) && Lined(a.s.k.queues, b.s.k.queues, WaitQ(obj), all)
  }

  // ----- waiting -----

  /** The thread goes on with the answer, or sleeps on an object that is not ready. */
  ghost predicate WaitDone(a: Point, b: Point, t: nat, obj: Obj) {
    forall n {:trigger Show(n)} :: Show(n) ==>
      && b.s.t == a.s.t && b.s.w == a.s.w.(sems := b.s.w.sems) && b.b.rank == a.b.rank && b.b.given == a.b.given
      && Kin(a.s.k, b.s.k) && OthersStay(a.s.k, b.s.k, t) && t in a.s.k.threads && t in b.s.k.threads
      && var was, now := a.s.k.threads[t], b.s.k.threads[t];
         && b.s.k.threads == a.s.k.threads[t := now]
         && (if now.blocked
             then
               && now == was.(blocked := true, eax := 0) && b.s.w == a.s.w
               && Sleeps(b.s.k, b.s.w, b.b.seen, t, obj) && Cleared(a.s.k, b.s.k.events, obj)
             else now == was.(eax := now.eax) && Answer(b.s.k, a.s.w, b.s.w, b.b.rank, obj, now.eax))
         && (!obj.EventObj? ==>
               Q(b.s.k.queues, WaitQ(obj)) == (if now.blocked then [T(t)] else []) + Q(a.s.k.queues, WaitQ(obj)))
  }

  // ----- signals -----

  /** The token goes to the first waiter, or to the counter. */
  ghost predicate SemaphoreDone(a: Point, b: Point, s: nat)
    requires s in a.s.w.sems
  {
    forall n {:trigger Show(n)} :: Show(n) ==>
      && b.s.t == a.s.t && b.b == a.b.(given := b.b.given, taken := b.b.taken)
      && if Q(a.s.k.queues, WaitQ(SemObj(s))) == []
         then b.s == a.s.(w := a.s.w.(sems := a.s.w.sems[s := (a.s.w.sems[s] + 1) % WORD]))
         else b.s.w == a.s.w && a.s.w.sems[s] == 0 && Woke(a, b, SemObj(s), false, 0)
  }

  ghost predicate EventDone(a: Point, b: Point, e: nat, result: int)
    requires e in a.s.k.events
  {
    forall n {:trigger Show(n)} :: Show(n) ==>
      && Aside(a, b) && b.s.w == a.s.w
      && Roused(WithStatus(a.s.k, e, 0), b.s.k, a.b.rank, WaitQ(EventObj(e)), a.s.k.events[e].wakeAll, result)
      && Lined(a.s.k.queues, b.s.k.queues, WaitQ(EventObj(e)), a.s.k.events[e].wakeAll)
  }

  ghost predicate NudgeDone(a: Point, b: Point, t: nat, eax: int)
    requires t in a.s.k.threads
  {
    forall n {:trigger Show(n)} :: Show(n) ==>
      if a.s.k.threads[t].process.None? || !a.s.k.threads[t].blocked then b == a
      else
        && Aside(a, b) && b.s.w == a.s.w && T(t) in a.s.k.place && Signalled(a.s.k, b.s.k, a.b.rank, T(t), eax)
        && Behind(a.s.k.queues, b.s.k.queues, T(t))
  }

  ghost predicate CancelDone(a: Point, b: Point, obj: Obj) {
    forall n {:trigger Show(n)} :: Show(n) ==>
      Aside(a, b) && b.s.w == a.s.w && Woke(a, b, obj, true, -1)
  }

  // ----- devices -----

  ghost predicate TurnDone(a: Point, b: Point, d: nat, now: Option<int>, result: int) {
    forall n {:trigger Show(n)} :: Show(n) ==>
      && Aside(a, b) && b.s.w == a.s.w.(devs := a.s.w.devs[d := now], late := a.s.w.late - {d})
      && if now.None? then b.s.k == a.s.k
         else Woke(a, b, DevObj(d), true, result) && Fates(a.s.k, b.s.k, {}, map[DevObj(d) := result], result)
  }

  ghost predicate ChangeDone(a: Point, b: Point, d: nat, now: Option<int>) {
    forall n {:trigger Show(n)} :: Show(n) ==>
      && Aside(a, b) && b.s.k == a.s.k
      && b.s.w == a.s.w.(devs := a.s.w.devs[d := now],
                         late := if now.Some? && Q(a.s.k.queues, WaitQ(DevObj(d))) != [] then a.s.w.late + {d}
                                 else a.s.w.late - {d})
  }

  ghost predicate PulseDone(a: Point, b: Point, d: nat, all: bool, result: int) {
    forall n {:trigger Show(n)} :: Show(n) ==>
      && Aside(a, b) && Woke(a, b, DevObj(d), all, result)
      && b.s.w == if Q(b.s.k.queues, WaitQ(DevObj(d))) == [] then a.s.w.(late := a.s.w.late - {d}) else a.s.w
  }

  ghost predicate RunOutDone(a: Point, b: Point, d: nat, result: int, answer: int) {
    forall n {:trigger Show(n)} :: Show(n) ==>
      && Aside(a, b) && Woke(a, b, DevObj(d), false, result)
      && b.s.w == a.s.w.(devs := a.s.w.devs[d := Some(answer)],
                         late := if |Q(a.s.k.queues, WaitQ(DevObj(d)))| > 1 then a.s.w.late + {d}
                                 else a.s.w.late - {d})
  }

  // ----- the end of threads and processes -----

  ghost predicate ThreadEndDone(a: Point, b: Point, t: nat, code: int)
    requires t in a.s.k.threads
  {
    forall n {:trigger Show(n)} :: Show(n) ==>
      Apart(a, b) && exists told :: ThreadEnded(a.s, b.s, t, code, told)
  }

  ghost predicate ProcessEndDone(a: Point, b: Point, p: nat, code: int)
    requires p in a.s.w.procs
  {
    forall n {:trigger Show(n)} :: Show(n) ==>
      Apart(a, b) && exists told :: ProcessEnded(a.s, b.s, p, code, told)
  }

  /** What is left of process p when thread t of it has ended. */
  ghost function Left(was: Proc, t: nat, code: int): Proc {
    if Without(was.threads, t) == [] then Proc([], code, false, false) else was.(threads := Without(was.threads, t))
  }

  /** The objects that came to their end with thread t. */
  ghost function EndedWith(was: Proc, p: nat, t: nat): set<Obj> {
    {ThreadObj(t)} + if Without(was.threads, t) == [] then {ProcObj(p)} else {}
  }

  ghost predicate ThreadEnded(a: State, b: State, t: nat, code: int, told: map<Obj, int>)
    requires t in a.k.threads
  {
    && StayDead(a.t.refs, b.t.refs)
    && if a.k.threads[t].process.None? then b == a
       else
         var p := a.k.threads[t].process.value;
         && p in a.w.procs && p in b.w.procs && b.w.procs[p] == Left(a.w.procs[p], t, code)
         && OthersKept(a.w.procs, b.w.procs, p)
         && Fates(a.k, b.k, {t}, told, code) && Tells(told, EndedWith(a.w.procs[p], p, t), code, b.t.refs)
  }

  ghost predicate ProcessEnded(a: State, b: State, p: nat, code: int, told: map<Obj, int>)
    requires p in a.w.procs
  {
    var was := a.w.procs[p].threads;
    && p in b.w.procs && b.w.procs[p] == Proc([], code, false, false) && OthersKept(a.w.procs, b.w.procs, p)
    && (forall h :: h in b.t.handles ==> h.pid != p) && Q(b.k.queues, WaitQ(ProcObj(p))) == []
    && Killed(a.k, a.t.log, b.k, b.t.log, p, was, code)
    && Fates(a.k, b.k, Elems(was), told, code) && Tells(told, {ProcObj(p)} + ThreadObjs(was), code, b.t.refs)
  }

  // ----- handles and attachments -----

  ghost predicate OpenDone(a: Point, b: Point, h: Handle, obj: Obj)
    requires obj in a.s.t.refs
  {
    forall n {:trigger Show(n)} :: Show(n) ==>
      b == Point(Opened(a.s, h, obj), a.b)
  }

  ghost predicate PutDone(a: Point, b: Point, h: Handle, obj: Obj)
    requires obj in a.s.t.refs && h.pid in a.s.w.procs
  {
    forall n {:trigger Show(n)} :: Show(n) ==>
      Apart(a, b) && exists told :: Replaced(a.s, b.s, h, obj, told)
  }

  ghost predicate CloseDone(a: Point, b: Point, h: Handle)
    requires h in a.s.t.handles
  {
    forall n {:trigger Show(n)} :: Show(n) ==>
      Apart(a, b) && exists told :: HandleClosed(a.s, b.s, h, told)
  }

  function Opened(a: State, h: Handle, o: Obj): State
    requires o in a.t.refs
  {
    a.(t := a.t.(handles := a.t.handles[h := o], refs := Grabbed(a.t.refs, o)))
  }

  ghost predicate HandleClosed(a: State, b: State, h: Handle, told: map<Obj, int>)
    requires h in a.t.handles
  {
    && h !in b.t.handles && Dropped(a.t.refs, b.t.refs, told, a.t.handles[h])
    && Aftermath(a, b, told, {ProcObj(h.pid)})
  }

  ghost predicate Detached(a: State, b: State, h: Handle, ident: int, told: map<Obj, int>)
    requires h in a.t.handles && a.t.handles[h].EventObj?
  {
    Pruned(a.k.subs, b.k.subs, a.t.handles[h].ev, ident) && Aftermath(a, b, told, {a.t.handles[h]})
  }

  ghost predicate AttachDone(a: Point, b: Point, s: nat, e: nat, obj: Obj, ident: int, order: map<nat, nat>)
    requires e in a.s.k.events && obj in a.s.t.refs
  {
    forall n {:trigger Show(n)} :: Show(n) ==>
      && b.s == a.s.(k := WithSub(a.s.k, s, e, obj, ident), t := a.s.t.(refs := Grabbed(a.s.t.refs, obj)))
      && b.b == a.b.(rank := order, seen := Unseen(a.b.seen, s))
  }

  ghost predicate DetachDone(a: Point, b: Point, h: Handle, ident: int)
    requires h in a.s.t.handles && a.s.t.handles[h].EventObj?
  {
    forall n {:trigger Show(n)} :: Show(n) ==>
      Apart(a, b) && exists told :: Detached(a.s, b.s, h, ident, told)
  }

  lemma CloseIs(a: Point, b: Point, h: Handle, told: map<Obj, int>)
    requires h in a.s.t.handles && Apart(a, b) && HandleClosed(a.s, b.s, h, told)
    ensures CloseDone(a, b, h)
  {
  }

  lemma DetachIs(a: Point, b: Point, h: Handle, ident: int, told: map<Obj, int>)
    requires h in a.s.t.handles && a.s.t.handles[h].EventObj? && Apart(a, b) && Detached(a.s, b.s, h, ident, told)
    ensures DetachDone(a, b, h, ident)
  {
  }

  /** The new object is in the slot, and kernel code has the reference to the old one. */
  function Swapped(a: State, h: Handle, o: Obj): State
    requires o in a.t.refs && h in a.t.handles && a.t.handles[h] in a.t.held
  {
    a.(t := a.t.(handles := a.t.handles[h := o], refs := Grabbed(a.t.refs, o),
        held := Handed(a.t.held, a.t.handles[h])))
  }

  ghost predicate Replaced(a: State, b: State, h: Handle, o: Obj, told: map<Obj, int>)
    requires o in a.t.refs && h.pid in a.w.procs
  {
    if h !in a.t.handles then b == Opened(a, h, o)
    else
      && a.t.handles[h] in a.t.held && (h in b.t.handles ==> b.t.handles[h] == o)
      && (a.w.procs[h.pid].threads != [] ==> h in b.t.handles)
      && LetGo(Swapped(a, h, o), b, a.t.handles[h], told)
  }

  lemma PutIs(a: Point, b: Point, h: Handle, o: Obj, told: map<Obj, int>)
    requires o in a.s.t.refs && h.pid in a.s.w.procs && Apart(a, b) && Replaced(a.s, b.s, h, o, told)
    ensures PutDone(a, b, h, o)
  {
  }

  /** One reference less; only the last one has consequences. */
  ghost predicate LetGo(a: State, b: State, o: Obj, told: map<Obj, int>) {
    && o in a.t.refs && o in a.t.held && a.t.refs[o] > 0 && a.t.held[o] > 0
    && if a.t.refs[o] > 1 then b == Lowered(a, o)
       else Aftermath(a, b, told, {}) && Dropped(a.t.refs, b.t.refs, told, o)
  }

  function Lowered(a: State, o: Obj): State
    requires o in a.t.refs && o in a.t.held && a.t.refs[o] > 0 && a.t.held[o] > 0
  {
    a.(t := a.t.(refs := a.t.refs[o := a.t.refs[o] - 1], held := a.t.held[o := a.t.held[o] - 1]))
  }

  /** A handle is made if the process has a handle table and the slot is free. */
  function Given(a: State, o: Obj, h: Handle): State
    requires o in a.t.refs
  {
    if Tabled(a.w.procs, h.pid) && h !in a.t.handles
    then Opened(a, h, o)
    else a
  }

  /** The creator gives its reference up when the handle has been made. */
  ghost predicate HandedOver(a: State, b: State, o: Obj, h: Handle, told: map<Obj, int>) {
    o in a.t.refs && LetGo(Given(a, o, h), b, o, told)
  }

  // ----- new objects -----

  /** From the state m with the new object on. */
  ghost predicate Made(m: State, b: State, o: Obj, h: Handle) {
    forall n {:trigger Show(n)} :: Show(n) ==>
      b.w == m.w.(procs := b.w.procs) && exists told :: HandedOver(m, b, o, h, told)
  }

  function WithNewThread(a: State, t: nat, p: nat): State
    requires p in a.w.procs && ProcObj(p) in a.t.refs
  {
    State(WithThread(a.k, t, p), a.w.(procs := Joined(a.w.procs, p, t)), BornTally(a.t, t, p))
  }

  ghost predicate Begun(a: State, m: State, t: nat, p: nat) {
    forall n {:trigger Show(n)} :: Show(n) ==>
      p in a.w.procs && ProcObj(p) in a.t.refs && m == WithNewThread(a, t, p)
  }

  function WithSem(a: State, s: nat, value: nat): State {
    a.(w := a.w.(sems := a.w.sems[s := value]), t := NewTally(a.t, SemObj(s)))
  }

  function WithEvent(a: State, e: nat, wakeAll: bool): State {
    a.(k := a.k.(events := a.k.events[e := Event(wakeAll, 0, [])]), t := NewTally(a.t, EventObj(e)))
  }

  function WithDevice(a: State, d: nat, now: Option<int>): State {
    a.(w := a.w.(devs := a.w.devs[d := now]), t := NewTally(a.t, DevObj(d)))
  }

  ghost predicate ThreadDone(a: Point, b: Point, t: nat, p: nat, h: Handle)
    requires p in a.s.w.procs
  {
    forall n {:trigger Show(n)} :: Show(n) ==>
      b.b == a.b && ProcObj(p) in a.s.t.refs && Made(WithNewThread(a.s, t, p), b.s, ThreadObj(t), h)
  }

  ghost predicate SemaphoreMade(a: Point, b: Point, s: nat, value: nat, h: Handle) {
    forall n {:trigger Show(n)} :: Show(n) ==>
      && b.b == a.b.(given := a.b.given[s := value], taken := a.b.taken[s := 0])
      && Made(WithSem(a.s, s, value), b.s, SemObj(s), h)
  }

  ghost predicate EventMade(a: Point, b: Point, e: nat, wakeAll: bool, h: Handle) {
    forall n {:trigger Show(n)} :: Show(n) ==>
      b.b == a.b.(rank := a.b.rank[e := 0]) && Made(WithEvent(a.s, e, wakeAll), b.s, EventObj(e), h)
  }

  ghost predicate DeviceMade(a: Point, b: Point, d: nat, now: Option<int>, h: Handle) {
    forall n {:trigger Show(n)} :: Show(n) ==>
      b.b == a.b && Made(WithDevice(a.s, d, now), b.s, DevObj(d), h)
  }

  lemma ThreadThere(a: Point, m: State, b: Point, t: nat, p: nat, h: Handle)
    requires p in a.s.w.procs && b.b == a.b && Begun(a.s, m, t, p) && Made(m, b.s, ThreadObj(t), h)
    ensures ThreadDone(a, b, t, p, h)
  {
  }

  lemma SemaphoreThere(a: Point, m: State, b: Point, s: nat, value: nat, h: Handle)
    requires b.b == a.b.(given := a.b.given[s := value], taken := a.b.taken[s := 0])
    requires m == WithSem(a.s, s, value) && Made(m, b.s, SemObj(s), h)
    ensures SemaphoreMade(a, b, s, value, h)
  {
  }

  lemma EventThere(a: Point, m: State, b: Point, e: nat, wakeAll: bool, h: Handle)
    requires b.b == a.b.(rank := a.b.rank[e := 0])
    requires m == WithEvent(a.s, e, wakeAll) && Made(m, b.s, EventObj(e), h)
    ensures EventMade(a, b, e, wakeAll, h)
  {
  }

  lemma DeviceThere(a: Point, m: State, b: Point, d: nat, now: Option<int>, h: Handle)
    requires m == WithDevice(a.s, d, now) && Made(m, b.s, DevObj(d), h) && b.b == a.b
    ensures DeviceMade(a, b, d, now, h)
  {
  }

  /** The handle table of a new process: a copy, or an empty one. */
  ghost predicate Bequeathed(was: map<Handle, Obj>, now: map<Handle, Obj>, from: Option<nat>, p: nat) {
    if from.Some? && from.value != p then ForkedTo(was, now, from.value, p, {}) else now == was
  }

  /** A process with one thread, which is runnable, and the handles hs; the caller gets a handle to it. */
  ghost predicate Spawned(a: State, b: State, p: nat, from: Option<nat>, t: nat, h: Handle, hs: map<Handle, Obj>) {
    && b.k == WithThread(a.k, t, p) && b.w.procs == Joined(a.w.procs[p := FRESH], p, t)
    && Bequeathed(a.t.handles, hs, from, p)
    && b.t.handles == if Tabled(b.w.procs, h.pid) && h !in hs then hs[h := ProcObj(p)] else hs
  }

  ghost predicate ForkDone(a: Point, b: Point, p: nat, from: Option<nat>, t: nat, h: Handle) {
    forall n {:trigger Show(n)} :: Show(n) ==>
      Apart(a, b) && exists hs :: Spawned(a.s, b.s, p, from, t, h, hs)
  }

  // ----- runs -----

  /** The invariant between kernel entries. */
  ghost predicate Fit(p: Point) {
    Settled(p.s.t.held) && forall n {:trigger Look(n)} :: Look(n) ==> Whole(p.s.k, p.s.w, p.b, p.s.t, {})
  }

  /** The states of a run, one more than calls. */
  ghost predicate Traced(calls: seq<Call>, trace: seq<Point>) {
    && |trace| == |calls| + 1 && (forall i :: 0 <= i <= |calls| ==> Fit(trace[i]))
    && forall i :: 0 <= i < |calls| ==> DoneAt(calls, trace, i)
  }

  ghost predicate DoneAt(calls: seq<Call>, trace: seq<Point>, i: nat) {
    i < |calls| && i + 1 < |trace| && Done(trace[i], trace[i + 1], calls[i])
  }

  lemma TracedNext(calls: seq<Call>, trace: seq<Point>, i: nat, p: Point)
    requires i < |calls| && Traced(calls[..i], trace) && Fit(p) && Done(trace[i], p, calls[i])
    ensures Traced(calls[..i + 1], trace + [p])
  {
    var cs, ts := calls[..i + 1], trace + [p];
    forall j | 0 <= j < |cs|
      ensures DoneAt(cs, ts, j)
    {
      assert j < i ==> DoneAt(calls[..i], trace, j);
    }
  }

  // ----- across entries -----

  /** Whoever waits for a process after it was killed goes on with its exit code. */
  lemma ExitCodeHeard(a: Point, b: Point, c: Point, p: nat, code: int, t: nat)
    requires MayAt(a.s, EndOfProcess(p, code)) && Done(a, b, EndOfProcess(p, code))
    requires MayAt(b.s, WaitFor(t, ProcObj(p))) && Done(b, c, WaitFor(t, ProcObj(p)))
    ensures t in c.s.k.threads && c.s.k.threads == b.s.k.threads[t := b.s.k.threads[t].(eax := code)]
  {
    assert Show(0);
    var told :| ProcessEnded(a.s, b.s, p, code, told);
  }

  /** After a fork parent and child have the same objects under the same handles, but for the handle to the child. */
  lemma ForkedChild(a: Point, b: Point, p: nat, from: nat, t: nat, h: Handle, slot: nat)
    requires from != p && MayAt(a.s, CreateProcess(p, Some(from), t, h))
    requires Done(a, b, CreateProcess(p, Some(from), t, h))
    ensures Handle(from, slot) in a.s.t.handles ==>
              && Handle(p, slot) in b.s.t.handles && Handle(from, slot) in b.s.t.handles
              && b.s.t.handles[Handle(p, slot)] == b.s.t.handles[Handle(from, slot)]
              && b.s.t.handles[Handle(from, slot)] == a.s.t.handles[Handle(from, slot)]
    ensures Handle(p, slot) in b.s.t.handles && Handle(p, slot) != h ==> Handle(from, slot) in a.s.t.handles
  {
    assert Show(0);
    var hs :| Spawned(a.s, b.s, p, Some(from), t, h, hs);
    assert Handle(from, slot) in a.s.t.handles <==> Handle(p, slot) in hs;
    assert Handle(from, slot) in a.s.t.handles <==> Handle(from, slot) in hs;
  }

  /** A token given while nobody waits is there for the next wait, unless the counter wraps around. */
  lemma TokenKept(a: Point, b: Point, c: Point, s: nat, t: nat)
    requires MayAt(a.s, SignalSemaphore(s)) && Done(a, b, SignalSemaphore(s))
    requires Fit(a) && Q(a.s.k.queues, WaitQ(SemObj(s))) == []
    requires MayAt(b.s, WaitFor(t, SemObj(s))) && Done(b, c, WaitFor(t, SemObj(s)))
    ensures t in c.s.k.threads && (c.s.k.threads[t].blocked <==> a.s.w.sems[s] == WORD - 1)
    ensures !c.s.k.threads[t].blocked ==> c.s.w == a.s.w
  {
    assert Show(0) && Look(0);
    assert BalancedAt(a.s.w.sems, a.b.given, a.b.taken, s);
    assert b.s.w.sems[s := a.s.w.sems[s]] == a.s.w.sems;
  }
}
