/** The threads around the SSE session store: connection threads, message handlers and the shutdown
    thread, interleaved in any order, any number of them. The store has one lock, every session a write
    lock; a step is what a thread does between two points where another could come in. A session and
    its socket go by the name of the connection thread they belong to. */
module SseProtocol {
  import opened Common
  import opened SseFrames
  import SseStore

  type Tid = nat
  type Tick = SseStore.Tick

  // ---- State

  datatype Role =
    | Connection(url: string)
    | Handler(target: Tid, data: string)
    | Stopper

  /** What a thread does, or waits to do, with the store. */
  datatype Job =
    | Create
    | Lookup  // a message handler sees whether the session exists
    | Find    // sendSseEvent looks for the session
    | Remove
    | Clear

  /** What a thread does, or waits to do, under a session's write lock. */
  datatype What = Header | Message | Pulse | Shut

  datatype Pc =
    | Arrived
    | Replying                                                // refused: sending a plain response
    | WantStore(job: Job)
    | InStore(job: Job, now: Tick, todo: set<Tid>)            // holds the store lock
    | WantVictim(job: Job, now: Tick, todo: set<Tid>, victim: Tid)
    | WithVictim(job: Job, now: Tick, todo: set<Tid>, victim: Tid) // holds both locks
    | Checking(job: Job)                                      // found a session: is it alive?
    | WantWrite(what: What)
    | Locked(what: What)                                      // holds the write lock
    | Writing(what: What)
    | Leaving(what: What, ok: bool)
    | Looping
    | Returned

  datatype Thread = Thread(role: Role, pc: Pc)

  datatype Session = Session(open: bool, alive: bool, createdAt: Tick, writer: Option<Tid>)

  datatype Item = Reply(text: string) | Heading | Carry(packet: Packet)

  /** A write on a socket, and how many of its bytes went out. */
  datatype Record = Record(item: Item, sent: nat)

  datatype Socket = Socket(closed: nat, log: seq<Record>)

  datatype State = State(
    running: bool,
    store: set<Tid>,
    lock: Option<Tid>,
    sessions: map<Tid, Session>,
    sockets: map<Tid, Socket>,
    threads: map<Tid, Thread>)

  const INITIAL := State(true, {}, None, map[], map[], map[])

  const HEADING_TEXT :=
    "HTTP/1.1 200 OK\r\n" + "Content-Type: " + "text/event-stream\r\n" + "Cache-Control: no-cache\r\n"
    + "Connection: keep-alive\r\n" + "Access-Control-" + "Allow-Origin: *\r\n" + "\r\n"

  function ItemText(item: Item): string {
    match item
    case Reply(text) => text
    case Heading => HEADING_TEXT
    case Carry(packet) => Text(packet)
  }

  predicate Whole(r: Record) {
    r.sent == |ItemText(r.item)|
  }

  /** The session a thread's writes are for. */
  function Target(th: Thread, t: Tid): Tid {
    if th.role.Handler? then th.role.target else t
  }

  function ItemFor(role: Role, what: What): Item {
    match what
    case Header => Heading
    case Pulse => Carry(Ping)
    case _ =>
      match role
      case Connection(url) => Carry(Frame("endpoint", url))
      case Handler(_, data) => Carry(Frame("message", data))
      case Stopper => Heading
  }

  // ---- Steps

  datatype Act =
    | Spawn(role: Role)
    | Authorize(ok: bool, reply: string)
    | Stop
    | Hangup
    | LockStore(tick: Tick)
    | Examine(victim: Tid)
    | LockVictim
    | Evict
    | UnlockStore(tick: Tick, reply: string)
    | Check(proceed: bool)
    | LockWrite
    | Begin
    | Push(n: nat)
    | Done
    | Fail
    | Unlock
    | Loop

  /** All that a step of one thread sees and may change: the shared fields, the thread itself, and one
      session with its socket. */
  datatype View = View(
    running: bool,
    store: set<Tid>,
    lock: Option<Tid>,
    thread: Thread,
    session: Option<Session>,
    socket: Option<Socket>)

  function Get<K(==), V>(m: map<K, V>, k: K): Option<V> {
    if k in m then Some(m[k]) else None
  }

  function Put<K(==), V>(m: map<K, V>, k: K, v: Option<V>): map<K, V> {
    if v.Some? then m[k := v.value] else m
  }

  /** Whose session a step is about: the one a sweep is looking at, else the thread's own target. */
  function Subject(th: Thread, t: Tid, a: Act): Tid {
    match a
    case Examine(victim) => victim
    case _ => if th.pc.WantVictim? || th.pc.WithVictim? then th.pc.victim else Target(th, t)
  }

  function ViewOf(s: State, t: Tid, x: Tid): View
    requires t in s.threads
  {
    View(s.running, s.store, s.lock, s.threads[t], Get(s.sessions, x), Get(s.sockets, x))
  }

  function With(s: State, t: Tid, x: Tid, v: View): State {
    State(v.running, v.store, v.lock, Put(s.sessions, x, v.session), Put(s.sockets, x, v.socket),
          s.threads[t := v.thread])
  }

  function Goto(v: View, pc: Pc): View { v.(thread := v.thread.(pc := pc)) }

  predicate Sweeps(job: Job) { job.Create? || job.Clear? }

  function Last(k: Socket): Record
    requires k.log != []
  {
    k.log[|k.log| - 1]
  }

  predicate Sending(v: View) {
    v.socket.Some? && v.socket.value.log != []
  }

  function Append(v: View, item: Item): View
    requires v.socket.Some?
  {
    var k := v.socket.value;
    v.(socket := Some(k.(log := k.log + [Record(item, 0)])))
  }

  function Sent(v: View, n: nat): View
    requires Sending(v)
  {
    var k := v.socket.value;
    v.(socket := Some(k.(log := k.log[|k.log| - 1 := Last(k).(sent := Last(k).sent + n)])))
  }

  function CloseSocket(v: View): View
    requires v.socket.Some?
  {
    v.(socket := Some(v.socket.value.(closed := v.socket.value.closed + 1)))
  }

  /** Under the write lock: closes the socket unless the session has given it up. */
  function CloseSessionSocket(v: View): View
    requires v.socket.Some? && v.session.Some?
  {
    if v.session.value.open then CloseSocket(v).(session := Some(v.session.value.(open := false))) else v
  }

  function SetWriter(v: View, writer: Option<Tid>): View
    requires v.session.Some?
  {
    v.(session := Some(v.session.value.(writer := writer)))
  }

  function SetDead(v: View): View
    requires v.session.Some?
  {
    v.(session := Some(v.session.value.(alive := false)))
  }

  /** When a step can be taken. */
  predicate Allowed(v: View, x: Tid, a: Act) {
    var pc := v.thread.pc;
    match a
    case Spawn(_) => false
    case Authorize(_, _) => pc.Arrived? && v.thread.role.Connection? && v.socket.Some?
    case Stop => pc.Arrived? && v.thread.role.Stopper?
    case Hangup => pc.Replying? && v.socket.Some?
    case LockStore(_) => pc.WantStore? && v.lock.None?
    case Examine(_) => pc.InStore? && Sweeps(pc.job) && x in pc.todo && v.session.Some?
    case LockVictim => pc.WantVictim? && v.session.Some? && v.session.value.writer.None?
    case Evict => pc.WithVictim? && v.session.Some? && v.socket.Some?
    case UnlockStore(_, _) => pc.InStore? && (Sweeps(pc.job) ==> pc.todo == {}) && (pc.job.Create? ==> v.socket.Some?)
    case Check(_) => pc.Checking? && v.session.Some?
    case LockWrite => pc.WantWrite? && v.session.Some? && v.session.value.writer.None?
    case Begin => pc.Locked? && v.session.Some? && v.socket.Some?
    case Push(n) => (pc.Writing? || pc.Replying?) && Sending(v)
      && 0 < n <= |ItemText(Last(v.socket.value).item)| - Last(v.socket.value).sent
    case Done => pc.Writing? && Sending(v) && Whole(Last(v.socket.value))
    case Fail => pc.Writing? && v.session.Some? && Sending(v) && !Whole(Last(v.socket.value))
    case Unlock => pc.Leaving? && v.session.Some?
    case Loop => pc.Looping? && v.session.Some?
  }

  /** Where a call of sendSseEvent that came to nothing leads. */
  function Unsent(role: Role): Pc {
    if role.Connection? then WantStore(Remove) else Returned
  }

  function AfterWrite(role: Role, what: What, ok: bool): Pc {
    match what
    case Header => if ok then WantStore(Find) else WantStore(Remove)
    case Message => if ok && role.Connection? then Looping else Unsent(role)
    case Pulse => if ok then Looping else WantStore(Remove)
    case Shut => Returned
  }

  /** The sweep of createSession drops dead and old sessions, shutdown drops all. */
  function Consider(v: View, x: Tid): View
    requires v.thread.pc.InStore? && v.session.Some?
  {
    var pc, session := v.thread.pc, v.session.value;
    if pc.job.Clear? || SseStore.Expired(pc.now, session.createdAt) || !session.alive then
      Goto(SetDead(v), WantVictim(pc.job, pc.now, pc.todo, x))
    else
      Goto(v, InStore(pc.job, pc.now, pc.todo - {x}))
  }

  function Drop(v: View): View
    requires v.thread.pc.WithVictim? && v.session.Some? && v.socket.Some?
  {
    var pc := v.thread.pc;
    var after := Goto(SetWriter(CloseSessionSocket(v), None), InStore(pc.job, pc.now, pc.todo - {pc.victim}));
    if pc.job.Create? then after.(store := v.store - {pc.victim}) else after
  }

  /** The end of a store operation. */
  function LeaveStore(v: View, x: Tid, job: Job, tick: Tick, reply: string): View
    requires job.Create? ==> v.socket.Some?
  {
    var u := v.(lock := None);
    match job
    case Create =>
      if |v.store| >= SseStore.MAX_SESSIONS then Goto(Append(u, Reply(reply)), Replying)
      else Goto(u.(session := Some(Session(true, true, tick, None)), store := v.store + {x}), WantWrite(Header))
    case Lookup => Goto(u, if x in v.store then Checking(Lookup) else Returned)
    case Find => Goto(u, if x in v.store then Checking(Find) else Unsent(v.thread.role))
    case Remove => Goto(u.(store := v.store - {x}), WantWrite(Shut))
    case Clear => Goto(u.(store := {}), Returned)
  }

  function AfterCheck(role: Role, job: Job, alive: bool, proceed: bool): Pc {
    if job.Lookup? then (if alive && proceed then WantStore(Find) else Returned)
    else if alive then WantWrite(Message)
    else Unsent(role)
  }

  /** The first moments under the write lock: the session's socket is tested, except for the header,
      which goes to the thread's own handle and fails if that is closed. */
  function Enter(v: View, what: What): View
    requires v.session.Some? && v.socket.Some?
  {
    match what
    case Shut => Goto(CloseSessionSocket(v), Leaving(Shut, true))
    case Header =>
      if v.socket.value.closed > 0 then Goto(v, Leaving(Header, false))
      else Goto(Append(v, Heading), Writing(Header))
    case _ =>
      if v.session.value.open then Goto(Append(v, ItemFor(v.thread.role, what)), Writing(what))
      else Goto(SetDead(v), Leaving(what, false))
  }

  /** A failed send: the session dies and its socket is closed at once, except after the header. */
  function Break(v: View, what: What): View
    requires v.session.Some? && v.socket.Some?
  {
    if what.Header? then Goto(v, Leaving(what, false))
    else Goto(CloseSocket(v).(session := Some(v.session.value.(open := false, alive := false))), Leaving(what, false))
  }

  function Move(v: View, t: Tid, x: Tid, a: Act): View
    requires Allowed(v, x, a)
  {
    var role, pc := v.thread.role, v.thread.pc;
    match a
    case Spawn(_) => v
    case Authorize(ok, reply) =>
      if ok then Goto(v, WantStore(Create)) else Goto(Append(v, Reply(reply)), Replying)
    case Stop => Goto(v.(running := false), WantStore(Clear))
    case Hangup => Goto(CloseSocket(v), Returned)
    case LockStore(tick) =>
      Goto(v.(lock := Some(t)), InStore(pc.job, tick, if Sweeps(pc.job) then v.store else {}))
    case Examine(_) => Consider(v, x)
    case LockVictim => Goto(SetWriter(v, Some(t)), WithVictim(pc.job, pc.now, pc.todo, pc.victim))
    case Evict => Drop(v)
    case UnlockStore(tick, reply) => LeaveStore(v, x, pc.job, tick, reply)
    case Check(proceed) => Goto(v, AfterCheck(role, pc.job, v.session.value.alive, proceed))
    case LockWrite => Goto(SetWriter(v, Some(t)), Locked(pc.what))
    case Begin => Enter(v, pc.what)
    case Push(n) => Sent(v, n)
    case Done => Goto(v, Leaving(pc.what, true))
    case Fail => Break(v, pc.what)
    case Unlock => Goto(SetWriter(v, None), AfterWrite(role, pc.what, pc.ok))
    case Loop => Goto(v, if v.running && v.session.value.alive then WantWrite(Pulse) else WantStore(Remove))
  }

  /** A new thread: a connection has its own new socket. */
  function Spawned(s: State, t: Tid, role: Role): State {
    var pc := if role.Handler? then WantStore(Lookup) else Arrived;
    var s1 := s.(threads := s.threads[t := Thread(role, pc)]);
    if role.Connection? then s1.(sockets := s1.sockets[t := Socket(0, [])]) else s1
  }

  predicate Enabled(s: State, t: Tid, a: Act) {
    if a.Spawn? then t !in s.threads
    else t in s.threads && var x := Subject(s.threads[t], t, a); Allowed(ViewOf(s, t, x), x, a)
  }

  function Apply(s: State, t: Tid, a: Act): State
    requires Enabled(s, t, a)
  {
    if a.Spawn? then Spawned(s, t, a.role)
    else var x := Subject(s.threads[t], t, a); With(s, t, x, Move(ViewOf(s, t, x), t, x, a))
  }

  // ---- Runs

  ghost predicate Next(s: State, s': State) {
    exists t, a :: Enabled(s, t, a) && s' == Apply(s, t, a)
  }

  ghost predicate Run(run: seq<State>) {
    && run != [] && run[0] == INITIAL
    && forall i :: 0 <= i < |run| - 1 ==> NextAt(run, i)
  }

  ghost predicate NextAt(run: seq<State>, i: nat)
    requires i + 1 < |run|
  {
    Next(run[i], run[i + 1])
  }

  // ---- Locks

  predicate HoldsStore(pc: Pc) { pc.InStore? || pc.WantVictim? || pc.WithVictim? }

  /** The sessions whose write lock a thread holds at its point: at most one. */
  function Holding(th: Thread, t: Tid): Option<Tid> {
    if th.pc.WithVictim? then Some(th.pc.victim)
    else if th.pc.Locked? || th.pc.Writing? || th.pc.Leaving? then Some(Target(th, t))
    else None
  }

  ghost predicate StoreLock(s: State) {
    && (s.lock.Some? ==> s.lock.value in s.threads && HoldsStore(s.threads[s.lock.value].pc))
    && (forall t :: t in s.threads && HoldsStore(s.threads[t].pc) ==> s.lock == Some(t))
  }

  /** Whoever a session's write lock names is at a point that holds it. */
  ghost predicate WriteLock(s: State, c: Tid)
    requires c in s.sessions
  {
    var w := s.sessions[c].writer;
    w.Some? ==> w.value in s.threads && Holding(s.threads[w.value], w.value) == Some(c)
  }

  /** A thread at a point that holds a write lock is named by it. */
  ghost predicate WriteHeld(s: State, t: Tid)
    requires t in s.threads
  {
    var c := Holding(s.threads[t], t);
    c.Some? ==> c.value in s.sessions && s.sessions[c.value].writer == Some(t)
  }

  ghost predicate Locks(s: State) {
    && StoreLock(s)
    && (forall c :: c in s.sessions ==> WriteLock(s, c))
    && (forall t :: t in s.threads ==> WriteHeld(s, t))
  }

  // ---- Shape: which thread can be where, and what exists then

  /** Points of a connection thread before its session exists. */
  predicate Creating(pc: Pc) {
    match pc
    case Arrived => true
    case WantStore(job) => job.Create?
    case InStore(job, _, _) => job.Create?
    case WantVictim(job, _, _, _) => job.Create?
    case WithVictim(job, _, _, _) => job.Create?
    case _ => false
  }

  /** Points of a connection thread whose session exists. */
  predicate Serving(pc: Pc) {
    match pc
    case WantStore(job) => job.Find? || job.Remove?
    case InStore(job, _, _) => job.Find? || job.Remove?
    case Checking(job) => job.Find?
    case WantWrite(_) => true
    case Locked(_) => true
    case Writing(what) => !what.Shut?
    case Leaving(_, _) => true
    case Looping => true
    case _ => false
  }

  predicate Handling(pc: Pc) {
    match pc
    case WantStore(job) => job.Find? || job.Lookup?
    case InStore(job, _, _) => job.Find? || job.Lookup?
    case Checking(job) => job.Find? || job.Lookup?
    case WantWrite(what) => what.Message?
    case Locked(what) => what.Message?
    case Writing(what) => what.Message?
    case Leaving(what, _) => what.Message?
    case Returned => true
    case _ => false
  }

  predicate Stopping(pc: Pc) {
    match pc
    case Arrived => true
    case WantStore(job) => job.Clear?
    case InStore(job, _, _) => job.Clear?
    case WantVictim(job, _, _, _) => job.Clear?
    case WithVictim(job, _, _, _) => job.Clear?
    case Returned => true
    case _ => false
  }

  predicate Typed(th: Thread) {
    && (th.pc.WantVictim? || th.pc.WithVictim? ==> th.pc.victim in th.pc.todo)
    && match th.role
       case Connection(_) => Creating(th.pc) || th.pc.Replying? || Serving(th.pc) || th.pc.Returned?
       case Handler(_, _) => Handling(th.pc)
       case Stopper => Stopping(th.pc)
  }

  /** Points where the session in hand was found in the store. */
  predicate Found(pc: Pc) {
    pc.Checking? || pc.WantWrite? || pc.Locked? || pc.Writing? || pc.Leaving?
  }

  /** A connection thread and its session: the session exists while it serves, not before. */
  predicate Owns(pc: Pc, owned: bool) {
    && (Serving(pc) ==> owned)
    && (owned ==> Serving(pc) || pc.Returned?)
  }

  ghost predicate ThreadShape(s: State, t: Tid)
    requires t in s.threads
  {
    var th := s.threads[t];
    && Typed(th)
    && (HoldsStore(th.pc) ==> th.pc.todo <= s.store)
    && (th.role.Connection? ==> t in s.sockets && Owns(th.pc, t in s.sessions))
    && (th.role.Handler? && Found(th.pc) ==> th.role.target in s.sessions)
  }

  ghost predicate Shape(s: State) {
    && s.store <= s.sessions.Keys
    && s.sessions.Keys <= s.sockets.Keys
    && |s.store| <= SseStore.MAX_SESSIONS
    && (forall c :: c in s.sockets ==> c in s.threads && s.threads[c].role.Connection?)
    && (forall t :: t in s.threads ==> ThreadShape(s, t))
  }

  // ---- One step, seen from the thread that takes it

  /** A thread takes a free lock, or gives up one it holds, and moves to a point that says so. */
  predicate Hands(before: Option<Tid>, after: Option<Tid>, t: Tid, had: bool, has: bool) {
    after == (if has then Some(t) else if had then None else before) && (has && !had ==> before.None?)
  }

  function Writer(session: Option<Session>): Option<Tid> {
    if session.Some? then session.value.writer else None
  }

  predicate HandsLocks(v: View, t: Tid, x: Tid, v': View) {
    var had, has := Holding(v.thread, t), Holding(v'.thread, t);
    && Hands(v.lock, v'.lock, t, HoldsStore(v.thread.pc), HoldsStore(v'.thread.pc))
    && Hands(Writer(v.session), Writer(v'.session), t, had == Some(x), has == Some(x))
    && (had.Some? ==> had.value == x)
    && (has.Some? ==> has.value == x && v'.session.Some?)
  }

  /** What a thread may count on in its own view. */
  predicate ViewShape(v: View, t: Tid, x: Tid) {
    && Typed(v.thread)
    && (HoldsStore(v.thread.pc) ==> v.thread.pc.todo <= v.store && v.lock == Some(t))
    && (v.thread.role.Connection? && x == t ==> v.socket.Some? && Owns(v.thread.pc, v.session.Some?))
    && (v.session.Some? ==> v.socket.Some?)
    && (Holding(v.thread, t) == Some(x) ==> v.session.Some? && v.session.value.writer == Some(t))
    && |v.store| <= SseStore.MAX_SESSIONS
  }

  lemma MoveHandsLocks(v: View, t: Tid, x: Tid, a: Act)
    requires Allowed(v, x, a) && ViewShape(v, t, x) && x == Subject(v.thread, t, a)
    ensures HandsLocks(v, t, x, Move(v, t, x, a))
  {
  }

  /** The store changes only under its lock, keeps to its capacity, and takes in only sessions that exist. */
  predicate KeepsStore(v: View, x: Tid, v': View) {
    var pc := v'.thread.pc;
    && |v'.store| <= SseStore.MAX_SESSIONS
    && (v'.store != v.store ==> HoldsStore(v.thread.pc))
    && (v'.store <= v.store || (v'.store == v.store + {x} && v'.session.Some?))
    && (HoldsStore(pc) ==> pc.todo <= v'.store)
    && (v.thread.role.Handler? && Found(pc) && !Found(v.thread.pc) ==> x in v.store)
  }

  /** A thread stays within its role; only a connection thread makes a session, its own. */
  predicate KeepsRole(v: View, t: Tid, x: Tid, v': View) {
    var role := v.thread.role;
    && v'.thread.role == role && Typed(v'.thread)
    && v'.socket.Some? == v.socket.Some?
    && (v.session.Some? ==> v'.session.Some?)
    && (v'.session.Some? && v.session.None? ==> x == t && role.Connection?)
    && (role.Connection? && x == t ==> Owns(v'.thread.pc, v'.session.Some?))
    && (role.Connection? && x != t ==> Creating(v.thread.pc) && Creating(v'.thread.pc))
    && (role.Handler? ==> x == role.target)
  }

  /** Steps at the store. */
  predicate StoreAct(a: Act) { a.LockStore? || a.Examine? || a.LockVictim? || a.Evict? || a.UnlockStore? }

  lemma SetSizes(store: set<Tid>, x: Tid)
    ensures |store + {x}| <= |store| + 1 && |store - {x}| <= |store|
  {
    assert x in store ==> store + {x} == store;
    assert x !in store ==> store - {x} == store;
  }

  lemma CreateKeepsStore(v: View, t: Tid, x: Tid, a: Act)
    requires Allowed(v, x, a) && ViewShape(v, t, x) && x == Subject(v.thread, t, a)
    requires a.UnlockStore? && v.thread.pc.job.Create?
    ensures KeepsStore(v, x, Move(v, t, x, a))
  {
    SetSizes(v.store, x);
  }

  lemma LeaveKeepsStore(v: View, t: Tid, x: Tid, a: Act)
    requires Allowed(v, x, a) && ViewShape(v, t, x) && x == Subject(v.thread, t, a)
    requires a.UnlockStore? && !v.thread.pc.job.Create?
    ensures KeepsStore(v, x, Move(v, t, x, a))
  {
    SetSizes(v.store, x);
  }

  lemma StoreMoveKeepsStore(v: View, t: Tid, x: Tid, a: Act)
    requires Allowed(v, x, a) && ViewShape(v, t, x) && x == Subject(v.thread, t, a)
    requires StoreAct(a) && !a.UnlockStore?
    ensures KeepsStore(v, x, Move(v, t, x, a))
  {
  }

  lemma MoveKeepsStore(v: View, t: Tid, x: Tid, a: Act)
    requires Allowed(v, x, a) && ViewShape(v, t, x) && x == Subject(v.thread, t, a)
    ensures KeepsStore(v, x, Move(v, t, x, a))
  {
    if a.UnlockStore? && v.thread.pc.job.Create? {
      CreateKeepsStore(v, t, x, a);
    } else if a.UnlockStore? {
      LeaveKeepsStore(v, t, x, a);
    } else if StoreAct(a) {
      StoreMoveKeepsStore(v, t, x, a);
    } else {
      OtherMoveKeepsStore(v, t, x, a);
    }
  }

  lemma OtherMoveKeepsStore(v: View, t: Tid, x: Tid, a: Act)
    requires Allowed(v, x, a) && ViewShape(v, t, x) && x == Subject(v.thread, t, a)
    requires !StoreAct(a)
    ensures KeepsStore(v, x, Move(v, t, x, a))
  {
  }

  lemma StoreMoveKeepsRole(v: View, t: Tid, x: Tid, a: Act)
    requires Allowed(v, x, a) && ViewShape(v, t, x) && x == Subject(v.thread, t, a)
    requires StoreAct(a)
    ensures KeepsRole(v, t, x, Move(v, t, x, a))
  {
  }

  lemma OtherMoveKeepsRole(v: View, t: Tid, x: Tid, a: Act)
    requires Allowed(v, x, a) && ViewShape(v, t, x) && x == Subject(v.thread, t, a)
    requires !StoreAct(a)
    ensures KeepsRole(v, t, x, Move(v, t, x, a))
  {
  }

  lemma MoveKeepsRole(v: View, t: Tid, x: Tid, a: Act)
    requires Allowed(v, x, a) && ViewShape(v, t, x) && x == Subject(v.thread, t, a)
    ensures KeepsRole(v, t, x, Move(v, t, x, a))
  {
    if StoreAct(a) {
      StoreMoveKeepsRole(v, t, x, a);
    } else {
      OtherMoveKeepsRole(v, t, x, a);
    }
  }

  // ---- What a step leaves alone

  lemma ViewIsShaped(s: State, t: Tid, a: Act)
    requires Shape(s) && Locks(s) && t in s.threads && !a.Spawn?
    ensures var x := Subject(s.threads[t], t, a); ViewShape(ViewOf(s, t, x), t, x)
  {
    assert ThreadShape(s, t) && WriteHeld(s, t);
  }

  lemma WriteLockFollows(s: State, t: Tid, x: Tid, v': View, c: Tid)
    requires Shape(s) && Locks(s) && t in s.threads && HandsLocks(ViewOf(s, t, x), t, x, v')
    requires KeepsRole(ViewOf(s, t, x), t, x, v') && c in With(s, t, x, v').sessions
    ensures WriteLock(With(s, t, x, v'), c)
  {
    var s' := With(s, t, x, v');
    assert WriteHeld(s, t);
    if c == x {
      assert c in s.sessions ==> WriteLock(s, c);
      assert s'.sessions[c] == v'.session.value;
    } else {
      assert WriteLock(s, c) && s'.sessions[c] == s.sessions[c];
    }
  }

  lemma WriteHeldFollows(s: State, t: Tid, x: Tid, v': View, u: Tid)
    requires Shape(s) && Locks(s) && t in s.threads && HandsLocks(ViewOf(s, t, x), t, x, v')
    requires KeepsRole(ViewOf(s, t, x), t, x, v') && u in s.threads
    ensures WriteHeld(With(s, t, x, v'), u)
  {
    assert WriteHeld(s, t) && WriteHeld(s, u);
  }

  lemma LocksFollow(s: State, t: Tid, x: Tid, v': View)
    requires Shape(s) && Locks(s) && t in s.threads && HandsLocks(ViewOf(s, t, x), t, x, v')
    requires KeepsRole(ViewOf(s, t, x), t, x, v')
    ensures Locks(With(s, t, x, v'))
  {
    var s' := With(s, t, x, v');
    forall c | c in s'.sessions ensures WriteLock(s', c) {
      WriteLockFollows(s, t, x, v', c);
    }
    forall u | u in s'.threads ensures WriteHeld(s', u) {
      WriteHeldFollows(s, t, x, v', u);
    }
  }

  lemma OtherShape(s: State, t: Tid, x: Tid, v': View, u: Tid)
    requires Shape(s) && Locks(s) && t in s.threads && u in s.threads && u != t
    requires KeepsStore(ViewOf(s, t, x), x, v') && KeepsRole(ViewOf(s, t, x), t, x, v')
    ensures ThreadShape(With(s, t, x, v'), u)
  {
    assert ThreadShape(s, u);
  }

  lemma ShapeFollows(s: State, t: Tid, x: Tid, v': View)
    requires Shape(s) && Locks(s) && t in s.threads
    requires KeepsStore(ViewOf(s, t, x), x, v') && KeepsRole(ViewOf(s, t, x), t, x, v')
    ensures Shape(With(s, t, x, v'))
  {
    var s' := With(s, t, x, v');
    assert ThreadShape(s, t);
    forall u | u in s'.threads ensures ThreadShape(s', u) {
      if u != t {
        OtherShape(s, t, x, v', u);
      }
    }
  }

  lemma SpawnKeepsLocks(s: State, t: Tid, role: Role)
    requires Shape(s) && Locks(s) && t !in s.threads
    ensures Locks(Spawned(s, t, role))
  {
    var s' := Spawned(s, t, role);
    forall c | c in s'.sessions ensures WriteLock(s', c) {
      assert WriteLock(s, c);
    }
    forall u | u in s'.threads ensures WriteHeld(s', u) {
      assert u != t ==> WriteHeld(s, u);
    }
  }

  lemma SpawnKeepsShape(s: State, t: Tid, role: Role)
    requires Shape(s) && t !in s.threads
    ensures Shape(Spawned(s, t, role))
  {
    var s' := Spawned(s, t, role);
    assert t !in s.sockets && t !in s.sessions;
    forall u | u in s'.threads ensures ThreadShape(s', u) {
      assert u != t ==> ThreadShape(s, u);
    }
  }

  lemma StepKeeps(s: State, t: Tid, a: Act)
    requires Shape(s) && Locks(s) && Enabled(s, t, a)
    ensures Shape(Apply(s, t, a)) && Locks(Apply(s, t, a))
  {
    if a.Spawn? {
      SpawnKeepsLocks(s, t, a.role);
      SpawnKeepsShape(s, t, a.role);
    } else {
      var x := Subject(s.threads[t], t, a);
      var v := ViewOf(s, t, x);
      ViewIsShaped(s, t, a);
      MoveHandsLocks(v, t, x, a);
      MoveKeepsStore(v, t, x, a);
      MoveKeepsRole(v, t, x, a);
      LocksFollow(s, t, x, Move(v, t, x, a));
      ShapeFollows(s, t, x, Move(v, t, x, a));
    }
  }

  // ---- Sockets: who may write, who closes

  /** A session's socket is closed once it has been given up, not before, and by the time its thread
      returns; a socket that never had a session is closed by its thread. */
  predicate Accounted(session: Option<Session>, closed: nat, pc: Pc) {
    if session.Some? then
      && closed == (if session.value.open then 0 else 1)
      && (pc.Returned? || (pc.Leaving? && pc.what.Shut?) ==> !session.value.open)
    else closed == (if pc.Returned? then 1 else 0)
  }

  ghost predicate SocketAccounted(s: State, c: Tid)
    requires c in s.sockets && c in s.threads
  {
    Accounted(Get(s.sessions, c), s.sockets[c].closed, s.threads[c].pc)
  }

  /** Whoever is sending has a socket that is still open, and something to send. */
  ghost predicate WriterOpen(s: State, t: Tid)
    requires t in s.threads
  {
    var c := Target(s.threads[t], t);
    s.threads[t].pc.Writing? ==>
      c in s.sessions && s.sessions[c].open && c in s.sockets && s.sockets[c].log != []
  }

  ghost predicate Ownership(s: State) {
    && (forall c :: c in s.sockets && c in s.threads ==> SocketAccounted(s, c))
    && (forall t :: t in s.threads ==> WriterOpen(s, t))
  }

  predicate IsOpen(session: Option<Session>) { session.Some? && session.value.open }

  function Opens(v: View): int { if IsOpen(v.session) then 1 else 0 }

  predicate ViewOpen(v: View) {
    v.thread.pc.Writing? ==> IsOpen(v.session) && Sending(v)
  }

  predicate Closed(v: View) { v.socket.Some? && v.socket.value.closed > 0 }

  /** A step closes the socket at most together with the session's handle, and only under the write
      lock; it writes nothing on a closed socket. */
  predicate ClosesOnce(v: View, t: Tid, x: Tid, v': View) {
    && (v.socket.Some? ==> v'.socket.Some? && |v'.socket.value.log| >= |v.socket.value.log|)
    && (v.session.Some? ==> v'.session.Some?)
    && (v.session.Some? && v.socket.Some? ==> v'.socket.value.closed - v.socket.value.closed == Opens(v) - Opens(v'))
    && (IsOpen(v.session) && !IsOpen(v'.session) ==> Holding(v.thread, t) == Some(x))
    && (v.session.Some? && !IsOpen(v.session) ==> !IsOpen(v'.session))
    && (v.session.None? && x != t ==> v'.socket == v.socket)
    && (Closed(v) ==> v'.socket.value.log == v.socket.value.log)
    && (v.thread.role.Connection? && x == t && v.socket.Some?
        && Accounted(v.session, v.socket.value.closed, v.thread.pc)
        ==> Accounted(v'.session, v'.socket.value.closed, v'.thread.pc))
    && ViewOpen(v')
  }

  lemma MoveClosesOnce(v: View, t: Tid, x: Tid, a: Act)
    requires Allowed(v, x, a) && ViewShape(v, t, x) && ViewOpen(v) && x == Subject(v.thread, t, a)
    requires v.session.Some? && v.socket.Some? ==> v.socket.value.closed == (if v.session.value.open then 0 else 1)
    requires v.session.None? && v.socket.Some? && x == t && !v.thread.pc.Returned? ==> v.socket.value.closed == 0
    ensures ClosesOnce(v, t, x, Move(v, t, x, a))
  {
  }

  lemma AccountFollows(s: State, t: Tid, x: Tid, v': View, c: Tid)
    requires Shape(s) && Locks(s) && Ownership(s) && t in s.threads
    requires KeepsRole(ViewOf(s, t, x), t, x, v') && ClosesOnce(ViewOf(s, t, x), t, x, v')
    requires c in s.sockets && c in s.threads
    ensures SocketAccounted(With(s, t, x, v'), c)
  {
    assert SocketAccounted(s, c) && ThreadShape(s, c) && ThreadShape(s, t);
  }

  /** Another thread's socket stays open while it writes: it holds the write lock. */
  lemma OtherWriterOpen(s: State, t: Tid, x: Tid, v': View, u: Tid)
    requires Shape(s) && Locks(s) && Ownership(s) && t in s.threads && u in s.threads && u != t
    requires KeepsRole(ViewOf(s, t, x), t, x, v') && ClosesOnce(ViewOf(s, t, x), t, x, v')
    ensures WriterOpen(With(s, t, x, v'), u)
  {
    assert WriterOpen(s, u) && WriteHeld(s, u) && WriteHeld(s, t);
  }

  lemma OwnershipFollows(s: State, t: Tid, x: Tid, v': View)
    requires Shape(s) && Locks(s) && Ownership(s) && t in s.threads
    requires KeepsRole(ViewOf(s, t, x), t, x, v') && ClosesOnce(ViewOf(s, t, x), t, x, v')
    requires v'.thread.pc.Writing? ==> x == Target(v'.thread, t)
    ensures Ownership(With(s, t, x, v'))
  {
    var s' := With(s, t, x, v');
    forall c | c in s'.sockets && c in s'.threads ensures SocketAccounted(s', c) {
      AccountFollows(s, t, x, v', c);
    }
    forall u | u in s'.threads ensures WriterOpen(s', u) {
      if u != t {
        OtherWriterOpen(s, t, x, v', u);
      }
    }
  }

  lemma SpawnOwns(s: State, t: Tid, role: Role)
    requires Shape(s) && Ownership(s) && t !in s.threads
    ensures Ownership(Spawned(s, t, role))
  {
    var s' := Spawned(s, t, role);
    forall c | c in s'.sockets && c in s'.threads ensures SocketAccounted(s', c) {
      if c != t {
        assert SocketAccounted(s, c);
      }
    }
    forall u | u in s'.threads ensures WriterOpen(s', u) {
      if u != t {
        assert WriterOpen(s, u);
      }
    }
  }

  lemma StepOwns(s: State, t: Tid, a: Act)
    requires Shape(s) && Locks(s) && Ownership(s) && Enabled(s, t, a)
    ensures Ownership(Apply(s, t, a))
  {
    if a.Spawn? {
      SpawnOwns(s, t, a.role);
    } else {
      var x := Subject(s.threads[t], t, a);
      var v := ViewOf(s, t, x);
      ViewIsShaped(s, t, a);
      ViewIsOwned(s, t, a);
      MoveKeepsRole(v, t, x, a);
      MoveClosesOnce(v, t, x, a);
      OwnershipFollows(s, t, x, Move(v, t, x, a));
    }
  }

  lemma ViewIsOwned(s: State, t: Tid, a: Act)
    requires Shape(s) && Ownership(s) && Enabled(s, t, a) && !a.Spawn?
    ensures var x := Subject(s.threads[t], t, a); var v := ViewOf(s, t, x);
      && ViewOpen(v)
      && (v.session.Some? && v.socket.Some? ==> v.socket.value.closed == (if v.session.value.open then 0 else 1))
      && (v.session.None? && v.socket.Some? && x == t && !v.thread.pc.Returned? ==> v.socket.value.closed == 0)
  {
    var x := Subject(s.threads[t], t, a);
    assert WriterOpen(s, t);
    assert x in s.sockets ==> SocketAccounted(s, x);
  }

  // ---- What a sender may conclude from the result of its send

  /** While a thread sends, the last record on the socket is its own; when it leaves with success that
      record is whole, and when it leaves with failure the socket is closed, except after the header. */
  predicate OwnRecord(th: Thread, session: Option<Session>, socket: Option<Socket>) {
    match th.pc
    case Writing(what) =>
      socket.Some? && socket.value.log != [] && Last(socket.value).item == ItemFor(th.role, what)
    case Leaving(what, ok) =>
      what.Shut? || (if ok then WroteWhole(th.role, what, socket) else what.Header? || !IsOpen(session))
    case _ => true
  }

  predicate WroteWhole(role: Role, what: What, socket: Option<Socket>) {
    && socket.Some? && socket.value.log != []
    && Last(socket.value).item == ItemFor(role, what) && Whole(Last(socket.value))
  }

  ghost predicate SendsOwn(s: State, t: Tid)
    requires t in s.threads
  {
    var c := Target(s.threads[t], t);
    OwnRecord(s.threads[t], Get(s.sessions, c), Get(s.sockets, c))
  }

  ghost predicate Sends(s: State) {
    forall t :: t in s.threads ==> SendsOwn(s, t)
  }

  lemma MoveSendsOwn(v: View, t: Tid, x: Tid, a: Act)
    requires Allowed(v, x, a) && ViewShape(v, t, x) && ViewOpen(v) && x == Subject(v.thread, t, a)
    requires OwnRecord(v.thread, v.session, v.socket)
    ensures var v' := Move(v, t, x, a); OwnRecord(v'.thread, v'.session, v'.socket)
  {
  }

  lemma LogUnderLock(v: View, t: Tid, x: Tid, a: Act)
    requires Allowed(v, x, a) && ViewShape(v, t, x) && x == Subject(v.thread, t, a)
    ensures Move(v, t, x, a).socket != v.socket && v.session.Some? ==> Holding(v.thread, t) == Some(x)
  {
  }

  /** What `SendsFollow` asks of a step. */
  predicate SendStep(v: View, t: Tid, x: Tid, v': View) {
    && KeepsRole(v, t, x, v') && ClosesOnce(v, t, x, v')
    && OwnRecord(v'.thread, v'.session, v'.socket)
    && (v'.thread.pc.Writing? || v'.thread.pc.Leaving? ==> x == Target(v'.thread, t))
    && (v'.socket != v.socket && v.session.Some? ==> Holding(v.thread, t) == Some(x))
  }

  /** Another thread's send is its own business: the log moves only under the write lock it holds. */
  lemma OtherSends(s: State, t: Tid, x: Tid, v': View, u: Tid)
    requires Shape(s) && Locks(s) && Sends(s) && t in s.threads && u in s.threads && u != t
    requires SendStep(ViewOf(s, t, x), t, x, v')
    ensures SendsOwn(With(s, t, x, v'), u)
  {
    assert SendsOwn(s, u) && WriteHeld(s, u) && WriteHeld(s, t);
  }

  lemma SendsFollow(s: State, t: Tid, x: Tid, v': View)
    requires Shape(s) && Locks(s) && Sends(s) && t in s.threads
    requires SendStep(ViewOf(s, t, x), t, x, v')
    ensures Sends(With(s, t, x, v'))
  {
    var s' := With(s, t, x, v');
    forall u | u in s'.threads ensures SendsOwn(s', u) {
      if u == t {
        assert ThreadShape(s, t);
      } else {
        OtherSends(s, t, x, v', u);
      }
    }
  }

  lemma SpawnSends(s: State, t: Tid, role: Role)
    requires Shape(s) && Locks(s) && Sends(s) && t !in s.threads
    ensures Sends(Spawned(s, t, role))
  {
    forall u | u in Spawned(s, t, role).threads ensures SendsOwn(Spawned(s, t, role), u) {
      if u != t {
        assert SendsOwn(s, u) && WriteHeld(s, u) && t !in s.sockets && t !in s.sessions;
      }
    }
  }

  lemma StaysOnTarget(v: View, t: Tid, x: Tid, a: Act)
    requires Allowed(v, x, a) && x == Subject(v.thread, t, a)
    ensures var th := Move(v, t, x, a).thread; th.pc.Writing? || th.pc.Leaving? ==> x == Target(th, t)
  {
  }

  lemma MoveIsSendStep(v: View, t: Tid, x: Tid, a: Act)
    requires Allowed(v, x, a) && ViewShape(v, t, x) && ViewOpen(v) && x == Subject(v.thread, t, a)
    requires v.session.Some? && v.socket.Some? ==> v.socket.value.closed == (if v.session.value.open then 0 else 1)
    requires v.session.None? && v.socket.Some? && x == t && !v.thread.pc.Returned? ==> v.socket.value.closed == 0
    requires OwnRecord(v.thread, v.session, v.socket)
    ensures SendStep(v, t, x, Move(v, t, x, a))
  {
    MoveKeepsRole(v, t, x, a);
    MoveClosesOnce(v, t, x, a);
    LogUnderLock(v, t, x, a);
    StaysOnTarget(v, t, x, a);
    MoveSendsOwn(v, t, x, a);
  }

  lemma ViewSendsOwn(s: State, t: Tid, a: Act)
    requires Sends(s) && Enabled(s, t, a) && !a.Spawn?
    ensures var v := ViewOf(s, t, Subject(s.threads[t], t, a)); OwnRecord(v.thread, v.session, v.socket)
  {
    assert SendsOwn(s, t);
  }

  lemma StepIsSendStep(s: State, t: Tid, a: Act)
    requires Shape(s) && Locks(s) && Ownership(s) && Sends(s) && Enabled(s, t, a) && !a.Spawn?
    ensures var x := Subject(s.threads[t], t, a); var v := ViewOf(s, t, x); SendStep(v, t, x, Move(v, t, x, a))
  {
    ViewIsShaped(s, t, a);
    ViewIsOwned(s, t, a);
    ViewSendsOwn(s, t, a);
    var x := Subject(s.threads[t], t, a);
    MoveIsSendStep(ViewOf(s, t, x), t, x, a);
  }

  lemma StepSends(s: State, t: Tid, a: Act)
    requires Shape(s) && Locks(s) && Ownership(s) && Sends(s) && Enabled(s, t, a)
    ensures Sends(Apply(s, t, a))
  {
    if a.Spawn? {
      SpawnSends(s, t, a.role);
    } else {
      StepIsSendStep(s, t, a);
      var x := Subject(s.threads[t], t, a);
      SendsFollow(s, t, x, Move(ViewOf(s, t, x), t, x, a));
    }
  }

  // ---- Deadlock freedom

  ghost predicate CanStep(s: State, t: Tid) {
    exists a: Act :: !a.Spawn? && Enabled(s, t, a)
  }

  /** The lock a thread is waiting for is held by another. */
  function Blocker(s: State, t: Tid): Option<Tid>
    requires t in s.threads
  {
    var th := s.threads[t];
    match th.pc
    case WantStore(_) => s.lock
    case WantVictim(_, _, _, victim) => Writer(Get(s.sessions, victim))
    case WantWrite(_) => Writer(Get(s.sessions, Target(th, t)))
    case _ => None
  }

  /** Points at or in the store. */
  predicate AtStore(pc: Pc) { pc.WantStore? || HoldsStore(pc) }

  /** Connections are refused, handlers find nothing to do, and nothing more is pushed. */
  predicate Winding(a: Act) {
    match a
    case Spawn(_) => false
    case Authorize(ok, _) => !ok
    case Check(proceed) => !proceed
    case Push(_) => false
    case _ => true
  }

  /** A thread that is not waiting. */
  ghost predicate CanGoOn(s: State, t: Tid) {
    t in s.threads && !s.threads[t].pc.Returned? && Blocker(s, t).None?
  }

  lemma StoreWinder(s: State, t: Tid) returns (a: Act)
    requires Shape(s) && Ownership(s) && CanGoOn(s, t) && AtStore(s.threads[t].pc)
    ensures Winding(a) && Enabled(s, t, a)
  {
    assert ThreadShape(s, t);
    match s.threads[t].pc
    case WantStore(_) => a := LockStore(0);
    case InStore(job, _, todo) =>
      if Sweeps(job) && todo != {} {
        var victim :| victim in todo;
        a := Examine(victim);
      } else {
        a := UnlockStore(0, "");
      }
    case WantVictim(_, _, _, _) => a := LockVictim;
    case WithVictim(_, _, _, _) => a := Evict;
  }

  lemma LockWinder(s: State, t: Tid) returns (a: Act)
    requires Shape(s) && Ownership(s) && CanGoOn(s, t)
    requires var pc := s.threads[t].pc; pc.WantWrite? || pc.Locked? || pc.Writing? || pc.Leaving?
    ensures Winding(a) && Enabled(s, t, a)
  {
    assert ThreadShape(s, t) && WriterOpen(s, t);
    match s.threads[t].pc
    case WantWrite(_) => a := LockWrite;
    case Locked(_) => a := Begin;
    case Writing(_) => a := if Whole(Last(s.sockets[Target(s.threads[t], t)])) then Done else Fail;
    case Leaving(_, _) => a := Unlock;
  }

  lemma FreeWinder(s: State, t: Tid) returns (a: Act)
    requires Shape(s) && Ownership(s) && CanGoOn(s, t)
    requires var pc := s.threads[t].pc; pc.Arrived? || pc.Replying? || pc.Checking? || pc.Looping?
    ensures Winding(a) && Enabled(s, t, a)
  {
    assert ThreadShape(s, t);
    match s.threads[t].pc
    case Arrived => a := if s.threads[t].role.Connection? then Authorize(false, "") else Stop;
    case Replying => a := Hangup;
    case Checking(_) => a := Check(false);
    case Looping => a := Loop;
  }

  /** A thread that is not waiting can step, and even so that it winds down. */
  lemma Winder(s: State, t: Tid) returns (a: Act)
    requires Shape(s) && Ownership(s) && CanGoOn(s, t)
    ensures Winding(a) && Enabled(s, t, a)
  {
    var pc := s.threads[t].pc;
    if AtStore(pc) {
      a := StoreWinder(s, t);
    } else if pc.WantWrite? || pc.Locked? || pc.Writing? || pc.Leaving? {
      a := LockWinder(s, t);
    } else {
      a := FreeWinder(s, t);
    }
  }

  /** Whoever holds a write lock waits for nothing. */
  lemma WriterGoesOn(s: State, c: Tid)
    requires Locks(s) && c in s.sessions && s.sessions[c].writer.Some?
    ensures CanGoOn(s, s.sessions[c].writer.value)
  {
    assert WriteLock(s, c);
  }

  /** The store lock is only ever taken before a write lock, so whoever holds it waits at most for a
      write lock. From any waiting thread, one or two steps along the holders lead to a thread that
      can go on. */
  lemma BlockersEnd(s: State, t: Tid)
    requires Shape(s) && Locks(s) && Ownership(s) && t in s.threads && Blocker(s, t).Some?
    ensures var h := Blocker(s, t).value; h != t && (CanGoOn(s, h) || WaitsOnce(s, t, h))
  {
    var th, h := s.threads[t], Blocker(s, t).value;
    if !th.pc.WantStore? {
      WriterGoesOn(s, if th.pc.WantVictim? then th.pc.victim else Target(th, t));
    } else if Blocker(s, h).Some? {
      WriterGoesOn(s, s.threads[h].pc.victim);
    }
  }

  ghost predicate WaitsOnce(s: State, t: Tid, h: Tid) {
    && h in s.threads && Blocker(s, h).Some?
    && var k := Blocker(s, h).value; k != h && k != t && CanGoOn(s, k)
  }

  /** While a thread has not returned, it or one that it waits for, in one or two steps, is not waiting. */
  lemma SomeoneGoesOn(s: State, t: Tid) returns (u: Tid)
    requires Shape(s) && Locks(s) && Ownership(s) && t in s.threads && !s.threads[t].pc.Returned?
    ensures CanGoOn(s, u)
  {
    u := t;
    if Blocker(s, t).Some? {
      BlockersEnd(s, t);
      var h := Blocker(s, t).value;
      u := if Blocker(s, h).None? then h else Blocker(s, h).value;
    }
  }

  lemma DeadlockFree(s: State, t: Tid)
    requires Shape(s) && Locks(s) && Ownership(s) && t in s.threads && !s.threads[t].pc.Returned?
    ensures exists u :: u in s.threads && CanStep(s, u)
  {
    var u := SomeoneGoesOn(s, t);
    var a := Winder(s, u);
    assert CanStep(s, u);
  }

  // ---- Every reachable state

  ghost predicate Safe(s: State) {
    Shape(s) && Locks(s) && Ownership(s) && Sends(s)
  }

  lemma NextSafe(s: State, s': State)
    requires Safe(s) && Next(s, s')
    ensures Safe(s')
  {
    var t, a :| Enabled(s, t, a) && s' == Apply(s, t, a);
    StepKeeps(s, t, a);
    StepOwns(s, t, a);
    StepSends(s, t, a);
  }

  lemma {:induction false} RunSafe(run: seq<State>, i: nat)
    requires Run(run) && i < |run|
    ensures Safe(run[i])
  {
    if i > 0 {
      RunSafe(run, i - 1);
      assert NextAt(run, i - 1);
      NextSafe(run[i - 1], run[i]);
    }
  }

  /** Each socket is closed at most once, and exactly once by the time its thread has returned. */
  lemma SocketOwnership(run: seq<State>, i: nat, c: Tid)
    requires Run(run) && i < |run| && c in run[i].sockets
    ensures c in run[i].threads && run[i].sockets[c].closed <= 1
    ensures run[i].threads[c].pc.Returned? ==> run[i].sockets[c].closed == 1
  {
    RunSafe(run, i);
    assert SocketAccounted(run[i], c);
  }

  lemma SocketNeverReopens(v: View, t: Tid, x: Tid, a: Act)
    requires Allowed(v, x, a) && v.socket.Some?
    ensures Move(v, t, x, a).socket.Some? && Move(v, t, x, a).socket.value.closed >= v.socket.value.closed
  {
  }

  /** What happens to a socket in one step. */
  ghost predicate Freezes(s: State, s': State, c: Tid)
    requires c in s.sockets
  {
    && c in s'.sockets && s'.sockets[c].closed >= s.sockets[c].closed
    && (s.sockets[c].closed > 0 ==> s'.sockets[c].log == s.sockets[c].log)
  }

  lemma SubjectFreezes(s: State, t: Tid, a: Act)
    requires Safe(s) && Enabled(s, t, a) && !a.Spawn?
    ensures var x := Subject(s.threads[t], t, a); var v := ViewOf(s, t, x); var v' := Move(v, t, x, a);
      x in s.sockets ==>
        && v'.socket.Some? && v'.socket.value.closed >= v.socket.value.closed
        && (v.socket.value.closed > 0 ==> v'.socket.value.log == v.socket.value.log)
  {
    var x := Subject(s.threads[t], t, a);
    if x in s.sockets {
      ViewIsShaped(s, t, a);
      ViewIsOwned(s, t, a);
      MoveClosesOnce(ViewOf(s, t, x), t, x, a);
      SocketNeverReopens(ViewOf(s, t, x), t, x, a);
    }
  }

  lemma StepFreezes(s: State, t: Tid, a: Act, c: Tid)
    requires Safe(s) && Enabled(s, t, a) && c in s.sockets
    ensures Freezes(s, Apply(s, t, a), c)
  {
    if !a.Spawn? {
      SubjectFreezes(s, t, a);
    } else {
      assert c in s.threads;
    }
  }

  lemma NextFreezes(s: State, s': State, c: Tid)
    requires Safe(s) && Next(s, s') && c in s.sockets
    ensures Freezes(s, s', c)
  {
    var t, a :| Enabled(s, t, a) && s' == Apply(s, t, a);
    StepFreezes(s, t, a, c);
  }

  lemma RunFreezes(run: seq<State>, k: nat, c: Tid)
    requires Run(run) && k + 1 < |run| && c in run[k].sockets
    ensures Freezes(run[k], run[k + 1], c)
  {
    RunSafe(run, k);
    assert NextAt(run, k);
    NextFreezes(run[k], run[k + 1], c);
  }

  /** After a socket is closed nothing more is written on it, and it is not closed again. */
  lemma {:induction false} NothingAfterClose(run: seq<State>, i: nat, j: nat, c: Tid)
    requires Run(run) && i <= j < |run| && c in run[i].sockets && run[i].sockets[c].closed > 0
    ensures c in run[j].sockets && run[j].sockets[c] == run[i].sockets[c]
    decreases j
  {
    if i < j {
      NothingAfterClose(run, i, j - 1, c);
      RunFreezes(run, j - 1, c);
      SocketOwnership(run, j, c);
    }
    SocketOwnership(run, i, c);
  }

  /** A sender about to report success has its whole frame, ping or header on the wire as the last
      thing written; one about to report failure leaves the socket closed, except after the header. */
  lemma SendOutcome(run: seq<State>, i: nat, t: Tid)
    requires Run(run) && i < |run| && t in run[i].threads
    requires var pc := run[i].threads[t].pc; pc.Leaving? && !pc.what.Shut?
    ensures var s := run[i]; var th := s.threads[t]; var c := Target(th, t);
      && c in s.sockets
      && (th.pc.ok ==> WroteWhole(th.role, th.pc.what, Some(s.sockets[c])))
      && (!th.pc.ok && !th.pc.what.Header? ==> s.sockets[c].closed == 1)
  {
    RunSafe(run, i);
    var c := Target(run[i].threads[t], t);
    assert SendsOwn(run[i], t) && WriteHeld(run[i], t) && SocketAccounted(run[i], c);
  }

  /** No reachable state is stuck: while any thread has not returned, some thread can go on. */
  lemma NeverStuck(run: seq<State>, i: nat, t: Tid)
    requires Run(run) && i < |run| && t in run[i].threads && !run[i].threads[t].pc.Returned?
    ensures exists u :: u in run[i].threads && CanStep(run[i], u)
  {
    RunSafe(run, i);
    DeadlockFree(run[i], t);
  }

  /** At most sixteen sessions are in the store at any time. */
  lemma Capacity(run: seq<State>, i: nat)
    requires Run(run) && i < |run|
    ensures |run[i].store| <= 16 && run[i].store <= run[i].sessions.Keys
  {
    RunSafe(run, i);
  }

  /** No two threads are ever inside the same lock. */
  lemma MutualExclusion(run: seq<State>, i: nat, t: Tid, u: Tid)
    requires Run(run) && i < |run| && t in run[i].threads && u in run[i].threads
    requires var s := run[i];
      || (HoldsStore(s.threads[t].pc) && HoldsStore(s.threads[u].pc))
      || (Holding(s.threads[t], t).Some? && Holding(s.threads[t], t) == Holding(s.threads[u], u))
    ensures t == u
  {
    RunSafe(run, i);
    assert WriteHeld(run[i], t) && WriteHeld(run[i], u);
  }
}
