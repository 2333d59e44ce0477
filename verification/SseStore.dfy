/** The store of SSE sessions: which sessions a sweep keeps, whose sockets it closes, and how many
    there can be. Each method runs under the store's lock; how threads interleave is `SseProtocol`. */
module SseStore {

  type Socket = nat

  const MAX_SESSIONS := 16
  const TTL_MS := 3600000
  const TICK_RANGE := 0x1_0000_0000

  /** The operating system's tick counter, in milliseconds modulo 2^32. */
  newtype Tick = n: int | 0 <= n < TICK_RANGE

  /** Unsigned 32-bit subtraction. */
  function Age(now: Tick, createdAt: Tick): nat {
    (now as int - createdAt as int) % TICK_RANGE
  }

  predicate Expired(now: Tick, createdAt: Tick) {
    Age(now, createdAt) > TTL_MS
  }

  function TickAt(ms: nat): Tick {
    (ms % TICK_RANGE) as Tick
  }

  /** The age seen through the counter is the true age modulo 2^32, across any wraparound. */
  lemma AgeIsTrueAge(start: nat, elapsed: nat)
    ensures Age(TickAt(start + elapsed), TickAt(start)) == elapsed % 0x1_0000_0000
  {
  }

  /** A session is taken for expired exactly when it is, unless it is so old that the counter came
      round and stands at most the time to live past its creation again. */
  lemma ExpiredIff(start: nat, elapsed: nat)
    ensures (Expired(TickAt(start + elapsed), TickAt(start)) <==> elapsed > 3600000) <==>
      !(elapsed >= 0x1_0000_0000 && elapsed % 0x1_0000_0000 <= 3600000)
  {
    AgeIsTrueAge(start, elapsed);
  }

  /** The sockets closed so far, as often as they were closed. */
  class Network {
    var closed: multiset<Socket>

    constructor ()
      ensures closed == multiset{}
    {
      closed := multiset{};
    }

    method CloseSocket(socket: Socket)
      modifies this
      ensures closed == old(closed) + multiset{socket}
    {
      closed := closed + multiset{socket};
    }
  }

  datatype Handle = Invalid | Open(socket: Socket)

  class SseSession {
    const id: string
    const createdAt: Tick
    var handle: Handle
    var alive: bool

    constructor (id: string, socket: Socket, createdAt: Tick)
      ensures this.id == id && this.createdAt == createdAt && handle == Open(socket) && alive
    {
      this.id, this.createdAt := id, createdAt;
      handle, alive := Open(socket), true;
    }
  }

  /** What closing a session's handle adds to the closed sockets. */
  function Closing(handle: Handle): multiset<Socket> {
    match handle
    case Invalid => multiset{}
    case Open(socket) => multiset{socket}
  }

  method CloseSessionSocket(session: SseSession, network: Network)
    modifies session`handle, network
    ensures session.handle == Invalid
    ensures network.closed == old(network.closed) + Closing(old(session.handle))
  {
    match session.handle
    case Invalid =>
    case Open(socket) =>
      network.CloseSocket(socket);
      session.handle := Invalid;
  }

  /** Every session is filed under its own id, so no object is filed twice. */
  ghost predicate Named(sessions: map<string, SseSession>) {
    forall i :: i in sessions ==> sessions[i].id == i
  }

  /** The sessions a sweep should keep, from who was alive: the live ones that are young enough. */
  ghost function Staying(sessions: map<string, SseSession>, lives: map<string, bool>, now: Tick): set<string> {
    set i | i in sessions && i in lives && lives[i] && !Expired(now, sessions[i].createdAt)
  }

  ghost function Handles(sessions: map<string, SseSession>): map<string, Handle>
    reads sessions.Values
  {
    map i | i in sessions :: sessions[i].handle
  }

  function Restrict(sessions: map<string, SseSession>, ids: set<string>): map<string, SseSession> {
    map i | i in sessions && i in ids :: sessions[i]
  }

  /** The sessions among `ids` that had this socket open. */
  ghost function Owners(handles: map<string, Handle>, ids: set<string>, socket: Socket): set<string> {
    set i | i in ids && i in handles && handles[i] == Open(socket)
  }

  /** Closing one more session's handle closes one more socket, if it had one. */
  lemma OwnersGrow(handles: map<string, Handle>, ids: set<string>, i: string, socket: Socket)
    requires i !in ids && i in handles
    ensures |Owners(handles, ids + {i}, socket)| == |Owners(handles, ids, socket)| + Closing(handles[i])[socket]
  {
    var before, after := Owners(handles, ids, socket), Owners(handles, ids + {i}, socket);
    if handles[i] == Open(socket) {
      assert after == before + {i};
    } else {
      assert after == before;
    }
  }

  /** The sockets of `gone` were each closed once for every session that had them open. */
  ghost predicate ClosedOnce(handles: map<string, Handle>, gone: set<string>,
                             before: multiset<Socket>, closed: multiset<Socket>)
  {
    forall socket: Socket :: closed[socket] == before[socket] + |Owners(handles, gone, socket)|
  }

  lemma ClosedOnceMore(handles: map<string, Handle>, gone: set<string>, i: string,
                       before: multiset<Socket>, closed: multiset<Socket>)
    requires i !in gone && i in handles && ClosedOnce(handles, gone, before, closed)
    ensures ClosedOnce(handles, gone + {i}, before, closed + Closing(handles[i]))
  {
    forall socket: Socket
      ensures (closed + Closing(handles[i]))[socket] == before[socket] + |Owners(handles, gone + {i}, socket)|
    {
      OwnersGrow(handles, gone, i, socket);
    }
  }

  /** Marks a session dead and closes its socket. */
  method Retire(session: SseSession, network: Network)
    modifies session, network
    ensures Retired(session)
    ensures network.closed == old(network.closed) + Closing(old(session.handle))
  {
    session.alive := false;
    CloseSessionSocket(session, network);
  }

  ghost predicate Retired(session: SseSession)
    reads session
  {
    !session.alive && session.handle == Invalid
  }

  ghost function Lives(sessions: map<string, SseSession>): map<string, bool>
    reads sessions.Values
  {
    map i | i in sessions :: sessions[i].alive
  }

  /** The session is as it was. */
  ghost predicate Untouched(session: SseSession, handles: map<string, Handle>, lives: map<string, bool>)
    reads session
  {
    var i := session.id;
    i in handles && i in lives && session.handle == handles[i] && session.alive == lives[i]
  }

  /** The sessions in `gone` are retired, the others as they were. */
  ghost predicate Progress(sessions: map<string, SseSession>, gone: set<string>,
                           handles: map<string, Handle>, lives: map<string, bool>)
    reads sessions.Values
  {
    forall i :: i in sessions ==> if i in gone then Retired(sessions[i]) else Untouched(sessions[i], handles, lives)
  }

  lemma NoneGone(sessions: map<string, SseSession>, network: Network)
    requires Named(sessions)
    ensures Progress(sessions, {}, Handles(sessions), Lives(sessions))
    ensures ClosedOnce(Handles(sessions), {}, network.closed, network.closed)
  {
    assert forall socket :: Owners(Handles(sessions), {}, socket) == {};
  }

  /** One more session is retired: its socket is closed, and no other session is affected. */
  method RetireOne(session: SseSession, network: Network,
                   ghost sessions: map<string, SseSession>, ghost gone: set<string>,
                   ghost handles: map<string, Handle>, ghost lives: map<string, bool>, ghost before: multiset<Socket>)
    requires Named(sessions) && session.id in sessions && sessions[session.id] == session && session.id !in gone
    requires Progress(sessions, gone, handles, lives) && ClosedOnce(handles, gone, before, network.closed)
    modifies session, network
    ensures Progress(sessions, gone + {session.id}, handles, lives)
    ensures ClosedOnce(handles, gone + {session.id}, before, network.closed)
  {
    assert Untouched(session, handles, lives);
    ClosedOnceMore(handles, gone, session.id, before, network.closed);
    Retire(session, network);
  }

  /** What the sweep does to one session. */
  method RetireIfStale(session: SseSession, now: Tick, network: Network,
                       ghost sessions: map<string, SseSession>, ghost gone: set<string>,
                       ghost handles: map<string, Handle>, ghost lives: map<string, bool>, ghost before: multiset<Socket>)
    returns (stale: bool)
    requires Named(sessions) && session.id in sessions && sessions[session.id] == session && session.id !in gone
    requires Progress(sessions, gone, handles, lives) && ClosedOnce(handles, gone, before, network.closed)
    modifies session, network
    ensures stale <==> session.id !in Staying(sessions, lives, now)
    ensures Progress(sessions, if stale then gone + {session.id} else gone, handles, lives)
    ensures ClosedOnce(handles, if stale then gone + {session.id} else gone, before, network.closed)
  {
    assert Untouched(session, handles, lives);
    stale := Expired(now, session.createdAt) || !session.alive;
    if stale {
      RetireOne(session, network, sessions, gone, handles, lives, before);
    }
  }

  lemma InsertOne(sessions: map<string, SseSession>, id: string, session: SseSession)
    ensures |sessions[id := session]| <= |sessions| + 1
  {
    assert sessions[id := session].Keys == sessions.Keys + {id};
    assert |sessions[id := session]| == |sessions[id := session].Keys| && |sessions| == |sessions.Keys|;
  }

  lemma RestrictShrinks(sessions: map<string, SseSession>, ids: set<string>)
    ensures |Restrict(sessions, ids)| <= |sessions|
  {
    var kept := Restrict(sessions, ids).Keys;
    Subset(kept, sessions.Keys);
    assert |sessions| == |sessions.Keys| && |Restrict(sessions, ids)| == |kept|;
  }

  lemma {:induction false} Subset<T>(a: set<T>, b: set<T>)
    requires a <= b
    ensures |a| <= |b|
  {
    if a != {} {
      var x :| x in a;
      Subset(a - {x}, b - {x});
    }
  }

  /** Midway through a sweep: what is neither staying nor yet to be looked at is gone. */
  ghost predicate Swept(original: map<string, SseSession>, staying: set<string>, todo: set<string>,
                        sessions: map<string, SseSession>, gone: set<string>)
  {
    && gone <= original.Keys
    && sessions.Keys <= original.Keys
    && todo <= original.Keys
    && (forall i :: i in original ==>
      && (i in gone <==> i !in todo && i !in staying)
      && (i in sessions <==> i !in gone)
      && (i in sessions ==> sessions[i] == original[i]))
  }

  lemma SweptEnd(original: map<string, SseSession>, staying: set<string>,
                 sessions: map<string, SseSession>, gone: set<string>)
    requires Swept(original, staying, {}, sessions, gone) && staying <= original.Keys
    ensures sessions == Restrict(original, staying) && sessions.Keys == staying
    ensures gone == original.Keys - sessions.Keys
    ensures |sessions| <= |original|
  {
    RestrictShrinks(original, staying);
  }

  lemma SweptNext(original: map<string, SseSession>, staying: set<string>, todo: set<string>,
                  sessions: map<string, SseSession>, gone: set<string>, i: string)
    requires Swept(original, staying, todo, sessions, gone) && i in todo
    ensures i in original && i in sessions && sessions[i] == original[i] && i !in gone
    ensures i in staying ==> Swept(original, staying, todo - {i}, sessions, gone)
    ensures i !in staying ==> Swept(original, staying, todo - {i}, sessions - {i}, gone + {i})
  {
  }

  class SseSessionStore {
    var sessions: map<string, SseSession>

    ghost predicate Valid()
      reads this
    {
      |sessions| <= MAX_SESSIONS && Named(sessions)
    }

    constructor ()
      ensures Valid() && sessions == map[]
    {
      sessions := map[];
    }

    method Erase(i: string, ghost original: map<string, SseSession>, ghost gone: set<string>,
                 ghost handles: map<string, Handle>, ghost lives: map<string, bool>)
      requires Progress(original, gone, handles, lives)
      modifies `sessions
      ensures sessions == old(sessions) - {i}
      ensures Progress(original, gone, handles, lives)
    {
      sessions := sessions - {i};
    }

    /** The loop body of the sweep: one session is dropped if it is dead or too old. */
    method SweepOne(i: string, now: Tick, network: Network, ghost original: map<string, SseSession>,
                    ghost todo: set<string>, ghost gone: set<string>,
                    ghost handles: map<string, Handle>, ghost lives: map<string, bool>, ghost before: multiset<Socket>)
      returns (ghost more: set<string>)
      requires Named(original) && i in todo && i in sessions
      requires Swept(original, Staying(original, lives, now), todo, sessions, gone)
      requires Progress(original, gone, handles, lives) && ClosedOnce(handles, gone, before, network.closed)
      modifies `sessions, network, sessions[i]
      ensures Swept(original, Staying(original, lives, now), todo - {i}, sessions, more)
      ensures Progress(original, more, handles, lives) && ClosedOnce(handles, more, before, network.closed)
    {
      SweptNext(original, Staying(original, lives, now), todo, sessions, gone, i);
      more := gone;
      var stale := RetireIfStale(sessions[i], now, network, original, gone, handles, lives, before);
      if stale {
        more := gone + {i};
        Erase(i, original, more, handles, lives);
      }
    }

    /** The sweep: drops the sessions that are dead or too old, and closes their sockets. */
    method Sweep(network: Network, now: Tick)
      requires Valid()
      modifies this, network, sessions.Values
      ensures Valid()
      ensures sessions == Restrict(old(sessions), Staying(old(sessions), old(Lives(sessions)), now))
      ensures Progress(old(sessions), old(sessions).Keys - sessions.Keys, old(Handles(sessions)), old(Lives(sessions)))
      ensures ClosedOnce(old(Handles(sessions)), old(sessions).Keys - sessions.Keys, old(network.closed), network.closed)
    {
      ghost var original, handles, lives := sessions, Handles(sessions), Lives(sessions);
      ghost var staying := Staying(original, lives, now);
      ghost var gone: set<string> := {};
      NoneGone(sessions, network);
      var todo := sessions.Keys;
      while todo != {}
        invariant Swept(original, staying, todo, sessions, gone)
        invariant Progress(original, gone, handles, lives)
        invariant ClosedOnce(handles, gone, old(network.closed), network.closed)
        decreases |todo|
      {
        var i :| i in todo;
        SweptNext(original, staying, todo, sessions, gone, i);
        gone := SweepOne(i, now, network, original, todo, gone, handles, lives, old(network.closed));
        todo := todo - {i};
      }
      SweptEnd(original, staying, sessions, gone);
    }

    /** Files a new session under its id. */
    method Insert(socket: Socket, id: string, createdAt: Tick, ghost original: map<string, SseSession>,
                  ghost gone: set<string>, ghost handles: map<string, Handle>, ghost lives: map<string, bool>)
      returns (session: SseSession)
      requires Named(sessions) && |sessions| < MAX_SESSIONS && Progress(original, gone, handles, lives)
      modifies `sessions
      ensures Valid() && fresh(session) && sessions == old(sessions)[id := session]
      ensures session.id == id && session.createdAt == createdAt && session.alive && session.handle == Open(socket)
      ensures Progress(original, gone, handles, lives)
    {
      session := new SseSession(id, socket, createdAt);
      InsertOne(sessions, id, session);
      sessions := sessions[id := session];
    }

    /** Sweeps and, if there is room, adds a session for `socket`, in place of another filed under the
        same id if the draw of ids should repeat itself. `now` and `later` are the two readings of the
        tick counter. */
    method CreateSession(network: Network, socket: Socket, id: string, now: Tick, later: Tick)
      returns (session: SseSession?)
      requires Valid()
      modifies this, network, sessions.Values
      ensures Valid()
      ensures session == null <==> |Staying(old(sessions), old(Lives(sessions)), now)| >= 16
      ensures var kept := Restrict(old(sessions), Staying(old(sessions), old(Lives(sessions)), now));
        sessions == if session == null then kept else kept[id := session]
      ensures session != null ==> fresh(session) && session.id == id && session.createdAt == later
      ensures session != null ==> session.alive && session.handle == Open(socket)
      ensures Progress(old(sessions), old(sessions).Keys - Staying(old(sessions), old(Lives(sessions)), now),
                       old(Handles(sessions)), old(Lives(sessions)))
      ensures ClosedOnce(old(Handles(sessions)), old(sessions).Keys - Staying(old(sessions), old(Lives(sessions)), now),
                         old(network.closed), network.closed)
    {
      ghost var original, handles, lives := sessions, Handles(sessions), Lives(sessions);
      Sweep(network, now);
      assert sessions.Keys == Staying(original, lives, now);
      if |sessions| >= MAX_SESSIONS {
        return null;
      }
      session := Insert(socket, id, later, original, original.Keys - sessions.Keys, handles, lives);
    }

    /** The one session in the store with this id, or none if no session has it. */
    method FindSession(id: string) returns (session: SseSession?)
      requires Valid()
      ensures session == null ==> forall s :: s in sessions.Values ==> s.id != id
      ensures session != null ==> forall s :: s in sessions.Values ==> (s.id == id <==> s == session)
      ensures session != null ==> session in sessions.Values
    {
      session := if id in sessions then sessions[id] else null;
    }

    /** No session in the store has this id any more; the others stay. */
    method RemoveSession(id: string)
      requires Valid()
      modifies `sessions
      ensures Valid()
      ensures forall s :: s in sessions.Values <==> s in old(sessions).Values && s.id != id
    {
      assert (sessions - {id}).Keys == sessions.Keys - {id};
      ghost var before := sessions;
      sessions := sessions - {id};
      forall s | s in before.Values && s.id != id ensures s in sessions.Values {
        assert before[s.id] == s && s.id in sessions;
      }
    }

    /** Leaves no session, none of the old ones alive, and every socket they had closed once. */
    method ShutdownAllSessions(network: Network)
      requires Valid()
      modifies this, network, sessions.Values
      ensures Valid() && sessions == map[]
      ensures Progress(old(sessions), old(sessions).Keys, old(Handles(sessions)), old(Lives(sessions)))
      ensures ClosedOnce(old(Handles(sessions)), old(sessions).Keys, old(network.closed), network.closed)
    {
      ghost var handles, lives := Handles(sessions), Lives(sessions);
      ghost var gone: set<string> := {};
      NoneGone(sessions, network);
      var todo := sessions.Keys;
      while todo != {}
        invariant sessions == old(sessions) && todo <= sessions.Keys
        invariant forall i :: i in gone <==> i in sessions && i !in todo
        invariant Progress(sessions, gone, handles, lives)
        invariant ClosedOnce(handles, gone, old(network.closed), network.closed)
        decreases |todo|
      {
        var i :| i in todo;
        RetireOne(sessions[i], network, sessions, gone, handles, lives, old(network.closed));
        gone := gone + {i};
        todo := todo - {i};
      }
      assert gone == sessions.Keys;
      sessions := map[];
    }
  }
}
