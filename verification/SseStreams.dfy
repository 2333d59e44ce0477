/** What is on the wire of a session: the exact condition under which it is the response header, the
    endpoint event and then whole packets, and what a client then reads. */
module SseStreams {
  import opened Common
  import opened SseFrames
  import opened SseProtocol

  // ---- Logs

  /** Header and endpoint event went out whole, so the client can know the session. */
  predicate Announced(log: seq<Record>) {
    |log| >= 2 && Whole(log[0]) && Whole(log[1])
  }

  predicate Torn(log: seq<Record>) {
    |log| >= 2 && !Whole(log[|log| - 1])
  }

  /** Header, endpoint event, then packets; all whole but perhaps the last. */
  ghost predicate LogShape(log: seq<Record>, url: string) {
    && (forall i :: 0 <= i < |log| ==> log[i].sent <= |ItemText(log[i].item)|)
    && (forall i :: 0 <= i < |log| - 1 ==> Whole(log[i]))
    && (forall i :: 1 <= i < |log| ==> log[i].item.Carry?)
    && (|log| >= 1 ==> log[0].item.Heading?)
    && (|log| >= 2 ==> log[1].item == Carry(Frame("endpoint", url)))
  }

  /** How far a session's log is, by the point of its connection thread. */
  predicate Stage(pc: Pc, log: seq<Record>) {
    match pc
    case WantWrite(what) => AtWrite(what, log)
    case Locked(what) => AtWrite(what, log)
    case Writing(what) =>
      (what.Header? ==> |log| == 1) && (what.Message? ==> |log| >= 2) && (what.Pulse? ==> Announced(log))
    case Leaving(what, ok) =>
      && (what.Header? ==> |log| <= 1 && (ok ==> |log| == 1 && Whole(log[0])))
      && (what.Message? && ok ==> Announced(log))
      && (what.Pulse? ==> Announced(log))
    case WantStore(job) => job.Find? ==> |log| == 1 && Whole(log[0])
    case InStore(job, _, _) => job.Find? ==> |log| == 1 && Whole(log[0])
    case Checking(_) => |log| == 1 && Whole(log[0])
    case Looping => Announced(log)
    case _ => true
  }

  predicate AtWrite(what: What, log: seq<Record>) {
    match what
    case Header => log == []
    case Message => |log| == 1 && Whole(log[0])
    case Pulse => Announced(log)
    case Shut => true
  }

  ghost predicate ViewStream(v: View, t: Tid, x: Tid, url: string) {
    && v.socket.Some?
    && var log := v.socket.value.log;
    && (v.session.Some? ==> LogShape(log, url))
    && (Torn(log) && IsOpen(v.session) ==> Writer(v.session).Some? && (Writer(v.session) == Some(t) ==> v.thread.pc.Writing?))
    && (v.thread.role.Handler? && v.thread.pc.Writing? ==> Announced(log))
    && (v.thread.role.Connection? && x == t ==>
      && v.thread.role.url == url
      && (v.session.Some? ==> Stage(v.thread.pc, log))
      && (Creating(v.thread.pc) ==> log == []))
  }

  /** A handler has the write lock of an open session and is about to write, but header and endpoint
      have not both gone out whole. */
  predicate EarlyMove(v: View, a: Act) {
    && a.Begin? && v.thread.role.Handler? && v.thread.pc == Locked(Message)
    && IsOpen(v.session) && v.socket.Some? && !Announced(v.socket.value.log)
  }

  /** The log grows only under the write lock of a session, and only a handler adds to another
      thread's log. */
  predicate LogMoves(v: View, t: Tid, x: Tid, v': View) {
    && v.socket.Some? && v'.socket.Some?
    && var log, log' := v.socket.value.log, v'.socket.value.log;
    && (Announced(log) ==> Announced(log'))
    && (log' != log && v.session.Some? ==> Holding(v.thread, t) == Some(x))
    && (log' != log && x != t ==> Announced(log))
  }

  lemma LogGrows(log: seq<Record>, item: Item, url: string)
    requires LogShape(log, url)
    requires log == [] ==> item.Heading?
    requires |log| == 1 ==> item == Carry(Frame("endpoint", url))
    requires log != [] ==> item.Carry? && Whole(log[|log| - 1])
    ensures LogShape(log + [Record(item, 0)], url)
  {
    var log' := log + [Record(item, 0)];
    assert forall i :: 0 <= i < |log| ==> log'[i] == log[i];
    assert log'[|log|] == Record(item, 0);
  }

  lemma LogPushed(log: seq<Record>, n: nat, url: string)
    requires log != [] && 0 < n <= |ItemText(log[|log| - 1].item)| - log[|log| - 1].sent
    ensures var last := log[|log| - 1]; var log' := log[|log| - 1 := last.(sent := last.sent + n)];
      && (LogShape(log, url) ==> LogShape(log', url))
      && (Announced(log) ==> Announced(log'))
  {
    var k, r := |log| - 1, log[|log| - 1];
    var log' := log[k := r.(sent := r.sent + n)];
    assert forall i :: 0 <= i < k ==> log'[i] == log[i];
    assert log'[k].item == r.item && log'[k].sent <= |ItemText(r.item)| && !Whole(r);
  }

  /** Most steps write nothing. */
  predicate Writes(a: Act) { a.Authorize? || a.UnlockStore? || a.Begin? || a.Push? }

  predicate TakesLock(a: Act) { a.LockStore? || a.Examine? || a.LockVictim? || a.Evict? || a.LockWrite? }

  lemma LockMove(v: View, t: Tid, x: Tid, a: Act, url: string)
    requires Allowed(v, x, a) && ViewShape(v, t, x) && ViewOpen(v) && x == Subject(v.thread, t, a)
    requires ViewStream(v, t, x, url) && !Writes(a) && TakesLock(a)
    ensures ViewStream(Move(v, t, x, a), t, x, url) && LogMoves(v, t, x, Move(v, t, x, a))
  {
    assert Move(v, t, x, a).socket.value.log == v.socket.value.log;
  }

  lemma QuietMove(v: View, t: Tid, x: Tid, a: Act, url: string)
    requires Allowed(v, x, a) && ViewShape(v, t, x) && ViewOpen(v) && x == Subject(v.thread, t, a)
    requires ViewStream(v, t, x, url) && !Writes(a) && !TakesLock(a) && !EndsWrite(a)
    ensures ViewStream(Move(v, t, x, a), t, x, url) && LogMoves(v, t, x, Move(v, t, x, a))
  {
    assert Move(v, t, x, a).socket.value.log == v.socket.value.log;
  }

  predicate EndsWrite(a: Act) { a.Done? || a.Fail? || a.Unlock? }

  lemma EndMove(v: View, t: Tid, x: Tid, a: Act, url: string)
    requires Allowed(v, x, a) && ViewShape(v, t, x) && ViewOpen(v) && x == Subject(v.thread, t, a)
    requires ViewStream(v, t, x, url) && EndsWrite(a)
    ensures ViewStream(Move(v, t, x, a), t, x, url) && LogMoves(v, t, x, Move(v, t, x, a))
  {
    assert Move(v, t, x, a).socket.value.log == v.socket.value.log;
  }

  /** Under the lock, but nothing is sent: the socket is closed already, or now. */
  lemma BeginNothingMove(v: View, t: Tid, x: Tid, a: Act, url: string)
    requires Allowed(v, x, a) && ViewShape(v, t, x) && ViewOpen(v) && x == Subject(v.thread, t, a)
    requires ViewStream(v, t, x, url) && a.Begin? && !Move(v, t, x, a).thread.pc.Writing?
    ensures ViewStream(Move(v, t, x, a), t, x, url) && LogMoves(v, t, x, Move(v, t, x, a))
  {
    assert Move(v, t, x, a).socket.value.log == v.socket.value.log;
  }

  /** The header begins a connection's log. */
  lemma BeginHeaderMove(v: View, t: Tid, x: Tid, a: Act, url: string)
    requires Allowed(v, x, a) && ViewShape(v, t, x) && ViewOpen(v) && x == Subject(v.thread, t, a)
    requires ViewStream(v, t, x, url) && a.Begin? && v.thread.pc.what.Header? && Move(v, t, x, a).thread.pc.Writing?
    ensures ViewStream(Move(v, t, x, a), t, x, url) && LogMoves(v, t, x, Move(v, t, x, a))
  {
    LogGrows(v.socket.value.log, Heading, url);
  }

  /** The endpoint event follows the header. */
  lemma BeginEndpointMove(v: View, t: Tid, x: Tid, a: Act, url: string)
    requires Allowed(v, x, a) && ViewShape(v, t, x) && ViewOpen(v) && x == Subject(v.thread, t, a)
    requires ViewStream(v, t, x, url) && a.Begin? && v.thread.role.Connection?
    requires v.thread.pc.what.Message? && Move(v, t, x, a).thread.pc.Writing?
    ensures ViewStream(Move(v, t, x, a), t, x, url) && LogMoves(v, t, x, Move(v, t, x, a))
  {
    LogGrows(v.socket.value.log, ItemFor(v.thread.role, Message), url);
  }

  /** A ping follows the announcement. */
  lemma BeginPingMove(v: View, t: Tid, x: Tid, a: Act, url: string)
    requires Allowed(v, x, a) && ViewShape(v, t, x) && ViewOpen(v) && x == Subject(v.thread, t, a)
    requires ViewStream(v, t, x, url) && a.Begin? && v.thread.role.Connection?
    requires v.thread.pc.what.Pulse? && Move(v, t, x, a).thread.pc.Writing?
    ensures ViewStream(Move(v, t, x, a), t, x, url) && LogMoves(v, t, x, Move(v, t, x, a))
  {
    LogGrows(v.socket.value.log, Carry(Ping), url);
  }

  /** A handler's frame follows a whole packet, if it does not come early. */
  lemma BeginHandlerMove(v: View, t: Tid, x: Tid, a: Act, url: string)
    requires Allowed(v, x, a) && ViewShape(v, t, x) && ViewOpen(v) && x == Subject(v.thread, t, a)
    requires ViewStream(v, t, x, url) && !EarlyMove(v, a) && a.Begin? && v.thread.role.Handler?
    requires Move(v, t, x, a).thread.pc.Writing?
    ensures ViewStream(Move(v, t, x, a), t, x, url) && LogMoves(v, t, x, Move(v, t, x, a))
  {
    LogGrows(v.socket.value.log, ItemFor(v.thread.role, v.thread.pc.what), url);
  }

  lemma PushMove(v: View, t: Tid, x: Tid, a: Act, url: string)
    requires Allowed(v, x, a) && ViewShape(v, t, x) && ViewOpen(v) && x == Subject(v.thread, t, a)
    requires ViewStream(v, t, x, url) && a.Push?
    ensures ViewStream(Move(v, t, x, a), t, x, url) && LogMoves(v, t, x, Move(v, t, x, a))
  {
    LogPushed(v.socket.value.log, a.n, url);
  }

  /** A refused connection has no session, only a plain reply. */
  lemma RefuseMove(v: View, t: Tid, x: Tid, a: Act, url: string)
    requires Allowed(v, x, a) && ViewShape(v, t, x) && ViewOpen(v) && x == Subject(v.thread, t, a)
    requires ViewStream(v, t, x, url) && a.Authorize?
    ensures ViewStream(Move(v, t, x, a), t, x, url) && LogMoves(v, t, x, Move(v, t, x, a))
  {
  }

  lemma CreateMove(v: View, t: Tid, x: Tid, a: Act, url: string)
    requires Allowed(v, x, a) && ViewShape(v, t, x) && ViewOpen(v) && x == Subject(v.thread, t, a)
    requires ViewStream(v, t, x, url) && a.UnlockStore? && v.thread.pc.job.Create?
    ensures ViewStream(Move(v, t, x, a), t, x, url) && LogMoves(v, t, x, Move(v, t, x, a))
  {
    assert v.thread.role.Connection? && x == t && v.session.None? && v.socket.value.log == [];
  }

  /** A lookup comes to an end. */
  lemma LookedMove(v: View, t: Tid, x: Tid, a: Act, url: string)
    requires Allowed(v, x, a) && ViewShape(v, t, x) && ViewOpen(v) && x == Subject(v.thread, t, a)
    requires ViewStream(v, t, x, url) && a.UnlockStore? && (v.thread.pc.job.Lookup? || v.thread.pc.job.Find?)
    ensures ViewStream(Move(v, t, x, a), t, x, url) && LogMoves(v, t, x, Move(v, t, x, a))
  {
    assert Move(v, t, x, a).socket.value.log == v.socket.value.log;
  }

  lemma RemovedMove(v: View, t: Tid, x: Tid, a: Act, url: string)
    requires Allowed(v, x, a) && ViewShape(v, t, x) && ViewOpen(v) && x == Subject(v.thread, t, a)
    requires ViewStream(v, t, x, url) && a.UnlockStore? && (v.thread.pc.job.Remove? || v.thread.pc.job.Clear?)
    ensures ViewStream(Move(v, t, x, a), t, x, url) && LogMoves(v, t, x, Move(v, t, x, a))
  {
    assert Move(v, t, x, a).socket.value.log == v.socket.value.log;
  }

  lemma MoveStreams(v: View, t: Tid, x: Tid, a: Act, url: string)
    requires Allowed(v, x, a) && ViewShape(v, t, x) && ViewOpen(v) && x == Subject(v.thread, t, a)
    requires ViewStream(v, t, x, url) && !EarlyMove(v, a)
    ensures ViewStream(Move(v, t, x, a), t, x, url) && LogMoves(v, t, x, Move(v, t, x, a))
  {
    if a.Begin? {
      if !Move(v, t, x, a).thread.pc.Writing? { BeginNothingMove(v, t, x, a, url); }
      else if v.thread.pc.what.Header? { BeginHeaderMove(v, t, x, a, url); }
      else if v.thread.role.Handler? { BeginHandlerMove(v, t, x, a, url); }
      else if v.thread.pc.what.Message? { BeginEndpointMove(v, t, x, a, url); }
      else { BeginPingMove(v, t, x, a, url); }
    }
    else if a.Push? { PushMove(v, t, x, a, url); }
    else if a.Authorize? { RefuseMove(v, t, x, a, url); }
    else if a.UnlockStore? {
      var job := v.thread.pc.job;
      if job.Create? { CreateMove(v, t, x, a, url); }
      else if job.Lookup? || job.Find? { LookedMove(v, t, x, a, url); }
      else { RemovedMove(v, t, x, a, url); }
    }
    else if TakesLock(a) { LockMove(v, t, x, a, url); }
    else if EndsWrite(a) { EndMove(v, t, x, a, url); }
    else { QuietMove(v, t, x, a, url); }
  }

  /** A write cut short in the middle is still being written, or the socket is closed. */
  ghost predicate TornHeld(s: State, c: Tid)
    requires c in s.sockets && c in s.sessions
  {
    Torn(s.sockets[c].log) && s.sessions[c].open ==>
      && s.sessions[c].writer.Some? && s.sessions[c].writer.value in s.threads
      && s.threads[s.sessions[c].writer.value].pc.Writing?
  }

  ghost predicate SocketStream(s: State, c: Tid)
    requires c in s.sockets && c in s.threads && s.threads[c].role.Connection?
  {
    var th, log := s.threads[c], s.sockets[c].log;
    && (c in s.sessions ==> LogShape(log, th.role.url) && Stage(th.pc, log) && TornHeld(s, c))
    && (Creating(th.pc) ==> log == [])
  }

  /** A handler that is writing to session `c` writes after the announcement. */
  ghost predicate WritesAnnounced(s: State, t: Tid, c: Tid)
    requires t in s.threads && c in s.sockets
  {
    var th := s.threads[t];
    th.role.Handler? && th.role.target == c && th.pc.Writing? ==> Announced(s.sockets[c].log)
  }

  /** All is well with the stream of session `c`. */
  ghost predicate StreamOf(s: State, c: Tid) {
    c in s.sockets ==>
      && (c in s.threads && s.threads[c].role.Connection? ==> SocketStream(s, c))
      && (forall t :: t in s.threads ==> WritesAnnounced(s, t, c))
  }

  lemma ViewStreams(s: State, t: Tid, a: Act)
    requires Shape(s) && Enabled(s, t, a) && !a.Spawn?
    requires var x := Subject(s.threads[t], t, a); x in s.sockets && StreamOf(s, x)
    ensures var x := Subject(s.threads[t], t, a); ViewStream(ViewOf(s, t, x), t, x, s.threads[x].role.url)
  {
    var x := Subject(s.threads[t], t, a);
    assert SocketStream(s, x) && WritesAnnounced(s, t, x) && ThreadShape(s, t);
  }

  /** What a step that is not early is known to do to the session it is about. */
  ghost predicate LegalMove(v: View, t: Tid, x: Tid, v': View, url: string) {
    && KeepsRole(v, t, x, v') && HandsLocks(v, t, x, v') && ClosesOnce(v, t, x, v')
    && LogMoves(v, t, x, v') && ViewStream(v', t, x, url)
  }

  lemma MoveIsLegal(v: View, t: Tid, x: Tid, a: Act, url: string)
    requires Allowed(v, x, a) && ViewShape(v, t, x) && ViewOpen(v) && x == Subject(v.thread, t, a)
    requires v.session.Some? && v.socket.Some? ==> v.socket.value.closed == (if v.session.value.open then 0 else 1)
    requires v.session.None? && v.socket.Some? && x == t && !v.thread.pc.Returned? ==> v.socket.value.closed == 0
    requires ViewStream(v, t, x, url) && !EarlyMove(v, a)
    ensures LegalMove(v, t, x, Move(v, t, x, a), url)
  {
    MoveKeepsRole(v, t, x, a);
    MoveHandsLocks(v, t, x, a);
    MoveClosesOnce(v, t, x, a);
    MoveStreams(v, t, x, a, url);
  }

  ghost predicate Legal(s: State, t: Tid, x: Tid, v': View)
    requires t in s.threads
  {
    && x in s.sockets && x in s.threads && s.threads[x].role.Connection?
    && LegalMove(ViewOf(s, t, x), t, x, v', s.threads[x].role.url)
  }

  /** The stream of a session the step is not about: it is another thread's, which stays where it is. */
  lemma OtherStream(s: State, t: Tid, x: Tid, v': View, c: Tid)
    requires Shape(s) && Locks(s) && StreamOf(s, c) && t in s.threads && c != x && c != t
    requires KeepsRole(ViewOf(s, t, x), t, x, v') && HandsLocks(ViewOf(s, t, x), t, x, v')
    requires c in s.sockets && c in s.threads && s.threads[c].role.Connection?
    ensures SocketStream(With(s, t, x, v'), c)
  {
    var s' := With(s, t, x, v');
    assert SocketStream(s, c) && s'.threads[c] == s.threads[c];
    if c in s.sessions {
      assert WriteHeld(s, t) && WriteLock(s, c);
      assert s'.sessions[c] == s.sessions[c] && s'.sockets[c] == s.sockets[c];
    }
  }

  /** A connection thread at another session has none of its own yet. */
  lemma AwayStream(s: State, t: Tid, x: Tid, v': View)
    requires Shape(s) && StreamOf(s, t) && t in s.threads && t != x
    requires KeepsRole(ViewOf(s, t, x), t, x, v')
    requires t in s.sockets && s.threads[t].role.Connection?
    ensures SocketStream(With(s, t, x, v'), t)
  {
    assert SocketStream(s, t) && ThreadShape(s, t);
  }

  /** A step of another thread on the session: it changes nothing, or adds to an announced stream. */
  lemma VisitedStream(s: State, t: Tid, x: Tid, v': View)
    requires Shape(s) && Locks(s) && StreamOf(s, x) && t in s.threads && Legal(s, t, x, v') && x != t
    ensures SocketStream(With(s, t, x, v'), x)
  {
    assert WriteHeld(s, t) && SocketStream(s, x) && ThreadShape(s, x);
    assert x in s.sessions ==> WriteLock(s, x);
    var pc, log, log' := s.threads[x].pc, s.sockets[x].log, v'.socket.value.log;
    if x in s.sessions {
      assert log' != log ==> Stage(pc, log');
    }
  }

  lemma OwnStream(s: State, t: Tid, v': View)
    requires Shape(s) && Locks(s) && StreamOf(s, t) && t in s.threads && Legal(s, t, t, v')
    ensures SocketStream(With(s, t, t, v'), t)
  {
    assert WriteHeld(s, t) && SocketStream(s, t);
    assert t in s.sessions ==> WriteLock(s, t);
  }

  /** The step is about session `c`. */
  lemma StreamFollows(s: State, t: Tid, c: Tid, v': View)
    requires Shape(s) && Locks(s) && StreamOf(s, c) && t in s.threads && Legal(s, t, c, v')
    ensures StreamOf(With(s, t, c, v'), c)
  {
    var s' := With(s, t, c, v');
    if c == t {
      OwnStream(s, t, v');
    } else {
      VisitedStream(s, t, c, v');
    }
    forall u | u in s'.threads ensures WritesAnnounced(s', u, c) {
      assert WritesAnnounced(s, u, c);
    }
  }

  /** The step is about another session, or none. */
  lemma StreamStays(s: State, t: Tid, x: Tid, v': View, c: Tid)
    requires Shape(s) && Locks(s) && StreamOf(s, c) && t in s.threads && c != x
    requires KeepsRole(ViewOf(s, t, x), t, x, v') && HandsLocks(ViewOf(s, t, x), t, x, v')
    ensures StreamOf(With(s, t, x, v'), c)
  {
    var s' := With(s, t, x, v');
    if c in s.sockets {
      if c == t {
        AwayStream(s, t, x, v');
      } else {
        OtherStream(s, t, x, v', c);
      }
      forall u | u in s'.threads ensures WritesAnnounced(s', u, c) {
        assert WritesAnnounced(s, u, c);
      }
    }
  }

  lemma SpawnStream(s: State, t: Tid, role: Role, c: Tid)
    requires Shape(s) && StreamOf(s, c) && t !in s.threads
    ensures StreamOf(Spawned(s, t, role), c)
  {
    var s' := Spawned(s, t, role);
    assert t !in s.sockets && t !in s.sessions;
    if c in s'.sockets {
      assert c != t ==> SocketStream(s, c);
      forall u | u in s'.threads ensures WritesAnnounced(s', u, c) {
        assert u != t && c != t ==> WritesAnnounced(s, u, c);
        assert u != t ==> ThreadShape(s, u);
      }
    }
  }

  /** A step is early for session `c` if a handler begins to write to it before its announcement. */
  ghost predicate Early(s: State, t: Tid, a: Act, c: Tid) {
    && Enabled(s, t, a) && a.Begin? && Target(s.threads[t], t) == c
    && EarlyMove(ViewOf(s, t, c), a)
  }

  lemma StepStreamHere(s: State, t: Tid, a: Act, c: Tid)
    requires Shape(s) && Locks(s) && Ownership(s) && StreamOf(s, c) && Enabled(s, t, a) && !Early(s, t, a, c)
    requires !a.Spawn? && c == Subject(s.threads[t], t, a) && c in s.sockets
    ensures StreamOf(With(s, t, c, Move(ViewOf(s, t, c), t, c, a)), c)
  {
    ViewIsShaped(s, t, a);
    ViewIsOwned(s, t, a);
    ViewStreams(s, t, a);
    MoveIsLegal(ViewOf(s, t, c), t, c, a, s.threads[c].role.url);
    StreamFollows(s, t, c, Move(ViewOf(s, t, c), t, c, a));
  }

  lemma StepStreamElsewhere(s: State, t: Tid, a: Act, c: Tid)
    requires Shape(s) && Locks(s) && StreamOf(s, c) && Enabled(s, t, a)
    requires !a.Spawn? && (c != Subject(s.threads[t], t, a) || c !in s.sockets)
    ensures var x := Subject(s.threads[t], t, a); StreamOf(With(s, t, x, Move(ViewOf(s, t, x), t, x, a)), c)
  {
    var x := Subject(s.threads[t], t, a);
    ViewIsShaped(s, t, a);
    MoveKeepsRole(ViewOf(s, t, x), t, x, a);
    if x != c {
      MoveHandsLocks(ViewOf(s, t, x), t, x, a);
      StreamStays(s, t, x, Move(ViewOf(s, t, x), t, x, a), c);
    }
  }

  lemma StepStream(s: State, t: Tid, a: Act, c: Tid)
    requires Shape(s) && Locks(s) && Ownership(s) && StreamOf(s, c) && Enabled(s, t, a) && !Early(s, t, a, c)
    ensures StreamOf(Apply(s, t, a), c)
  {
    if a.Spawn? {
      SpawnStream(s, t, a.role, c);
    } else if c == Subject(s.threads[t], t, a) && c in s.sockets {
      StepStreamHere(s, t, a, c);
    } else {
      StepStreamElsewhere(s, t, a, c);
    }
  }

  /** An early step always spoils the log: whatever is there, a handler's frame does not belong next. */
  lemma {:induction false} EarlySpoils(s: State, t: Tid, a: Act, c: Tid, url: string)
    requires Early(s, t, a, c)
    ensures var s' := Apply(s, t, a); c in s'.sessions && c in s'.sockets && !LogShape(s'.sockets[c].log, url)
  {
    var log, log' := s.sockets[c].log, Apply(s, t, a).sockets[c].log;
    assert log' == log + [Record(ItemFor(s.threads[t].role, Message), 0)];
    assert |log| >= 1 ==> log'[0] == log[0];
    assert |log| >= 2 ==> log'[1] == log[1];
    if |log| == 1 {
      assert log'[1].item.packet.event == "message";
    }
  }

  // ---- The exact condition, over runs

  ghost predicate EarlyNext(s: State, s': State, c: Tid) {
    exists t, a :: Early(s, t, a, c) && s' == Apply(s, t, a)
  }

  /** The step from the `i`-th state of the run is early for session `c`. */
  ghost predicate EarlyAt(run: seq<State>, i: nat, c: Tid)
    requires i + 1 < |run|
  {
    EarlyNext(run[i], run[i + 1], c)
  }

  lemma NextStream(s: State, s': State, c: Tid)
    requires Safe(s) && StreamOf(s, c) && Next(s, s') && !EarlyNext(s, s', c)
    ensures StreamOf(s', c)
  {
    var t, a :| Enabled(s, t, a) && s' == Apply(s, t, a);
    StepStream(s, t, a, c);
  }

  lemma {:induction false} RunStream(run: seq<State>, i: nat, c: Tid)
    requires Run(run) && i < |run| && forall k :: 0 <= k < i ==> !EarlyAt(run, k, c)
    ensures Safe(run[i]) && StreamOf(run[i], c)
  {
    RunSafe(run, i);
    if i > 0 {
      RunStream(run, i - 1, c);
      assert NextAt(run, i - 1) && !EarlyAt(run, i - 1, c);
      NextStream(run[i - 1], run[i], c);
    }
  }

  /** If session `c` exists, its log is header, endpoint, packets, all whole but perhaps the last. */
  ghost predicate Shaped(s: State, c: Tid) {
    c in s.sessions ==>
      && c in s.sockets && c in s.threads && s.threads[c].role.Connection?
      && LogShape(s.sockets[c].log, s.threads[c].role.url)
  }

  lemma EarlyNextSpoils(s: State, s': State, c: Tid)
    requires EarlyNext(s, s', c)
    ensures !Shaped(s', c)
  {
    var t, a :| Early(s, t, a, c) && s' == Apply(s, t, a);
    if c in s'.threads && s'.threads[c].role.Connection? {
      EarlySpoils(s, t, a, c, s'.threads[c].role.url);
    } else {
      EarlySpoils(s, t, a, c, "");
    }
  }

  /** The log of a session keeps its shape throughout a run if and only if no step of the run is early
      for it. A handler that was started too soon does no harm if it finds nothing, or gets the write
      lock only after the announcement. */
  lemma StreamShapedIff(run: seq<State>, c: Tid)
    requires Run(run)
    ensures (forall i :: 0 <= i < |run| ==> Shaped(run[i], c)) <==>
      (forall i :: 0 <= i < |run| - 1 ==> !EarlyAt(run, i, c))
  {
    if forall i :: 0 <= i < |run| - 1 ==> !EarlyAt(run, i, c) {
      forall i | 0 <= i < |run| ensures Shaped(run[i], c) {
        RunStream(run, i, c);
        assert c in run[i].sessions ==> SocketStream(run[i], c);
      }
    } else {
      var i :| 0 <= i < |run| - 1 && EarlyAt(run, i, c);
      EarlyNextSpoils(run[i], run[i + 1], c);
    }
  }

  // ---- Handlers that start after the announcement are never early

  /** Message handlers are started only for sessions that have been announced. */
  predicate Polite(s: State, a: Act) {
    a.Spawn? && a.role.Handler? ==> a.role.target in s.sockets && Announced(s.sockets[a.role.target].log)
  }

  ghost predicate PoliteNext(s: State, s': State) {
    exists t, a :: Enabled(s, t, a) && Polite(s, a) && s' == Apply(s, t, a)
  }

  ghost predicate PoliteRun(run: seq<State>) {
    && run != [] && run[0] == INITIAL
    && forall i :: 0 <= i < |run| - 1 ==> PoliteNextAt(run, i)
  }

  ghost predicate PoliteNextAt(run: seq<State>, i: nat)
    requires i + 1 < |run|
  {
    PoliteNext(run[i], run[i + 1])
  }

  /** A handler's session has been announced. */
  ghost predicate KnowsSession(s: State, t: Tid)
    requires t in s.threads
  {
    var role := s.threads[t].role;
    role.Handler? ==> role.target in s.sockets && Announced(s.sockets[role.target].log)
  }

  ghost predicate AllKnow(s: State) {
    forall t :: t in s.threads ==> KnowsSession(s, t)
  }

  lemma MoveStaysAnnounced(v: View, t: Tid, x: Tid, a: Act)
    requires Allowed(v, x, a) && v.socket.Some? && Announced(v.socket.value.log)
    ensures Move(v, t, x, a).socket.Some? && Announced(Move(v, t, x, a).socket.value.log)
  {
    if a.Push? {
      LogPushed(v.socket.value.log, a.n, "");
    }
  }

  lemma StepStaysAnnounced(s: State, t: Tid, a: Act, c: Tid)
    requires Shape(s) && Enabled(s, t, a) && c in s.sockets && Announced(s.sockets[c].log)
    ensures c in Apply(s, t, a).sockets && Announced(Apply(s, t, a).sockets[c].log)
  {
    if !a.Spawn? && c == Subject(s.threads[t], t, a) {
      MoveStaysAnnounced(ViewOf(s, t, c), t, c, a);
    }
  }

  lemma StepAllKnow(s: State, t: Tid, a: Act)
    requires Shape(s) && Locks(s) && AllKnow(s) && Enabled(s, t, a) && Polite(s, a)
    ensures AllKnow(Apply(s, t, a))
  {
    if !a.Spawn? {
      ViewIsShaped(s, t, a);
      MoveKeepsRole(ViewOf(s, t, Subject(s.threads[t], t, a)), t, Subject(s.threads[t], t, a), a);
    }
    forall u | u in Apply(s, t, a).threads ensures KnowsSession(Apply(s, t, a), u) {
      var role := Apply(s, t, a).threads[u].role;
      if role.Handler? {
        assert u in s.threads ==> KnowsSession(s, u);
        StepStaysAnnounced(s, t, a, role.target);
      }
    }
  }

  lemma PoliteNextKnows(s: State, s': State)
    requires Safe(s) && AllKnow(s) && PoliteNext(s, s')
    ensures AllKnow(s') && Next(s, s')
  {
    var t, a :| Enabled(s, t, a) && Polite(s, a) && s' == Apply(s, t, a);
    StepAllKnow(s, t, a);
  }

  lemma PoliteRunIsRun(run: seq<State>)
    requires PoliteRun(run)
    ensures Run(run)
  {
    forall i | 0 <= i < |run| - 1 ensures NextAt(run, i) {
      assert PoliteNextAt(run, i);
      var t, a :| Enabled(run[i], t, a) && Polite(run[i], a) && run[i + 1] == Apply(run[i], t, a);
    }
  }

  lemma {:induction false} PoliteRunKnows(run: seq<State>, i: nat)
    requires PoliteRun(run) && i < |run|
    ensures AllKnow(run[i])
  {
    if i > 0 {
      PoliteRunIsRun(run);
      RunSafe(run, i - 1);
      PoliteRunKnows(run, i - 1);
      assert PoliteNextAt(run, i - 1);
      PoliteNextKnows(run[i - 1], run[i]);
    }
  }

  lemma PoliteIsNeverEarly(run: seq<State>, i: nat, c: Tid)
    requires PoliteRun(run) && i + 1 < |run|
    ensures Run(run) && !EarlyAt(run, i, c)
  {
    PoliteRunIsRun(run);
    PoliteRunKnows(run, i);
    forall t, a ensures !Early(run[i], t, a, c) {
      assert t in run[i].threads ==> KnowsSession(run[i], t);
    }
  }

  // ---- The wire

  function Part(r: Record): string {
    if r.sent <= |ItemText(r.item)| then ItemText(r.item)[..r.sent] else ItemText(r.item)
  }

  function Parts(log: seq<Record>): (parts: seq<string>)
    ensures |parts| == |log|
  {
    seq(|log|, i requires 0 <= i < |log| => Part(log[i]))
  }

  function Glue(parts: seq<string>): string {
    if parts == [] then "" else parts[0] + Glue(parts[1..])
  }

  /** The bytes on the wire. */
  function Bytes(log: seq<Record>): string { Glue(Parts(log)) }

  /** The packets that went out whole. */
  function Delivered(log: seq<Record>): seq<Packet> {
    if log == [] then []
    else if log[0].item.Carry? && Whole(log[0]) then [log[0].item.packet] + Delivered(log[1..])
    else Delivered(log[1..])
  }

  lemma GlueFirst(parts: seq<string>)
    requires parts != []
    ensures Glue(parts) == parts[0] + Glue(parts[1..])
    ensures |parts| == 1 ==> Glue(parts) == parts[0]
  {
    if |parts| == 1 {
      assert parts[1..] == [];
      assert parts[0] + "" == parts[0];
    }
  }

  lemma FirstPart(log: seq<Record>)
    requires log != []
    ensures Bytes(log) == Part(log[0]) + Bytes(log[1..])
    ensures |log| == 1 ==> Bytes(log) == Part(log[0])
  {
    PartsTail(log);
    GlueFirst(Parts(log));
  }

  lemma PartsTail(log: seq<Record>)
    requires log != []
    ensures Parts(log)[0] == Part(log[0]) && Parts(log)[1..] == Parts(log[1..])
  {
  }

  ghost predicate Packets(log: seq<Record>) {
    && (forall i :: 0 <= i < |log| ==> log[i].item.Carry? && Plain(log[i].item.packet))
    && (forall i :: 0 <= i < |log| ==> log[i].sent <= |ItemText(log[i].item)|)
    && (forall i :: 0 <= i < |log| - 1 ==> Whole(log[i]))
  }

  lemma PacketsTail(log: seq<Record>)
    requires Packets(log) && log != []
    ensures Packets(log[1..]) && Plain(log[0].item.packet)
    ensures !Whole(log[0]) ==> log[1..] == []
  {
    assert forall i :: 0 <= i < |log| - 1 ==> log[1..][i] == log[i + 1];
  }

  /** A packet on the wire is its text, or cut off. */
  lemma PartOfPacket(r: Record)
    requires r.item.Carry? && r.sent <= |ItemText(r.item)|
    ensures if Whole(r) then Part(r) == Text(r.item.packet) else CutOff(Part(r), r.item.packet)
  {
  }

  lemma WirePlus(packet: Packet, rest: seq<Packet>, tail: string)
    ensures Wire([packet] + rest) + tail == Text(packet) + (Wire(rest) + tail)
  {
    assert ([packet] + rest)[1..] == rest;
    Regroup(Text(packet), Wire(rest), tail);
  }

  /** The wire holds the whole packets, at least all but the last, and then, perhaps, the beginning of
      one more. */
  lemma {:induction false} BytesAreWire(log: seq<Record>) returns (tail: string, cut: Packet)
    requires Packets(log)
    ensures Plain(cut) && CutOff(tail, cut)
    ensures Bytes(log) == Wire(Delivered(log)) + tail
    decreases |log|
  {
    if log == [] {
      tail, cut := "", Ping;
      PartOfPacket(Record(Carry(Ping), 0));
    } else {
      PacketsTail(log);
      PartOfPacket(log[0]);
      FirstPart(log);
      if Whole(log[0]) {
        tail, cut := BytesAreWire(log[1..]);
        WirePlus(log[0].item.packet, Delivered(log[1..]), tail);
      } else {
        tail, cut := Part(log[0]), log[0].item.packet;
        assert Delivered(log) == [] && tail + "" == tail && "" + tail == tail;
      }
    }
  }

  lemma {:induction false} DeliveredPlain(log: seq<Record>)
    requires Packets(log)
    ensures forall i :: 0 <= i < |Delivered(log)| ==> Plain(Delivered(log)[i])
    ensures |Delivered(log)| >= |log| - 1
    decreases |log|
  {
    if log != [] {
      PacketsTail(log);
      DeliveredPlain(log[1..]);
    }
  }

  ghost predicate PlainLog(log: seq<Record>) {
    forall k :: 0 <= k < |log| && log[k].item.Carry? ==> Plain(log[k].item.packet)
  }

  /** The bytes are a beginning of the header, or the header and a body that a client reads as exactly
      the events that went out whole, in order: all that were begun but perhaps the last. */
  ghost predicate ClientSees(log: seq<Record>, url: string) {
    if |log| <= 1 then Bytes(log) <= HEADING_TEXT
    else
      && Bytes(log) == HEADING_TEXT + Bytes(log[1..])
      && Read(Bytes(log[1..])) == AllShown(Delivered(log[1..]))
      && |Delivered(log[1..])| >= |log| - 2
      && (Delivered(log[1..]) != [] ==> Delivered(log[1..])[0] == Frame("endpoint", url))
  }

  /** The header accepts the request and ends with its empty line. */
  lemma HeadingAccepts()
    ensures "HTTP/1.1 200 OK\r\n" <= HEADING_TEXT
    ensures HEADING_TEXT[|HEADING_TEXT| - 4..] == "\r\n\r\n"
  {
    var status, rest := "HTTP/1.1 200 OK\r\n", HEADING_TEXT[17..];
    assert HEADING_TEXT[..17] == status;
    assert HEADING_TEXT[|HEADING_TEXT| - 4..|HEADING_TEXT| - 2] == "\r\n";
  }

  lemma HeadingPart(r: Record)
    requires r.item.Heading?
    ensures Part(r) <= HEADING_TEXT && (Whole(r) ==> Part(r) == HEADING_TEXT)
  {
  }

  lemma EndpointFirst(log: seq<Record>, url: string)
    requires Packets(log) && log != [] && log[0].item == Carry(Frame("endpoint", url))
    ensures Delivered(log) != [] ==> Delivered(log)[0] == Frame("endpoint", url)
  {
    PacketsTail(log);
  }

  lemma BodyPackets(log: seq<Record>, url: string)
    requires LogShape(log, url) && PlainLog(log) && |log| > 1
    ensures Packets(log[1..])
  {
    assert forall i :: 0 <= i < |log| - 1 ==> log[1..][i] == log[i + 1];
  }

  lemma ShapedLogIsSeen(log: seq<Record>, url: string)
    requires LogShape(log, url) && PlainLog(log)
    ensures ClientSees(log, url)
  {
    if log != [] {
      FirstPart(log);
      HeadingPart(log[0]);
    }
    if |log| > 1 {
      BodyPackets(log, url);
      EndpointFirst(log[1..], url);
      var tail, cut := BytesAreWire(log[1..]);
      DeliveredPlain(log[1..]);
      RoundTrip(Delivered(log[1..]), tail, cut);
    }
  }

  /** On every run without an early step for a session, the client of that session reads just what was
      sent to it, after the endpoint event, as long as the data hold no line break. */
  lemma ClientSeesUnlessEarly(run: seq<State>, i: nat, c: Tid)
    requires Run(run) && i < |run| && c in run[i].sessions
    requires forall k :: 0 <= k < i ==> !EarlyAt(run, k, c)
    ensures c in run[i].sockets && c in run[i].threads && run[i].threads[c].role.Connection?
    ensures PlainLog(run[i].sockets[c].log) ==> ClientSees(run[i].sockets[c].log, run[i].threads[c].role.url)
  {
    RunStream(run, i, c);
    assert SocketStream(run[i], c);
    if PlainLog(run[i].sockets[c].log) {
      ShapedLogIsSeen(run[i].sockets[c].log, run[i].threads[c].role.url);
    }
  }

  /** So it is for every session of a run where handlers start only for announced sessions. */
  lemma StreamIntegrity(run: seq<State>, i: nat, c: Tid)
    requires PoliteRun(run) && i < |run| && c in run[i].sessions
    ensures c in run[i].sockets && c in run[i].threads && run[i].threads[c].role.Connection?
    ensures PlainLog(run[i].sockets[c].log) ==> ClientSees(run[i].sockets[c].log, run[i].threads[c].role.url)
  {
    PoliteRunIsRun(run);
    forall k | 0 <= k < i ensures !EarlyAt(run, k, c) {
      PoliteIsNeverEarly(run, k, c);
    }
    ClientSeesUnlessEarly(run, i, c);
  }

  // ---- A run with an early step

  /** A state with connection thread 0 and handler thread 1, which sends to 0. */
  function Duo(lock: Option<Tid>, session: Option<Session>, log: seq<Record>, pc0: Pc, pc1: Option<Pc>): State {
    var threads := map[0 := Thread(Connection("u"), pc0)];
    State(true, if session.Some? then {0} else {}, lock,
          if session.Some? then map[0 := session.value] else map[],
          map[0 := Socket(0, log)],
          if pc1.Some? then threads[1 := Thread(Handler(0, "d"), pc1.value)] else threads)
  }

  const NEW_SESSION := Session(true, true, 0, None)

  lemma Extend(run: seq<State>, t: Tid, a: Act) returns (longer: seq<State>)
    requires Run(run) && Enabled(run[|run| - 1], t, a)
    ensures Run(longer) && |longer| > 0 && longer[|longer| - 1] == Apply(run[|run| - 1], t, a)
  {
    longer := run + [Apply(run[|run| - 1], t, a)];
    assert Next(run[|run| - 1], Apply(run[|run| - 1], t, a));
    forall i | 0 <= i < |longer| - 1 ensures NextAt(longer, i) {
      assert i < |run| - 1 ==> NextAt(run, i);
    }
  }

  lemma ConnectionWants() returns (run: seq<State>)
    ensures Run(run) && run[|run| - 1] == Duo(None, None, [], WantStore(Create), None)
  {
    run := Extend([INITIAL], 0, Spawn(Connection("u")));
    assert run[|run| - 1] == Duo(None, None, [], Arrived, None);
    run := Extend(run, 0, Authorize(true, ""));
  }

  lemma SessionCreated() returns (run: seq<State>)
    ensures Run(run) && run[|run| - 1] == Duo(None, Some(NEW_SESSION), [], WantWrite(Header), None)
  {
    run := ConnectionWants();
    run := Extend(run, 0, LockStore(0));
    assert run[|run| - 1] == Duo(Some(0), None, [], InStore(Create, 0, {}), None);
    run := Extend(run, 0, UnlockStore(0, ""));
  }

  lemma HandlerLooksUp() returns (run: seq<State>)
    ensures Run(run) && run[|run| - 1] == Duo(None, Some(NEW_SESSION), [], WantWrite(Header), Some(Checking(Lookup)))
  {
    run := SessionCreated();
    run := Extend(run, 1, Spawn(Handler(0, "d")));
    assert run[|run| - 1] == Duo(None, Some(NEW_SESSION), [], WantWrite(Header), Some(WantStore(Lookup)));
    run := Extend(run, 1, LockStore(0));
    assert run[|run| - 1] == Duo(Some(1), Some(NEW_SESSION), [], WantWrite(Header), Some(InStore(Lookup, 0, {})));
    run := Extend(run, 1, UnlockStore(0, ""));
  }

  lemma HandlerFinds() returns (run: seq<State>)
    ensures Run(run) && run[|run| - 1] == Duo(None, Some(NEW_SESSION), [], WantWrite(Header), Some(Checking(Find)))
  {
    run := HandlerLooksUp();
    run := Extend(run, 1, Check(true));
    assert run[|run| - 1] == Duo(None, Some(NEW_SESSION), [], WantWrite(Header), Some(WantStore(Find)));
    run := Extend(run, 1, LockStore(0));
    assert run[|run| - 1] == Duo(Some(1), Some(NEW_SESSION), [], WantWrite(Header), Some(InStore(Find, 0, {})));
    run := Extend(run, 1, UnlockStore(0, ""));
  }

  lemma HandlerLocks() returns (run: seq<State>)
    ensures Run(run)
    ensures run[|run| - 1] == Duo(None, Some(NEW_SESSION.(writer := Some(1))), [], WantWrite(Header), Some(Locked(Message)))
  {
    run := HandlerFinds();
    run := Extend(run, 1, Check(true));
    assert run[|run| - 1] == Duo(None, Some(NEW_SESSION), [], WantWrite(Header), Some(WantWrite(Message)));
    run := Extend(run, 1, LockWrite);
  }

  lemma HandlerSends() returns (run: seq<State>)
    ensures Run(run)
    ensures run[|run| - 1] == Duo(None, Some(NEW_SESSION.(writer := Some(1))),
                                  [Record(Carry(Frame("message", "d")), 0)], WantWrite(Header), Some(Writing(Message)))
  {
    run := HandlerLocks();
    run := Extend(run, 1, Begin);
    assert [] + [Record(Carry(Frame("message", "d")), 0)] == [Record(Carry(Frame("message", "d")), 0)];
  }

  /** A handler that uses a session before it is announced can get its frame onto the wire ahead of the
      response header, and the client sees no event stream. */
  lemma UnannouncedSessionSpoilsStream() returns (run: seq<State>)
    ensures Run(run) && 0 in run[|run| - 1].sockets
    ensures PlainLog(run[|run| - 1].sockets[0].log) && !ClientSees(run[|run| - 1].sockets[0].log, "u")
  {
    var frame := Carry(Frame("message", "d"));
    var held := NEW_SESSION.(writer := Some(1));
    run := HandlerSends();
    run := Extend(run, 1, Push(1));
    assert [Record(frame, 0)][0 := Record(frame, 1)] == [Record(frame, 1)];
    assert run[|run| - 1] == Duo(None, Some(held), [Record(frame, 1)], WantWrite(Header), Some(Writing(Message)));
    FrameIsNoHeading(frame);
  }

  lemma FrameIsNoHeading(item: Item)
    requires item == Carry(Frame("message", "d"))
    ensures !ClientSees([Record(item, 1)], "u")
  {
    var log := [Record(item, 1)];
    FirstPart(log);
    assert Bytes(log)[0] == 'e' && HEADING_TEXT[0] == 'H';
  }
}
