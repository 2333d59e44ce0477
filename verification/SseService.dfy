/** What the threads of `SseProtocol` are for: left alone, a connection is opened and announced, pinged,
    and handed its messages whole; and none of that happens for a session that is dead. */
module SseService {
  import opened Common
  import opened SseFrames
  import opened SseProtocol
  import opened SseSweeps
  import opened SseShutdown
  import SseStore

  // ---- Joining schedules

  lemma {:induction false} PlaysAppend(s: State, a: seq<(Tid, Act)>, b: seq<(Tid, Act)>)
    requires Plays(s, a) && Plays(End(s, a), b)
    ensures Plays(s, a + b) && End(s, a + b) == End(End(s, a), b)
    decreases |a|
  {
    if a == [] {
      assert a + b == b;
    } else {
      assert (a + b)[1..] == a[1..] + b;
      PlaysAppend(Apply(s, a[0].0, a[0].1), a[1..], b);
    }
  }

  /** Steps of thread `t` alone on session `x` lead from `s` to the view `v` of it. */
  ghost predicate Reaches(s: State, steps: seq<(Tid, Act)>, t: Tid, x: Tid, v: View) {
    && t in s.threads && Plays(s, steps) && End(s, steps) == With(s, t, x, v)
    && (x in s.sessions ==> v.session.Some?) && (x in s.sockets ==> v.socket.Some?)
    && Alone(steps, t)
  }

  predicate Alone(steps: seq<(Tid, Act)>, t: Tid) { forall i :: 0 <= i < |steps| ==> steps[i].0 == t }

  lemma ReachesStart(s: State, t: Tid, x: Tid)
    requires t in s.threads
    ensures Reaches(s, [], t, x, ViewOf(s, t, x))
  {
    assert s.threads[t := s.threads[t]] == s.threads;
    assert x in s.sessions ==> s.sessions[x := s.sessions[x]] == s.sessions;
    assert x in s.sockets ==> s.sockets[x := s.sockets[x]] == s.sockets;
  }

  lemma WithTwice(s: State, t: Tid, x: Tid, v: View, v': View)
    requires t in s.threads
    requires (x in s.sessions ==> v.session.Some?) && (x in s.sockets ==> v.socket.Some?)
    requires (v.session.Some? ==> v'.session.Some?) && (v.socket.Some? ==> v'.socket.Some?)
    ensures ViewOf(With(s, t, x, v), t, x) == v
    ensures With(With(s, t, x, v), t, x, v') == With(s, t, x, v')
  {
    assert Put(Put(s.sessions, x, v.session), x, v'.session) == Put(s.sessions, x, v'.session);
    assert Put(Put(s.sockets, x, v.socket), x, v'.socket) == Put(s.sockets, x, v'.socket);
    assert s.threads[t := v.thread][t := v'.thread] == s.threads[t := v'.thread];
  }

  lemma MoveKeepsParts(v: View, t: Tid, x: Tid, a: Act)
    requires Allowed(v, x, a)
    ensures v.session.Some? ==> Move(v, t, x, a).session.Some?
    ensures v.socket.Some? ==> Move(v, t, x, a).socket.Some?
  {
  }

  lemma StepOn(s: State, steps: seq<(Tid, Act)>, t: Tid, x: Tid, v: View, a: Act) returns (longer: seq<(Tid, Act)>)
    requires Reaches(s, steps, t, x, v) && !a.Spawn? && Subject(v.thread, t, a) == x && Allowed(v, x, a)
    ensures longer == steps + [(t, a)] && Reaches(s, longer, t, x, Move(v, t, x, a))
  {
    longer := steps + [(t, a)];
    MoveKeepsParts(v, t, x, a);
    WithTwice(s, t, x, v, Move(v, t, x, a));
    var here := With(s, t, x, v);
    assert Enabled(here, t, a) && Apply(here, t, a) == With(s, t, x, Move(v, t, x, a));
    assert [(t, a)][1..] == [];
    assert Plays(here, [(t, a)]) && End(here, [(t, a)]) == Apply(here, t, a);
    PlaysAppend(s, steps, [(t, a)]);
  }

  // ---- One write, from the wait for the lock to its end

  function Written(v: View, what: What): View
    requires v.socket.Some?
  {
    var item := if what.Header? then Heading else ItemFor(v.thread.role, what);
    var k := v.socket.value;
    Goto(v.(socket := Some(k.(log := k.log + [Record(item, |ItemText(item)|)]))), AfterWrite(v.thread.role, what, true))
  }

  /** A thread that may write, to a session that is there to be written to. */
  predicate MayWrite(v: View, what: What) {
    && v.thread.pc == WantWrite(what) && !what.Shut? && !v.thread.role.Stopper?
    && v.session.Some? && v.session.value.open && v.session.value.writer.None?
    && v.socket.Some? && v.socket.value.closed == 0
  }

  lemma ItemHasText(role: Role, what: What)
    ensures |ItemText(ItemFor(role, what))| > 0 && |ItemText(Heading)| > 0
  {
  }

  /** The first two steps: the lock is taken and the write begun. */
  lemma Begun(v: View, t: Tid, x: Tid, what: What) returns (u: View, w: View)
    requires MayWrite(v, what)
    ensures Allowed(v, x, LockWrite) && u == Move(v, t, x, LockWrite) && u.thread.role == v.thread.role
    ensures u.thread.pc == Locked(what)
    ensures Allowed(u, x, Begin) && w == Move(u, t, x, Begin)
    ensures w == Goto(Append(SetWriter(v, Some(t)), if what.Header? then Heading else ItemFor(v.thread.role, what)), Writing(what))
  {
    u := Move(v, t, x, LockWrite);
    w := Move(u, t, x, Begin);
  }

  /** The other three: all of it is written and the lock given back. */
  lemma Ended(v: View, t: Tid, x: Tid, what: What, w: View, item: Item) returns (n: nat, p: View, q: View)
    requires MayWrite(v, what) && item == if what.Header? then Heading else ItemFor(v.thread.role, what)
    requires w == Goto(Append(SetWriter(v, Some(t)), item), Writing(what))
    ensures n > 0 && Allowed(w, x, Push(n)) && p == Move(w, t, x, Push(n)) && p.thread == w.thread
    ensures Allowed(p, x, Done) && q == Move(p, t, x, Done) && q.thread == w.thread.(pc := Leaving(what, true))
    ensures Allowed(q, x, Unlock) && Move(q, t, x, Unlock) == Written(v, what)
  {
    ItemHasText(v.thread.role, what);
    n := |ItemText(item)|;
    assert Last(w.socket.value) == Record(item, 0);
    p := Move(w, t, x, Push(n));
    assert p.socket.value.log == v.socket.value.log + [Record(item, n)];
    q := Move(p, t, x, Done);
    assert v.session.value == v.session.value.(writer := None);
  }

  /** Left alone, a thread that wants to write gets its header, frame or ping out whole. */
  lemma WriteWhole(s: State, steps: seq<(Tid, Act)>, t: Tid, x: Tid, v: View, what: What) returns (longer: seq<(Tid, Act)>)
    requires Reaches(s, steps, t, x, v) && MayWrite(v, what) && Target(v.thread, t) == x
    ensures Reaches(s, longer, t, x, Written(v, what))
  {
    var u, w := Begun(v, t, x, what);
    longer := StepOn(s, steps, t, x, v, LockWrite);
    longer := StepOn(s, longer, t, x, u, Begin);
    var item := if what.Header? then Heading else ItemFor(v.thread.role, what);
    var n, p, q := Ended(v, t, x, what, w, item);
    longer := StepOn(s, longer, t, x, w, Push(n));
    longer := StepOn(s, longer, t, x, p, Done);
    longer := StepOn(s, longer, t, x, q, Unlock);
  }

  /** A look into the store that finds the session, and finds it alive. */
  lemma LookUp(s: State, steps: seq<(Tid, Act)>, t: Tid, x: Tid, v: View, job: Job) returns (longer: seq<(Tid, Act)>)
    requires Reaches(s, steps, t, x, v) && Target(v.thread, t) == x && (job.Lookup? || job.Find?)
    requires v.thread.pc == WantStore(job) && v.lock.None? && x in v.store && v.session.Some? && v.session.value.alive
    ensures Reaches(s, longer, t, x, Goto(v, if job.Lookup? then WantStore(Find) else WantWrite(Message)))
  {
    var u := Move(v, t, x, LockStore(0));
    longer := StepOn(s, steps, t, x, v, LockStore(0));
    var w := Move(u, t, x, UnlockStore(0, ""));
    longer := StepOn(s, longer, t, x, u, UnlockStore(0, ""));
    assert w == Goto(v, Checking(job));
    longer := StepOn(s, longer, t, x, w, Check(true));
  }

  // ---- The service

  /** The log of `c` after one more whole record, everything else as it was, `t` at `pc`. */
  ghost predicate Added(s: State, s': State, t: Tid, c: Tid, item: Item, pc: Pc)
    requires t in s.threads && c in s.sockets
  {
    && s'.threads == s.threads[t := s.threads[t].(pc := pc)] && s'.sessions == s.sessions
    && s'.sockets == s.sockets[c := s.sockets[c].(log := s.sockets[c].log + [Record(item, |ItemText(item)|)])]
    && s'.store == s.store && s'.lock == s.lock && s'.running == s.running
  }

  /** Nobody is in the way: the locks are free and the session is in the store, alive and open. */
  ghost predicate Ready(s: State, c: Tid) {
    && s.lock.None? && c in s.store && c in s.sessions && c in s.sockets
    && s.sessions[c].alive && s.sessions[c].open && s.sessions[c].writer.None? && s.sockets[c].closed == 0
  }

  /** A message is delivered: a handler for a session that is ready can go, by its own steps alone, from
      its beginning to its return, and leaves its frame whole as the last thing written. */
  lemma MessageDelivered(s: State, t: Tid) returns (steps: seq<(Tid, Act)>)
    requires t in s.threads && s.threads[t].role.Handler? && s.threads[t].pc == WantStore(Lookup)
    requires Ready(s, s.threads[t].role.target)
    ensures Alone(steps, t) && Plays(s, steps)
    ensures Added(s, End(s, steps), t, s.threads[t].role.target, Carry(Frame("message", s.threads[t].role.data)), Returned)
  {
    var c := s.threads[t].role.target;
    var v := ViewOf(s, t, c);
    ReachesStart(s, t, c);
    steps := LookUp(s, [], t, c, v, Lookup);
    steps := LookUp(s, steps, t, c, Goto(v, WantStore(Find)), Find);
    var w := Goto(v, WantWrite(Message));
    steps := WriteWhole(s, steps, t, c, w, Message);
    assert s.sessions[c := s.sessions[c]] == s.sessions;
  }

  /** A connection whose session is ready can ping and go on waiting. */
  lemma PingSent(s: State, t: Tid) returns (steps: seq<(Tid, Act)>)
    requires t in s.threads && s.threads[t].role.Connection? && s.threads[t].pc == Looping
    requires Ready(s, t) && s.running
    ensures Alone(steps, t) && Plays(s, steps)
    ensures Added(s, End(s, steps), t, t, Carry(Ping), Looping)
  {
    var v := ViewOf(s, t, t);
    ReachesStart(s, t, t);
    steps := StepOn(s, [], t, t, v, Loop);
    steps := WriteWhole(s, steps, t, t, Goto(v, WantWrite(Pulse)), Pulse);
    assert s.sessions[t := s.sessions[t]] == s.sessions;
  }

  // ---- Opening a connection

  /** The state with thread `t` at another point. */
  function At(s: State, t: Tid, pc: Pc): State
    requires t in s.threads
  {
    s.(threads := s.threads[t := s.threads[t].(pc := pc)])
  }

  ghost predicate Fit(s: State, now: Tick, c: Tid) {
    c in s.sessions && s.sessions[c].alive && SseStore.Age(now, s.sessions[c].createdAt) <= 3600000
  }

  lemma SweepPast(s: State, t: Tid, now: Tick, todo: set<Tid>, c: Tid)
    requires t in s.threads && s.threads[t].pc == InStore(Create, now, todo) && c in todo && Fit(s, now, c)
    ensures Enabled(s, t, Examine(c)) && Apply(s, t, Examine(c)) == At(s, t, InStore(Create, now, todo - {c}))
  {
    var v := ViewOf(s, t, c);
    assert Move(v, t, c, Examine(c)) == Goto(v, InStore(Create, now, todo - {c}));
    assert s.sessions[c := s.sessions[c]] == s.sessions;
    assert c in s.sockets ==> s.sockets[c := s.sockets[c]] == s.sockets;
  }

  /** A sweep over sessions that are all alive and young drops none. */
  lemma {:induction false} SweepsPast(s: State, t: Tid, now: Tick, todo: set<Tid>) returns (steps: seq<(Tid, Act)>)
    requires t in s.threads && s.threads[t].pc == InStore(Create, now, todo)
    requires forall c :: c in todo ==> Fit(s, now, c)
    ensures Alone(steps, t) && Plays(s, steps) && End(s, steps) == At(s, t, InStore(Create, now, {}))
    decreases |todo|
  {
    if todo == {} {
      steps := [];
      assert s.threads[t := s.threads[t]] == s.threads;
    } else {
      var c :| c in todo;
      SweepPast(s, t, now, todo, c);
      var s' := At(s, t, InStore(Create, now, todo - {c}));
      var rest := SweepsPast(s', t, now, todo - {c});
      steps := [(t, Examine(c))] + rest;
      assert steps[1..] == rest;
      assert At(s', t, InStore(Create, now, {})) == At(s, t, InStore(Create, now, {}));
    }
  }

  /** The views on the way: filed, greeted with the header, announced. */
  lemma Announcing(v: View, t: Tid, tick: Tick) returns (filed: View, greeted: View, announced: View)
    requires Allowed(v, t, UnlockStore(tick, "")) && v.thread.role.Connection?
    requires v.thread.pc.InStore? && v.thread.pc.job.Create? && |v.store| < 16 && v.socket == Some(Socket(0, []))
    ensures filed == Move(v, t, t, UnlockStore(tick, "")) && MayWrite(filed, Header)
    ensures greeted == Written(filed, Header) && greeted.thread == v.thread.(pc := WantStore(Find))
    ensures greeted.lock.None? && t in greeted.store && greeted.session == Some(Session(true, true, tick, None))
    ensures MayWrite(Goto(greeted, WantWrite(Message)), Message)
    ensures announced == Written(Goto(greeted, WantWrite(Message)), Message)
    ensures var endpoint := Carry(Frame("endpoint", v.thread.role.url));
      announced == View(v.running, v.store + {t}, None, v.thread.(pc := Looping), Some(Session(true, true, tick, None)),
        Some(Socket(0, [Record(Heading, |HEADING_TEXT|), Record(endpoint, |ItemText(endpoint)|)])))
  {
    filed := Move(v, t, t, UnlockStore(tick, ""));
    greeted := Written(filed, Header);
    announced := Written(Goto(greeted, WantWrite(Message)), Message);
    var endpoint := Carry(Frame("endpoint", v.thread.role.url));
    assert greeted.socket.value.log == [Record(Heading, |HEADING_TEXT|)];
    assert announced.socket.value.log == [Record(Heading, |HEADING_TEXT|), Record(endpoint, |ItemText(endpoint)|)];
  }

  /** From inside the store with nothing left to sweep: the session is filed, the header written, the
      endpoint announced. */
  lemma FiledAndAnnounced(s: State, t: Tid, now: Tick, tick: Tick) returns (steps: seq<(Tid, Act)>)
    requires t in s.threads && s.threads[t].role.Connection? && s.threads[t].pc == InStore(Create, now, {})
    requires |s.store| < 16 && t in s.sockets && s.sockets[t] == Socket(0, [])
    ensures Alone(steps, t) && Plays(s, steps)
    ensures Opened(s, End(s, steps), t, tick)
  {
    var v := ViewOf(s, t, t);
    ReachesStart(s, t, t);
    var filed, greeted, announced := Announcing(v, t, tick);
    steps := StepOn(s, [], t, t, v, UnlockStore(tick, ""));
    steps := WriteWhole(s, steps, t, t, filed, Header);
    steps := LookUp(s, steps, t, t, greeted, Find);
    steps := WriteWhole(s, steps, t, t, Goto(greeted, WantWrite(Message)), Message);
  }

  /** A new session is in the store, alive and open, and its client has the header and the endpoint. */
  ghost predicate Opened(s: State, s': State, t: Tid, tick: Tick)
    requires t in s.threads && s.threads[t].role.Connection?
  {
    var endpoint := Carry(Frame("endpoint", s.threads[t].role.url));
    && s'.lock.None? && s'.store == s.store + {t} && s'.running == s.running
    && s'.threads == s.threads[t := s.threads[t].(pc := Looping)]
    && s'.sessions == s.sessions[t := Session(true, true, tick, None)]
    && s'.sockets == s.sockets[t := Socket(0, [Record(Heading, |HEADING_TEXT|), Record(endpoint, |ItemText(endpoint)|)])]
  }

  /** The first two steps lead into the store, with all of it to be swept. */
  lemma EntersStore(s: State, t: Tid, now: Tick) returns (steps: seq<(Tid, Act)>, inside: State)
    requires t in s.threads && s.threads[t].role.Connection? && s.threads[t].pc == Arrived
    requires s.lock.None? && t in s.sockets && t !in s.sessions
    ensures Alone(steps, t) && Plays(s, steps) && inside == End(s, steps)
    ensures inside == At(s, t, InStore(Create, now, s.store)).(lock := Some(t))
  {
    var v := ViewOf(s, t, t);
    ReachesStart(s, t, t);
    steps := StepOn(s, [], t, t, v, Authorize(true, ""));
    steps := StepOn(s, steps, t, t, Goto(v, WantStore(Create)), LockStore(now));
    inside := End(s, steps);
    assert s.sockets[t := s.sockets[t]] == s.sockets;
  }

  /** Opening only looks at the thread's role and at what it does not change itself. */
  lemma OpenedFrom(s: State, swept: State, s': State, t: Tid, tick: Tick, pc: Pc)
    requires t in s.threads && s.threads[t].role.Connection?
    requires swept == At(s, t, pc).(lock := Some(t)) && Opened(swept, s', t, tick)
    ensures Opened(s, s', t, tick)
  {
  }

  lemma SweptInside(s: State, t: Tid, now: Tick, inside: State, todo: set<Tid>)
    requires t in s.threads && inside == At(s, t, InStore(Create, now, todo)).(lock := Some(t))
    ensures At(inside, t, InStore(Create, now, {})) == At(s, t, InStore(Create, now, {})).(lock := Some(t))
  {
  }

  /** A connection is served: with the store lock free, fewer than sixteen sessions and none of them
      stale, an authorized connection can go by its own steps alone from its arrival to its first wait. */
  lemma ConnectionServed(s: State, t: Tid, now: Tick, tick: Tick) returns (steps: seq<(Tid, Act)>)
    requires t in s.threads && s.threads[t].role.Connection? && s.threads[t].pc == Arrived
    requires s.lock.None? && |s.store| < 16 && t in s.sockets && s.sockets[t] == Socket(0, []) && t !in s.sessions
    requires forall c :: c in s.store ==> Fit(s, now, c)
    ensures Alone(steps, t) && Plays(s, steps) && Opened(s, End(s, steps), t, tick)
  {
    var first, inside := EntersStore(s, t, now);
    forall c | c in s.store ensures Fit(inside, now, c) {
      assert Fit(s, now, c);
    }
    var sweep := SweepsPast(inside, t, now, s.store);
    SweptInside(s, t, now, inside, s.store);
    var swept := At(inside, t, InStore(Create, now, {}));
    PlaysAppend(s, first, sweep);
    var rest := FiledAndAnnounced(swept, t, now, tick);
    PlaysAppend(s, first + sweep, rest);
    OpenedFrom(s, swept, End(swept, rest), t, tick, InStore(Create, now, {}));
    steps := first + sweep + rest;
  }

  // ---- Only the living are served

  /** A look at a session leads on to a write, or from the first lookup to the second, only if the
      session is alive, and a loop goes on only while the server runs: otherwise the thread is on its
      way out. */
  lemma GoesOnOnlyAlive(v: View, t: Tid, x: Tid, a: Act)
    requires Allowed(v, x, a) && (a.Check? || a.Loop?) && Typed(v.thread)
    ensures var pc := Move(v, t, x, a).thread.pc;
      && (pc.WantWrite? || pc == WantStore(Find) || pc == Returned || pc == WantStore(Remove))
      && (v.thread.pc == Looping ==> (pc == WantWrite(Pulse) <==> v.running && v.session.value.alive))
      && (v.thread.pc == Checking(Find) ==> (pc == WantWrite(Message) <==> v.session.value.alive))
      && (v.thread.pc == Checking(Lookup) ==> (pc == WantStore(Find) ==> v.session.value.alive))
      && (!v.session.value.alive ==> pc == Returned || pc == WantStore(Remove))
  {
  }

  // ---- A failed send ends a session

  ghost predicate FailedDead(s: State, t: Tid)
    requires t in s.threads
  {
    var pc, c := s.threads[t].pc, Target(s.threads[t], t);
    pc.Leaving? && !pc.ok && !pc.what.Header? ==> c in s.sessions && !s.sessions[c].alive && !s.sessions[c].open
  }

  predicate FailedView(v: View) {
    v.thread.pc.Leaving? && !v.thread.pc.ok && !v.thread.pc.what.Header? ==>
      v.session.Some? && !v.session.value.alive && !v.session.value.open
  }

  lemma MoveFails(v: View, t: Tid, x: Tid, a: Act)
    requires Allowed(v, x, a)
    ensures FailedView(Move(v, t, x, a))
  {
  }

  lemma OwnFails(s: State, t: Tid, a: Act)
    requires t in s.threads && Enabled(s, t, a) && !a.Spawn?
    ensures FailedDead(Apply(s, t, a), t)
  {
    var x := Subject(s.threads[t], t, a);
    MoveFails(ViewOf(s, t, x), t, x, a);
    StaysOnTarget(ViewOf(s, t, x), t, x, a);
  }

  lemma OtherFails(s: State, t: Tid, x: Tid, v': View, u: Tid)
    requires t in s.threads && u in s.threads && u != t && FailedDead(s, u)
    requires GrowsOlder(ViewOf(s, t, x).session, v'.session)
    ensures FailedDead(With(s, t, x, v'), u)
  {
  }

  lemma SpawnFails(s: State, t: Tid, role: Role, u: Tid)
    requires t !in s.threads && u in Spawned(s, t, role).threads && (u in s.threads ==> FailedDead(s, u))
    ensures FailedDead(Spawned(s, t, role), u)
  {
  }

  lemma StepFails(s: State, t: Tid, a: Act, u: Tid)
    requires Safe(s) && Enabled(s, t, a) && u in Apply(s, t, a).threads
    requires u in s.threads ==> FailedDead(s, u)
    ensures FailedDead(Apply(s, t, a), u)
  {
    if a.Spawn? {
      SpawnFails(s, t, a.role, u);
    } else if u == t {
      OwnFails(s, t, a);
    } else {
      var x := Subject(s.threads[t], t, a);
      ViewIsShaped(s, t, a);
      MoveGrowsOlder(ViewOf(s, t, x), t, x, a);
      OtherFails(s, t, x, Move(ViewOf(s, t, x), t, x, a), u);
    }
  }

  lemma NextFails(s: State, s': State, u: Tid)
    requires Safe(s) && Next(s, s') && u in s'.threads
    requires u in s.threads ==> FailedDead(s, u)
    ensures FailedDead(s', u)
  {
    var t, a :| Enabled(s, t, a) && s' == Apply(s, t, a);
    StepFails(s, t, a, u);
  }

  /** In every reachable state, a sender about to report failure, except of the header, has left the
      session dead and its socket given up. */
  lemma {:induction false} FailedSendKills(run: seq<State>, i: nat, t: Tid)
    requires Run(run) && i < |run| && t in run[i].threads
    ensures FailedDead(run[i], t)
  {
    if i > 0 {
      assert NextAt(run, i - 1);
      RunSafe(run, i - 1);
      if t in run[i - 1].threads { FailedSendKills(run, i - 1, t); }
      NextFails(run[i - 1], run[i], t);
    }
  }
}
