/** What the sweeps of the session store do in the midst of the other threads: which sessions leave the
    store, what a full store means, and what a shutdown leaves behind. */
module SseSweeps {
  import opened Common
  import opened SseProtocol
  import SseStore

  // ---- Sessions only grow older

  /** No step brings a session back to life, reopens its socket or changes its age. */
  predicate GrowsOlder(before: Option<Session>, after: Option<Session>) {
    before.Some? ==>
      && after.Some? && after.value.createdAt == before.value.createdAt
      && (after.value.alive ==> before.value.alive) && (after.value.open ==> before.value.open)
  }

  lemma MoveGrowsOlder(v: View, t: Tid, x: Tid, a: Act)
    requires Allowed(v, x, a) && ViewShape(v, t, x) && x == Subject(v.thread, t, a)
    ensures GrowsOlder(v.session, Move(v, t, x, a).session)
  {
  }

  /** A session is marked dead by shutdown, by the sweep of a new connection if it is more than an hour
      old, or by a sender that failed or found its socket closed. */
  lemma MarkedDead(v: View, t: Tid, x: Tid, a: Act)
    requires Allowed(v, x, a) && ViewShape(v, t, x) && x == Subject(v.thread, t, a)
    requires v.session.Some? && v.session.value.alive && !Move(v, t, x, a).session.value.alive
    ensures a.Examine? || a.Fail? || (a.Begin? && !v.session.value.open)
    ensures a.Examine? ==>
      && v.thread.pc.InStore?
      && (v.thread.pc.job.Clear? || SseStore.Age(v.thread.pc.now, v.session.value.createdAt) > 3600000)
  {
  }

  // ---- What a sweep has established so far

  ghost predicate Young(s: State, now: Tick, c: Tid) {
    c in s.sessions && SseStore.Age(now, s.sessions[c].createdAt) <= 3600000
  }

  ghost predicate Gone(s: State, c: Tid) {
    c in s.sessions && !s.sessions[c].alive && !s.sessions[c].open
  }

  predicate HasVictim(pc: Pc) { pc.WantVictim? || pc.WithVictim? }

  /** A session in the store that the sweep is done with: young enough to stay, or dead and closed. */
  ghost predicate Settled(s: State, pc: Pc, c: Tid)
    requires HoldsStore(pc)
  {
    c in s.store && c !in pc.todo ==> if pc.job.Create? then Young(s, pc.now, c) else Gone(s, c)
  }

  ghost predicate Sweeping(s: State, t: Tid)
    requires t in s.threads
  {
    var pc := s.threads[t].pc;
    && (HoldsStore(pc) && Sweeps(pc.job) ==> forall c :: Settled(s, pc, c))
    && (HasVictim(pc) ==> Sweeps(pc.job) && pc.victim in s.sessions && !s.sessions[pc.victim].alive)
  }

  ghost predicate AllSweeping(s: State) {
    forall t :: t in s.threads ==> Sweeping(s, t)
  }

  /** Another thread's step leaves the store alone, since this one holds its lock. */
  lemma OtherSweeping(s: State, t: Tid, x: Tid, v': View, u: Tid)
    requires Shape(s) && Locks(s) && t in s.threads && u in s.threads && u != t && Sweeping(s, u)
    requires KeepsStore(ViewOf(s, t, x), x, v') && KeepsRole(ViewOf(s, t, x), t, x, v')
    requires GrowsOlder(ViewOf(s, t, x).session, v'.session)
    ensures Sweeping(With(s, t, x, v'), u)
  {
    var s', pc := With(s, t, x, v'), s.threads[u].pc;
    if HoldsStore(pc) {
      assert s'.store == s.store;
      if Sweeps(pc.job) {
        forall c ensures Settled(s', pc, c) {
          assert Settled(s, pc, c);
        }
      }
    }
  }

  /** What the thread that steps knows of its own sweep, apart from the session in hand. */
  predicate SweepMove(v: View, x: Tid, v': View) {
    var pc, pc' := v.thread.pc, v'.thread.pc;
    HoldsStore(pc') && Sweeps(pc'.job) ==>
      if HoldsStore(pc) then
        && pc'.job == pc.job && pc'.now == pc.now
        && (v'.store == v.store || v'.store == v.store - {x}) && (pc'.todo == pc.todo || pc'.todo == pc.todo - {x})
        && (x in v'.store && x !in pc'.todo ==> x !in pc.todo || SettledView(v', pc'))
      else pc'.todo == v'.store
  }

  predicate SettledView(v: View, pc: Pc)
    requires HoldsStore(pc)
  {
    v.session.Some? && if pc.job.Create? then SseStore.Age(pc.now, v.session.value.createdAt) <= 3600000
                       else !v.session.value.alive && !v.session.value.open
  }

  predicate VictimDead(v: View) {
    HasVictim(v.thread.pc) ==> Sweeps(v.thread.pc.job) && v.session.Some? && !v.session.value.alive
  }

  lemma MoveSweeps(v: View, t: Tid, x: Tid, a: Act)
    requires Allowed(v, x, a) && ViewShape(v, t, x) && x == Subject(v.thread, t, a) && VictimDead(v)
    ensures SweepMove(v, x, Move(v, t, x, a)) && VictimDead(Move(v, t, x, a))
    ensures HasVictim(Move(v, t, x, a).thread.pc) ==> Move(v, t, x, a).thread.pc.victim == x
  {
  }

  lemma OwnSweeping(s: State, t: Tid, x: Tid, v': View)
    requires Shape(s) && t in s.threads && Sweeping(s, t)
    requires KeepsRole(ViewOf(s, t, x), t, x, v') && GrowsOlder(ViewOf(s, t, x).session, v'.session)
    requires SweepMove(ViewOf(s, t, x), x, v') && VictimDead(v')
    requires HasVictim(v'.thread.pc) ==> v'.thread.pc.victim == x
    ensures Sweeping(With(s, t, x, v'), t)
  {
    var s', pc, pc' := With(s, t, x, v'), s.threads[t].pc, v'.thread.pc;
    if HoldsStore(pc') && Sweeps(pc'.job) {
      forall c ensures Settled(s', pc', c) {
        if HoldsStore(pc) {
          assert Settled(s, pc, c);
        }
      }
    }
  }

  lemma SpawnSweeping(s: State, t: Tid, role: Role)
    requires Shape(s) && AllSweeping(s) && t !in s.threads
    ensures AllSweeping(Spawned(s, t, role))
  {
    var s' := Spawned(s, t, role);
    forall u | u in s'.threads ensures Sweeping(s', u) {
      if u != t {
        assert Sweeping(s, u);
        var pc := s.threads[u].pc;
        if HoldsStore(pc) && Sweeps(pc.job) {
          forall c ensures Settled(s', pc, c) {
            assert Settled(s, pc, c);
          }
        }
      }
    }
  }

  lemma StepSweeping(s: State, t: Tid, a: Act)
    requires Shape(s) && Locks(s) && AllSweeping(s) && Enabled(s, t, a)
    ensures AllSweeping(Apply(s, t, a))
  {
    if a.Spawn? {
      SpawnSweeping(s, t, a.role);
    } else {
      var x := Subject(s.threads[t], t, a);
      var v := ViewOf(s, t, x);
      var v' := Move(v, t, x, a);
      assert Sweeping(s, t);
      ViewIsShaped(s, t, a);
      MoveKeepsStore(v, t, x, a);
      MoveKeepsRole(v, t, x, a);
      MoveGrowsOlder(v, t, x, a);
      MoveSweeps(v, t, x, a);
      forall u | u in With(s, t, x, v').threads ensures Sweeping(With(s, t, x, v'), u) {
        if u == t { OwnSweeping(s, t, x, v'); } else { OtherSweeping(s, t, x, v', u); }
      }
    }
  }

  lemma {:induction false} RunSweeping(run: seq<State>, i: nat)
    requires Run(run) && i < |run|
    ensures AllSweeping(run[i])
  {
    if i > 0 {
      RunSweeping(run, i - 1);
      RunSafe(run, i - 1);
      assert NextAt(run, i - 1);
      NextSweeping(run[i - 1], run[i]);
    }
  }

  lemma NextSweeping(s: State, s': State)
    requires Safe(s) && AllSweeping(s) && Next(s, s')
    ensures AllSweeping(s')
  {
    var t, a :| Enabled(s, t, a) && s' == Apply(s, t, a);
    StepSweeping(s, t, a);
  }

  // ---- What a sweep comes to

  lemma SweptYoung(run: seq<State>, i: nat, t: Tid)
    requires Run(run) && i < |run| && t in run[i].threads
    requires run[i].threads[t].pc.InStore? && run[i].threads[t].pc.job.Create? && run[i].threads[t].pc.todo == {}
    ensures forall c :: c in run[i].store ==> Young(run[i], run[i].threads[t].pc.now, c)
  {
    RunSweeping(run, i);
    assert Sweeping(run[i], t);
    forall c | c in run[i].store ensures Young(run[i], run[i].threads[t].pc.now, c) {
      assert Settled(run[i], run[i].threads[t].pc, c);
    }
  }

  lemma CreateLeaves(v: View, t: Tid, tick: Tick, reply: string) returns (v': View)
    requires Allowed(v, t, UnlockStore(tick, reply)) && v.thread.pc.job.Create?
    ensures v' == Move(v, t, t, UnlockStore(tick, reply))
    ensures v'.thread.pc.Replying? <==> |v.store| >= 16
    ensures v'.thread.pc.Replying? ==> v'.store == v.store && v'.session == v.session
    ensures !v'.thread.pc.Replying? ==> v'.store == v.store + {t} && v'.session == Some(Session(true, true, tick, None))
  {
    v' := Move(v, t, t, UnlockStore(tick, reply));
  }

  lemma CreateStep(s: State, t: Tid, tick: Tick, reply: string) returns (s': State)
    requires Shape(s) && Enabled(s, t, UnlockStore(tick, reply)) && s.threads[t].pc.job.Create?
    ensures s' == Apply(s, t, UnlockStore(tick, reply)) && t in s'.threads
    ensures s'.threads[t].pc.Replying? <==> |s.store| >= 16
    ensures s'.threads[t].pc.Replying? ==> s'.store == s.store && s'.sessions == s.sessions
    ensures !s'.threads[t].pc.Replying? ==>
      s'.store == s.store + {t} && s'.sessions == s.sessions[t := Session(true, true, tick, None)]
  {
    assert Typed(s.threads[t]) by { assert ThreadShape(s, t); }
    assert !s.threads[t].role.Handler?;
    var v' := CreateLeaves(ViewOf(s, t, t), t, tick, reply);
    s' := With(s, t, t, v');
  }

  /** When the sweep of a new connection ends, whatever is still in the store was at most an hour old by
      the tick it read. The connection is refused if and only if that is sixteen sessions or more;
      else its own is added, open and alive, and nothing leaves. */
  lemma CreateDecides(run: seq<State>, i: nat, t: Tid, tick: Tick, reply: string)
    requires Run(run) && i < |run| && Enabled(run[i], t, UnlockStore(tick, reply))
    requires run[i].threads[t].pc.job.Create?
    ensures forall c :: c in run[i].store ==> Young(run[i], run[i].threads[t].pc.now, c)
    ensures var s, s' := run[i], Apply(run[i], t, UnlockStore(tick, reply));
      && (s'.threads[t].pc.Replying? <==> |s.store| >= 16)
      && (s'.threads[t].pc.Replying? ==> s'.store == s.store && s'.sessions == s.sessions)
      && (!s'.threads[t].pc.Replying? ==>
          s'.store == s.store + {t} && s'.sessions == s.sessions[t := Session(true, true, tick, None)])
  {
    RunSafe(run, i);
    SweptYoung(run, i, t);
    var after := CreateStep(run[i], t, tick, reply);
  }

  lemma SweptGone(run: seq<State>, i: nat, t: Tid)
    requires Run(run) && i < |run| && t in run[i].threads
    requires run[i].threads[t].pc.InStore? && run[i].threads[t].pc.job.Clear? && run[i].threads[t].pc.todo == {}
    ensures forall c :: c in run[i].store ==> Gone(run[i], c)
  {
    RunSweeping(run, i);
    assert Sweeping(run[i], t);
    forall c | c in run[i].store ensures Gone(run[i], c) {
      assert Settled(run[i], run[i].threads[t].pc, c);
    }
  }

  /** When a shutdown leaves the store, every session that was in it is dead, its socket closed once,
      and the store is empty. */
  lemma ShutdownCloses(run: seq<State>, i: nat, t: Tid, tick: Tick, reply: string)
    requires Run(run) && i < |run| && Enabled(run[i], t, UnlockStore(tick, reply))
    requires run[i].threads[t].pc.job.Clear?
    ensures Apply(run[i], t, UnlockStore(tick, reply)).store == {}
    ensures forall c :: c in run[i].store ==>
      Gone(run[i], c) && c in run[i].sockets && run[i].sockets[c].closed == 1
  {
    RunSafe(run, i);
    SweptGone(run, i, t);
    forall c | c in run[i].store ensures c in run[i].sockets && run[i].sockets[c].closed == 1 {
      assert Gone(run[i], c) && SocketAccounted(run[i], c);
    }
  }

  // ---- Which sessions leave the store

  /** Thread `t` is about to look at session `c`, which is stale. */
  ghost predicate Stale(s: State, t: Tid, c: Tid) {
    && t in s.threads && s.threads[t].pc.InStore? && c in s.sessions
    && (!s.sessions[c].alive || SseStore.Age(s.threads[t].pc.now, s.sessions[c].createdAt) > 3600000)
  }

  /** The session a sweep of a new connection wants to drop was stale when it was looked at. */
  lemma {:induction false} VictimWasStale(run: seq<State>, i: nat, t: Tid) returns (k: nat)
    requires Run(run) && i < |run| && t in run[i].threads
    requires HasVictim(run[i].threads[t].pc) && run[i].threads[t].pc.job.Create?
    ensures k < i && Stale(run[k], t, run[i].threads[t].pc.victim)
  {
    assert i > 0 && NextAt(run, i - 1);
    k := i - 1;
    RunSafe(run, k);
    var kept := NextVictim(run[k], run[i], t);
    if kept {
      k := VictimWasStale(run, k, t);
    }
  }

  lemma NextVictim(s: State, s': State, t: Tid) returns (kept: bool)
    requires Safe(s) && Next(s, s') && t in s'.threads
    requires HasVictim(s'.threads[t].pc) && s'.threads[t].pc.job.Create?
    ensures kept ==> t in s.threads && HasVictim(s.threads[t].pc) && s.threads[t].pc.job.Create?
    ensures kept ==> s.threads[t].pc.victim == s'.threads[t].pc.victim
    ensures !kept ==> Stale(s, t, s'.threads[t].pc.victim)
  {
    var u, a :| Enabled(s, u, a) && s' == Apply(s, u, a);
    kept := !(u == t && a.Examine?);
    if kept {
      VictimKept(s, u, a, t);
    } else {
      ExaminedStale(ViewOf(s, t, a.victim), a.victim);
    }
  }

  lemma ExaminedStale(v: View, c: Tid)
    requires Allowed(v, c, Examine(c)) && HasVictim(Consider(v, c).thread.pc) && v.thread.pc.job.Create?
    ensures Consider(v, c).thread.pc.victim == c
    ensures !v.session.value.alive || SseStore.Age(v.thread.pc.now, v.session.value.createdAt) > 3600000
  {
  }

  lemma MoveKeepsVictim(v: View, t: Tid, x: Tid, a: Act)
    requires Allowed(v, x, a) && HasVictim(Move(v, t, x, a).thread.pc) && !a.Examine?
    ensures HasVictim(v.thread.pc)
    ensures Move(v, t, x, a).thread.pc.victim == v.thread.pc.victim && Move(v, t, x, a).thread.pc.job == v.thread.pc.job
  {
  }

  lemma VictimKept(s: State, u: Tid, a: Act, t: Tid)
    requires Safe(s) && Enabled(s, u, a) && t in Apply(s, u, a).threads
    requires HasVictim(Apply(s, u, a).threads[t].pc) && !(u == t && a.Examine?)
    ensures t in s.threads && HasVictim(s.threads[t].pc)
    ensures s.threads[t].pc.victim == Apply(s, u, a).threads[t].pc.victim
    ensures s.threads[t].pc.job == Apply(s, u, a).threads[t].pc.job
  {
    if u == t && !a.Spawn? {
      var x := Subject(s.threads[t], t, a);
      MoveKeepsVictim(ViewOf(s, t, x), t, x, a);
    } else if u != t {
      assert Apply(s, u, a).threads[t] == s.threads[t];
    }
  }

  /** Who takes a session from the store: its own thread, a shutdown, or the sweep of a new connection,
      which found it dead or more than an hour old. */
  lemma LeavesStore(run: seq<State>, i: nat, t: Tid, a: Act, c: Tid)
    requires Run(run) && i < |run| && Enabled(run[i], t, a)
    requires c in run[i].store && c !in Apply(run[i], t, a).store
    ensures t in run[i].threads && !run[i].threads[t].role.Handler?
    ensures run[i].threads[t].role.Connection? && t != c ==> exists k: nat :: k < i && Stale(run[k], t, c)
  {
    var s := run[i];
    RunSafe(run, i);
    assert !a.Spawn?;
    TakesVictim(s, t, a, c);
    if s.threads[t].role.Connection? && t != c {
      var k := VictimWasStale(run, i, t);
    }
  }

  /** A step that takes `c` from the store. */
  lemma MoveTakes(v: View, t: Tid, x: Tid, a: Act, c: Tid)
    requires Allowed(v, x, a) && ViewShape(v, t, x) && x == Subject(v.thread, t, a)
    requires c in v.store && c !in Move(v, t, x, a).store
    ensures a.Evict? || a.UnlockStore?
    ensures a.Evict? ==> c == v.thread.pc.victim && v.thread.pc.WithVictim? && v.thread.pc.job.Create?
    ensures a.UnlockStore? ==>
      v.thread.pc.InStore? && ((v.thread.pc.job.Remove? && c == Target(v.thread, t)) || v.thread.pc.job.Clear?)
  {
  }

  lemma TakesVictim(s: State, t: Tid, a: Act, c: Tid)
    requires Safe(s) && Enabled(s, t, a) && !a.Spawn? && c in s.store && c !in Apply(s, t, a).store
    ensures !s.threads[t].role.Handler?
    ensures s.threads[t].role.Connection? && t != c ==>
      HasVictim(s.threads[t].pc) && s.threads[t].pc.job.Create? && s.threads[t].pc.victim == c
  {
    var x := Subject(s.threads[t], t, a);
    ViewIsShaped(s, t, a);
    MoveTakes(ViewOf(s, t, x), t, x, a, c);
  }

  // ---- Whose sessions the store holds

  /** Points of a connection thread that has taken its session from the store. */
  predicate Finished(pc: Pc) {
    pc.Returned? || ((pc.WantWrite? || pc.Locked? || pc.Leaving?) && pc.what.Shut?)
  }

  ghost predicate Served(s: State, c: Tid) {
    c in s.store ==> c in s.threads && !Finished(s.threads[c].pc)
  }

  /** A step files only the thread's own session, and leaves the thread finished only with its session
      out of the store. */
  lemma MoveServes(v: View, t: Tid, x: Tid, a: Act)
    requires Allowed(v, x, a) && ViewShape(v, t, x) && x == Subject(v.thread, t, a) && v.thread.role.Connection?
    requires t in v.store ==> !Finished(v.thread.pc) && !v.thread.pc.Replying?
    ensures var v' := Move(v, t, x, a); t in v'.store ==> !Finished(v'.thread.pc)
  {
  }

  lemma MoveFiles(v: View, t: Tid, x: Tid, a: Act, c: Tid)
    requires Allowed(v, x, a) && ViewShape(v, t, x) && x == Subject(v.thread, t, a)
    requires c in Move(v, t, x, a).store && c !in v.store
    ensures c == t && v.thread.role.Connection?
  {
  }

  lemma OwnServed(s: State, t: Tid, a: Act)
    requires Safe(s) && Enabled(s, t, a) && !a.Spawn? && Served(s, t)
    ensures Served(Apply(s, t, a), t)
  {
    var x := Subject(s.threads[t], t, a);
    var v := ViewOf(s, t, x);
    ViewIsShaped(s, t, a);
    assert ThreadShape(s, t);
    if v.thread.role.Connection? {
      MoveServes(v, t, x, a);
    } else {
      assert t !in s.store;
      if t in Move(v, t, x, a).store { MoveFiles(v, t, x, a, t); }
    }
  }

  lemma OtherServed(s: State, t: Tid, x: Tid, v': View, c: Tid)
    requires t in s.threads && c != t && Served(s, c) && (c in v'.store ==> c in s.store)
    ensures Served(With(s, t, x, v'), c)
  {
  }

  lemma SpawnServed(s: State, t: Tid, role: Role, c: Tid)
    requires t !in s.threads && Served(s, c)
    ensures Served(Spawned(s, t, role), c)
  {
  }

  lemma StepServes(s: State, t: Tid, a: Act, c: Tid)
    requires Safe(s) && Enabled(s, t, a) && Served(s, c)
    ensures Served(Apply(s, t, a), c)
  {
    if a.Spawn? {
      SpawnServed(s, t, a.role, c);
    } else if c == t {
      OwnServed(s, t, a);
    } else {
      var x := Subject(s.threads[t], t, a);
      ViewIsShaped(s, t, a);
      var v' := Move(ViewOf(s, t, x), t, x, a);
      if c in v'.store && c !in s.store { MoveFiles(ViewOf(s, t, x), t, x, a, c); }
      OtherServed(s, t, x, v', c);
    }
  }

  lemma NextServes(s: State, s': State, c: Tid)
    requires Safe(s) && Next(s, s') && Served(s, c)
    ensures Served(s', c)
  {
    var t, a :| Enabled(s, t, a) && s' == Apply(s, t, a);
    StepServes(s, t, a, c);
  }

  /** In every reachable state, each session in the store is that of a connection thread that has not
      yet taken it out, let alone returned. */
  lemma StoreServed(run: seq<State>, i: nat, c: Tid)
    requires Run(run) && i < |run| && c in run[i].store
    ensures c in run[i].threads && run[i].threads[c].role.Connection? && !Finished(run[i].threads[c].pc)
  {
    RunServed(run, i, c);
    RunSafe(run, i);
  }

  lemma {:induction false} RunServed(run: seq<State>, i: nat, c: Tid)
    requires Run(run) && i < |run|
    ensures Served(run[i], c)
  {
    if i > 0 {
      RunServed(run, i - 1, c);
      RunSafe(run, i - 1);
      assert NextAt(run, i - 1);
      NextServes(run[i - 1], run[i], c);
    }
  }
}
