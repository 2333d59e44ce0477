/** Shutdown ends: once the running flag is down and no thread is started any more, every schedule of
    the threads of `SseProtocol` comes to an end, and it ends with every thread returned. */
module SseShutdown {
  import opened Common
  import opened SseFrames
  import opened SseProtocol
  import opened SseDrain
  import SseStore

  // ---- How many steps a thread can still take, its writes apart

  function WritePhase(what: What, message: nat, header: nat, shut: nat): nat {
    match what
    case Header => header
    case Shut => shut
    case _ => message
  }

  /** Three steps for each session a sweep still has to look at. */
  function Phase(pc: Pc): nat {
    match pc
    case Arrived => 68
    case Replying => 1
    case WantStore(job) => if Sweeps(job) then 67 else if job.Remove? then 5 else if job.Find? then 13 else 16
    case InStore(job, _, todo) =>
      if Sweeps(job) then 18 + 3 * |todo| else if job.Remove? then 4 else if job.Find? then 12 else 15
    case WantVictim(_, _, todo, _) => 17 + 3 * |todo|
    case WithVictim(_, _, todo, _) => 16 + 3 * |todo|
    case Checking(job) => if job.Find? then 11 else 14
    case WantWrite(what) => WritePhase(what, 10, 17, 3)
    case Locked(what) => WritePhase(what, 9, 16, 2)
    case Writing(what) => WritePhase(what, 8, 15, 8)
    case Leaving(what, _) => WritePhase(what, 7, 14, 1)
    case Looping => 6
    case Returned => 0
  }

  lemma StoreMovesOn(v: View, t: Tid, x: Tid, a: Act)
    requires Allowed(v, x, a) && ViewShape(v, t, x) && x == Subject(v.thread, t, a) && StoreAct(a) && !a.UnlockStore?
    ensures Phase(Move(v, t, x, a).thread.pc) < Phase(v.thread.pc)
  {
    var pc := v.thread.pc;
    if HoldsStore(pc) && x in pc.todo {
      FewerLeft(pc.todo, x);
    }
  }

  lemma SweptMovesOn(v: View, x: Tid, tick: Tick, reply: string)
    requires Allowed(v, x, UnlockStore(tick, reply)) && Sweeps(v.thread.pc.job)
    ensures Phase(LeaveStore(v, x, v.thread.pc.job, tick, reply).thread.pc) < Phase(v.thread.pc)
  {
  }

  lemma LookedMovesOn(v: View, x: Tid, tick: Tick, reply: string)
    requires Allowed(v, x, UnlockStore(tick, reply)) && !Sweeps(v.thread.pc.job)
    ensures Phase(LeaveStore(v, x, v.thread.pc.job, tick, reply).thread.pc) < Phase(v.thread.pc)
  {
  }

  lemma LeaveMovesOn(v: View, t: Tid, x: Tid, a: Act)
    requires Allowed(v, x, a) && a.UnlockStore?
    ensures Phase(Move(v, t, x, a).thread.pc) < Phase(v.thread.pc)
  {
    if Sweeps(v.thread.pc.job) { SweptMovesOn(v, x, a.tick, a.reply); } else { LookedMovesOn(v, x, a.tick, a.reply); }
  }

  lemma LockMovesOn(v: View, t: Tid, x: Tid, a: Act)
    requires Allowed(v, x, a) && ViewShape(v, t, x) && x == Subject(v.thread, t, a) && LockAct(a)
    ensures Phase(Move(v, t, x, a).thread.pc) < Phase(v.thread.pc)
  {
  }

  lemma FreeMovesOn(v: View, t: Tid, x: Tid, a: Act)
    requires Allowed(v, x, a) && ViewShape(v, t, x) && x == Subject(v.thread, t, a)
    requires !StoreAct(a) && !LockAct(a) && !a.Push? && (a.Loop? ==> !v.running)
    ensures Phase(Move(v, t, x, a).thread.pc) < Phase(v.thread.pc)
  {
  }

  /** Once the running flag is down a loop only leads out, and every step but a write of more bytes
      brings its thread on. */
  lemma MovesOn(v: View, t: Tid, x: Tid, a: Act)
    requires Allowed(v, x, a) && ViewShape(v, t, x) && x == Subject(v.thread, t, a)
    requires !a.Push? && !v.running
    ensures Phase(Move(v, t, x, a).thread.pc) < Phase(v.thread.pc)
  {
    if a.UnlockStore? {
      LeaveMovesOn(v, t, x, a);
    } else if StoreAct(a) {
      StoreMovesOn(v, t, x, a);
    } else if LockAct(a) {
      LockMovesOn(v, t, x, a);
    } else {
      FreeMovesOn(v, t, x, a);
    }
  }

  lemma StaysStopped(v: View, t: Tid, x: Tid, a: Act)
    requires Allowed(v, x, a) && !v.running
    ensures !Move(v, t, x, a).running
  {
  }

  // ---- Bytes still to be written

  function Missing(r: Record): nat {
    if r.sent < |ItemText(r.item)| then |ItemText(r.item)| - r.sent else 0
  }

  function Left(th: Thread, socket: Option<Socket>): nat {
    if (th.pc.Writing? || th.pc.Replying?) && socket.Some? && socket.value.log != [] then Missing(Last(socket.value)) else 0
  }

  lemma PushLeavesLess(v: View, t: Tid, x: Tid, a: Act)
    requires Allowed(v, x, a) && a.Push?
    ensures Left(Move(v, t, x, a).thread, Move(v, t, x, a).socket) < Left(v.thread, v.socket)
    ensures Move(v, t, x, a).thread == v.thread
  {
  }

  function PhaseAt(s: State, t: Tid): nat { if t in s.threads then Phase(s.threads[t].pc) else 0 }

  function LeftAt(s: State, t: Tid): nat {
    if t in s.threads then Left(s.threads[t], Get(s.sockets, Target(s.threads[t], t))) else 0
  }

  function Phases(s: State, n: nat): (phases: seq<nat>)
    ensures |phases| == n && forall t :: 0 <= t < n ==> phases[t] == PhaseAt(s, t)
  {
    seq(n, t requires 0 <= t < n => PhaseAt(s, t))
  }

  function Lefts(s: State, n: nat): (lefts: seq<nat>)
    ensures |lefts| == n && forall t :: 0 <= t < n ==> lefts[t] == LeftAt(s, t)
  {
    seq(n, t requires 0 <= t < n => LeftAt(s, t))
  }

  // ---- One step of any thread

  /** Another thread's write is its own: it holds the lock, or the socket has no session. */
  lemma OtherLeftStays(s: State, t: Tid, x: Tid, v': View, u: Tid)
    requires Shape(s) && Locks(s) && Sends(s) && t in s.threads && u in s.threads && u != t
    requires SendStep(ViewOf(s, t, x), t, x, v')
    ensures LeftAt(With(s, t, x, v'), u) == LeftAt(s, u)
  {
    assert ThreadShape(s, u) && WriteHeld(s, u) && WriteHeld(s, t);
  }

  lemma StepMovesOn(s: State, t: Tid, a: Act, n: nat)
    requires Safe(s) && !s.running && Enabled(s, t, a) && !a.Spawn? && !a.Push? && t < n
    ensures !Apply(s, t, a).running && Sum(Phases(Apply(s, t, a), n)) < Sum(Phases(s, n))
  {
    var x := Subject(s.threads[t], t, a);
    ViewIsShaped(s, t, a);
    MovesOn(ViewOf(s, t, x), t, x, a);
    StaysStopped(ViewOf(s, t, x), t, x, a);
    SumChanges(Phases(s, n), Phases(Apply(s, t, a), n), t);
  }

  lemma OwnPush(s: State, t: Tid, a: Act) returns (s': State)
    requires t in s.threads && a.Push? && Enabled(s, t, a)
    ensures s' == Apply(s, t, a) && s'.threads == s.threads && s'.running == s.running
    ensures LeftAt(s', t) < LeftAt(s, t)
  {
    var x := Subject(s.threads[t], t, a);
    var v := ViewOf(s, t, x);
    PushLeavesLess(v, t, x, a);
    s' := With(s, t, x, Move(v, t, x, a));
    assert s'.threads == s.threads && Get(s'.sockets, x) == Move(v, t, x, a).socket;
  }

  lemma PushLefts(s: State, t: Tid, a: Act) returns (s': State)
    requires Safe(s) && Enabled(s, t, a) && a.Push?
    ensures s' == Apply(s, t, a) && s'.threads == s.threads && s'.running == s.running
    ensures LeftAt(s', t) < LeftAt(s, t) && forall u: Tid :: u != t ==> LeftAt(s', u) == LeftAt(s, u)
  {
    s' := OwnPush(s, t, a);
    var x := Subject(s.threads[t], t, a);
    StepIsSendStep(s, t, a);
    forall u: Tid | u != t ensures LeftAt(s', u) == LeftAt(s, u) {
      if u in s.threads { OtherLeftStays(s, t, x, Move(ViewOf(s, t, x), t, x, a), u); }
    }
  }

  lemma PushWritesOn(s: State, t: Tid, a: Act, n: nat)
    requires Safe(s) && Enabled(s, t, a) && a.Push? && t < n
    ensures Apply(s, t, a).running == s.running && Sum(Phases(Apply(s, t, a), n)) == Sum(Phases(s, n))
    ensures Sum(Lefts(Apply(s, t, a), n)) < Sum(Lefts(s, n))
  {
    var s' := PushLefts(s, t, a);
    assert Phases(s', n) == Phases(s, n);
    SumChanges(Lefts(s, n), Lefts(s', n), t);
  }

  /** Once stopped, every step of every thread lowers the steps to come, or keeps them and lowers the
      bytes to come: no schedule goes on for ever. */
  lemma StoppedStepDescends(s: State, t: Tid, a: Act, n: nat)
    requires Safe(s) && !s.running && Enabled(s, t, a) && !a.Spawn? && t < n
    ensures var s' := Apply(s, t, a);
      && !s'.running
      && (Sum(Phases(s', n)) < Sum(Phases(s, n))
          || (Sum(Phases(s', n)) == Sum(Phases(s, n)) && Sum(Lefts(s', n)) < Sum(Lefts(s, n))))
  {
    if a.Push? { PushWritesOn(s, t, a, n); } else { StepMovesOn(s, t, a, n); }
  }

  // ---- Stopped for good

  /** A shutdown thread that has begun has taken the running flag down. */
  ghost predicate StopperStopped(s: State) {
    forall t :: t in s.threads && s.threads[t].role.Stopper? && s.threads[t].pc != Arrived ==> !s.running
  }

  lemma MoveStops(v: View, t: Tid, x: Tid, a: Act)
    requires Allowed(v, x, a)
    requires v.thread.role.Stopper? && v.thread.pc != Arrived ==> !v.running
    ensures var v' := Move(v, t, x, a);
      && (!v.running ==> !v'.running) && v'.thread.role == v.thread.role
      && (v.thread.role.Stopper? && Typed(v.thread) ==> !v'.running)
  {
  }

  lemma StepStops(s: State, t: Tid, a: Act)
    requires Shape(s) && StopperStopped(s) && Enabled(s, t, a)
    ensures StopperStopped(Apply(s, t, a))
  {
    if !a.Spawn? {
      assert ThreadShape(s, t);
      var x := Subject(s.threads[t], t, a);
      MoveStops(ViewOf(s, t, x), t, x, a);
    }
  }

  /** So it stays down: whatever follows a begun shutdown is a schedule of a stopped server. */
  lemma {:induction false} BegunShutdownStops(run: seq<State>, i: nat)
    requires Run(run) && i < |run|
    ensures StopperStopped(run[i])
  {
    if i > 0 {
      BegunShutdownStops(run, i - 1);
      RunSafe(run, i - 1);
      assert NextAt(run, i - 1);
      NextStops(run[i - 1], run[i]);
    }
  }

  lemma NextStops(s: State, s': State)
    requires Shape(s) && StopperStopped(s) && Next(s, s')
    ensures StopperStopped(s')
  {
    var t, a :| Enabled(s, t, a) && s' == Apply(s, t, a);
    StepStops(s, t, a);
  }

  // ---- Schedules

  /** The steps can be taken in this order, and none starts a thread. */
  ghost predicate Plays(s: State, steps: seq<(Tid, Act)>)
    decreases |steps|
  {
    steps != [] ==>
      var (t, a) := steps[0];
      !a.Spawn? && Enabled(s, t, a) && Plays(Apply(s, t, a), steps[1..])
  }

  ghost function End(s: State, steps: seq<(Tid, Act)>): State
    requires Plays(s, steps)
    decreases |steps|
  {
    if steps == [] then s else End(Apply(s, steps[0].0, steps[0].1), steps[1..])
  }

  /** Steps other than writing more bytes. */
  function Others(steps: seq<(Tid, Act)>): nat {
    if steps == [] then 0 else (if steps[0].1.Push? then 0 else 1) + Others(steps[1..])
  }

  lemma ThreadsBelow(s: State, t: Tid, a: Act, n: nat)
    requires Enabled(s, t, a) && !a.Spawn? && forall u :: u in s.threads ==> u < n
    ensures t < n && forall u :: u in Apply(s, t, a).threads ==> u < n
  {
  }

  lemma StepSafe(s: State, t: Tid, a: Act)
    requires Safe(s) && Enabled(s, t, a)
    ensures Safe(Apply(s, t, a))
  {
    StepKeeps(s, t, a);
    StepOwns(s, t, a);
    StepSends(s, t, a);
  }

  lemma {:induction false} ScheduleDescends(s: State, steps: seq<(Tid, Act)>, n: nat)
    requires Safe(s) && !s.running && Plays(s, steps) && forall u :: u in s.threads ==> u < n
    ensures Safe(End(s, steps)) && Others(steps) + Sum(Phases(End(s, steps), n)) <= Sum(Phases(s, n))
    decreases |steps|
  {
    if steps != [] {
      var t, a := steps[0].0, steps[0].1;
      ThreadsBelow(s, t, a, n);
      StepSafe(s, t, a);
      if a.Push? { PushWritesOn(s, t, a, n); } else { StepMovesOn(s, t, a, n); }
      ScheduleDescends(Apply(s, t, a), steps[1..], n);
    }
  }

  lemma PhaseBound(s: State, t: Tid)
    requires Shape(s) && t in s.threads
    ensures Phase(s.threads[t].pc) <= 68
  {
    assert ThreadShape(s, t);
    if HoldsStore(s.threads[t].pc) {
      SseStore.Subset(s.threads[t].pc.todo, s.store);
    }
  }

  function Below(ids: set<Tid>, n: nat): set<Tid> { set t | t in ids && t < n }

  lemma {:induction false} PhasesBound(s: State, n: nat)
    requires Shape(s)
    ensures Sum(Phases(s, n)) <= 68 * |Below(s.threads.Keys, n)|
  {
    if n == 0 {
      assert Phases(s, 0) == [];
    } else {
      var last := n - 1;
      PhasesBound(s, last);
      assert Phases(s, n)[..last] == Phases(s, last);
      if last in s.threads {
        PhaseBound(s, last);
        assert Below(s.threads.Keys, n) == Below(s.threads.Keys, last) + {last};
      } else {
        assert Below(s.threads.Keys, n) == Below(s.threads.Keys, last);
      }
    }
  }

  /** Where no thread can step, every thread has returned. */
  lemma StuckIsDrained(s: State)
    requires Safe(s) && forall t: Tid, a: Act :: !a.Spawn? ==> !Enabled(s, t, a)
    ensures Drained(s)
  {
    forall t | t in s.threads ensures s.threads[t].pc.Returned? {
      if !s.threads[t].pc.Returned? {
        var u := SomeoneGoesOn(s, t);
        var a := Winder(s, u);
        assert false;
      }
    }
    ReturnedIsDrained(s);
  }

  /** Once stopped, with no new threads, every schedule takes at most 68 steps for each thread apart from
      writing bytes, and one that cannot go on has every thread returned, no lock held and every
      socket closed exactly once. */
  lemma ShutdownEnds(run: seq<State>, i: nat, steps: seq<(Tid, Act)>)
    requires Run(run) && i < |run| && !run[i].running && Plays(run[i], steps)
    ensures Others(steps) <= 68 * |run[i].threads|
    ensures (forall t: Tid, a: Act :: !a.Spawn? ==> !Enabled(End(run[i], steps), t, a)) ==> Drained(End(run[i], steps))
  {
    RunSafe(run, i);
    var s := run[i];
    var n := Above(s.threads.Keys);
    ScheduleDescends(s, steps, n);
    PhasesBound(s, n);
    assert Below(s.threads.Keys, n) == s.threads.Keys && |s.threads| == |s.threads.Keys|;
    if forall t: Tid, a: Act :: !a.Spawn? ==> !Enabled(End(s, steps), t, a) {
      StuckIsDrained(End(s, steps));
    }
  }
}
