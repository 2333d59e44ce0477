/** Nothing keeps the threads of `SseProtocol` from coming to an end: from every reachable state, with
    no new threads, some continuation leads every thread to its return. */
module SseDrain {
  import opened Common
  import opened SseFrames
  import opened SseProtocol
  import SseStore

  // ---- How far a thread is from its return when sends fail and handlers decline

  function WriteRank(what: What, whole: bool): nat {
    if !whole then 7 else if what.Header? then 14 else 12
  }

  function LeaveRank(what: What, ok: bool): nat {
    if what.Shut? then 1 else if !ok then 6 else if what.Header? then 13 else 11
  }

  /** Three steps for each session a sweep still has to look at. */
  function Rank(pc: Pc, whole: bool): nat {
    match pc
    case Arrived => 60
    case Replying => 1
    case WantStore(job) =>
      if Sweeps(job) then 11 + 3 * SseStore.MAX_SESSIONS else if job.Remove? then 5 else 12
    case InStore(job, _, todo) =>
      if Sweeps(job) then 10 + 3 * |todo| else if job.Remove? then 4 else 11
    case WantVictim(_, _, todo, _) => 9 + 3 * |todo|
    case WithVictim(_, _, todo, _) => 8 + 3 * |todo|
    case Checking(_) => 10
    case WantWrite(what) => if what.Shut? then 3 else 9
    case Locked(what) => if what.Shut? then 2 else 8
    case Writing(what) => WriteRank(what, whole)
    case Leaving(what, ok) => LeaveRank(what, ok)
    case Looping => 10
    case Returned => 0
  }

  predicate WroteAll(socket: Option<Socket>) {
    socket.Some? && socket.value.log != [] && Whole(Last(socket.value))
  }

  function ViewRank(v: View): nat { Rank(v.thread.pc, WroteAll(v.socket)) }

  lemma ItemsAreLong(role: Role, what: What)
    ensures |ItemText(ItemFor(role, what))| > 0
  {
  }

  lemma FewerLeft(todo: set<Tid>, x: Tid)
    requires x in todo
    ensures |todo - {x}| == |todo| - 1
  {
  }

  lemma LookDescends(v: View, x: Tid)
    requires Allowed(v, x, Examine(x))
    ensures ViewRank(Consider(v, x)) < ViewRank(v)
  {
    FewerLeft(v.thread.pc.todo, x);
  }

  lemma DropDescends(v: View, x: Tid)
    requires Allowed(v, x, Evict) && Typed(v.thread)
    ensures ViewRank(Drop(v)) < ViewRank(v)
  {
    FewerLeft(v.thread.pc.todo, v.thread.pc.victim);
  }

  lemma SweptDescends(v: View, x: Tid, tick: Tick, reply: string)
    requires Allowed(v, x, UnlockStore(tick, reply)) && Sweeps(v.thread.pc.job)
    ensures ViewRank(LeaveStore(v, x, v.thread.pc.job, tick, reply)) < ViewRank(v)
  {
  }

  lemma LookedDescends(v: View, x: Tid, tick: Tick, reply: string)
    requires Allowed(v, x, UnlockStore(tick, reply)) && !Sweeps(v.thread.pc.job)
    ensures ViewRank(LeaveStore(v, x, v.thread.pc.job, tick, reply)) < ViewRank(v)
  {
  }

  lemma StoreDescends(v: View, t: Tid, x: Tid, a: Act)
    requires Allowed(v, x, a) && ViewShape(v, t, x) && x == Subject(v.thread, t, a)
    requires StoreAct(a)
    ensures ViewRank(Move(v, t, x, a)) < ViewRank(v)
  {
    match a
    case LockStore(_) =>
    case Examine(_) => LookDescends(v, x);
    case LockVictim =>
    case Evict => DropDescends(v, x);
    case UnlockStore(tick, reply) =>
      if Sweeps(v.thread.pc.job) { SweptDescends(v, x, tick, reply); } else { LookedDescends(v, x, tick, reply); }
  }

  predicate LockAct(a: Act) { a.LockWrite? || a.Begin? || a.Done? || a.Fail? || a.Unlock? }

  /** A write that has only begun is not whole. */
  lemma BegunUnwritten(v: View, item: Item)
    requires v.socket.Some? && |ItemText(item)| > 0
    ensures !WroteAll(Append(v, item).socket) && Append(v, item).thread == v.thread
  {
    assert Last(Append(v, item).socket.value) == Record(item, 0);
  }

  lemma BeginDescends(v: View, what: What)
    requires v.thread.pc == Locked(what) && v.session.Some? && v.socket.Some?
    ensures ViewRank(Enter(v, what)) < ViewRank(v)
  {
    ItemsAreLong(v.thread.role, Header);
    ItemsAreLong(v.thread.role, what);
    if !what.Shut? {
      var item := if what.Header? then Heading else ItemFor(v.thread.role, what);
      BegunUnwritten(v, item);
    }
  }

  lemma LockDescends(v: View, t: Tid, x: Tid, a: Act)
    requires Allowed(v, x, a) && Typed(v.thread) && LockAct(a)
    ensures ViewRank(Move(v, t, x, a)) < ViewRank(v)
  {
    match a
    case LockWrite =>
    case Begin => BeginDescends(v, v.thread.pc.what);
    case Done =>
    case Fail =>
    case Unlock =>
  }

  lemma FreeDescends(v: View, t: Tid, x: Tid, a: Act)
    requires Allowed(v, x, a) && Typed(v.thread) && Winding(a) && !StoreAct(a) && !LockAct(a)
    ensures ViewRank(Move(v, t, x, a)) < ViewRank(v)
  {
  }

  /** Every step of winding down brings its thread nearer to its return. */
  lemma MoveDescends(v: View, t: Tid, x: Tid, a: Act)
    requires Allowed(v, x, a) && ViewShape(v, t, x) && x == Subject(v.thread, t, a)
    requires Winding(a)
    ensures ViewRank(Move(v, t, x, a)) < ViewRank(v)
  {
    if StoreAct(a) {
      StoreDescends(v, t, x, a);
    } else if LockAct(a) {
      LockDescends(v, t, x, a);
    } else {
      FreeDescends(v, t, x, a);
    }
  }

  // ---- All threads together

  function RankAt(s: State, t: Tid): nat {
    if t in s.threads then Rank(s.threads[t].pc, WroteAll(Get(s.sockets, Target(s.threads[t], t)))) else 0
  }

  function Ranks(s: State, n: nat): (ranks: seq<nat>)
    ensures |ranks| == n && forall t :: 0 <= t < n ==> ranks[t] == RankAt(s, t)
  {
    seq(n, t requires 0 <= t < n => RankAt(s, t))
  }

  function Total(s: State, n: nat): nat { Sum(Ranks(s, n)) }

  /** Another thread is no farther: what it is sending grows only under the write lock it holds. */
  lemma OtherRankStays(s: State, t: Tid, x: Tid, v': View, u: Tid)
    requires Shape(s) && Locks(s) && Sends(s) && t in s.threads && u != t
    requires SendStep(ViewOf(s, t, x), t, x, v')
    ensures RankAt(With(s, t, x, v'), u) == RankAt(s, u)
  {
    if u in s.threads {
      assert SendsOwn(s, u) && WriteHeld(s, u) && WriteHeld(s, t);
    }
  }

  /** The rank of the thread that steps is the rank in its view. */
  lemma RankBefore(s: State, t: Tid, a: Act)
    requires t in s.threads && !a.Spawn? && Enabled(s, t, a)
    ensures RankAt(s, t) == ViewRank(ViewOf(s, t, Subject(s.threads[t], t, a)))
  {
    assert s.threads[t].pc.Writing? ==> Subject(s.threads[t], t, a) == Target(s.threads[t], t);
  }

  lemma RankAfter(s: State, t: Tid, x: Tid, v': View)
    requires t in s.threads && SendStep(ViewOf(s, t, x), t, x, v')
    ensures RankAt(With(s, t, x, v'), t) == ViewRank(v')
  {
    assert Get(With(s, t, x, v').sockets, x) == v'.socket;
  }

  /** A step of winding down brings its thread nearer to its return, and moves no other. */
  lemma RanksAfter(s: State, t: Tid, a: Act) returns (s': State)
    requires Safe(s) && Enabled(s, t, a) && Winding(a)
    ensures s' == Apply(s, t, a) && RankAt(s', t) < RankAt(s, t)
    ensures forall u: Tid :: u != t ==> RankAt(s', u) == RankAt(s, u)
  {
    var x := Subject(s.threads[t], t, a);
    var v := ViewOf(s, t, x);
    ViewIsShaped(s, t, a);
    StepIsSendStep(s, t, a);
    MoveDescends(v, t, x, a);
    RankBefore(s, t, a);
    s' := With(s, t, x, Move(v, t, x, a));
    RankAfter(s, t, x, Move(v, t, x, a));
    forall u: Tid | u != t ensures RankAt(s', u) == RankAt(s, u) {
      OtherRankStays(s, t, x, Move(v, t, x, a), u);
    }
  }

  lemma StepDescends(s: State, t: Tid, a: Act, n: nat)
    requires Safe(s) && Enabled(s, t, a) && Winding(a) && t < n
    ensures Total(Apply(s, t, a), n) < Total(s, n)
  {
    var s' := RanksAfter(s, t, a);
    SumChanges(Ranks(s, n), Ranks(s', n), t);
  }

  // ---- The continuation

  /** A step that starts no thread. */
  ghost predicate Onward(s: State, s': State) {
    exists t: Tid, a: Act :: !a.Spawn? && Enabled(s, t, a) && s' == Apply(s, t, a)
  }

  ghost predicate Path(path: seq<State>) {
    path != [] && forall i :: 0 <= i < |path| - 1 ==> OnwardAt(path, i)
  }

  ghost predicate OnwardAt(path: seq<State>, i: nat)
    requires i + 1 < |path|
  {
    Onward(path[i], path[i + 1])
  }

  /** Every thread has returned, no lock is held, and every socket was closed exactly once. */
  ghost predicate Drained(s: State) {
    && (forall t :: t in s.threads ==> s.threads[t].pc.Returned?)
    && s.lock.None?
    && (forall c :: c in s.sessions ==> s.sessions[c].writer.None?)
    && (forall c :: c in s.sockets ==> s.sockets[c].closed == 1)
  }

  lemma ReturnedIsDrained(s: State)
    requires Safe(s) && forall t :: t in s.threads ==> s.threads[t].pc.Returned?
    ensures Drained(s)
  {
    forall c | c in s.sessions ensures s.sessions[c].writer.None? {
      assert WriteLock(s, c);
    }
    forall c | c in s.sockets ensures s.sockets[c].closed == 1 {
      assert SocketAccounted(s, c);
    }
  }

  lemma Extend(s: State, t: Tid, a: Act, rest: seq<State>)
    requires Enabled(s, t, a) && !a.Spawn? && Path(rest) && rest[0] == Apply(s, t, a)
    ensures Path([s] + rest)
  {
    var path := [s] + rest;
    forall i | 0 <= i < |path| - 1 ensures OnwardAt(path, i) {
      if i > 0 {
        assert OnwardAt(rest, i - 1);
      } else {
        assert Onward(s, rest[0]);
      }
    }
  }

  lemma {:induction false} Drain(s: State, n: nat) returns (path: seq<State>)
    requires Safe(s) && forall t :: t in s.threads ==> t < n
    ensures Path(path) && path[0] == s && Drained(path[|path| - 1])
    decreases Total(s, n)
  {
    if t :| t in s.threads && !s.threads[t].pc.Returned? {
      var u := SomeoneGoesOn(s, t);
      var a := Winder(s, u);
      StepDescends(s, u, a, n);
      NextSafe(s, Apply(s, u, a));
      var rest := Drain(Apply(s, u, a), n);
      Extend(s, u, a, rest);
      path := [s] + rest;
    } else {
      ReturnedIsDrained(s);
      path := [s];
    }
  }

  lemma {:induction false} Above(ids: set<Tid>) returns (n: nat)
    ensures forall t :: t in ids ==> t < n
  {
    if ids == {} {
      n := 0;
    } else {
      var t :| t in ids;
      var m := Above(ids - {t});
      n := if t < m then m else t + 1;
      forall k | k in ids ensures k < n {
        assert k == t || k in ids - {t};
      }
    }
  }

  /** From every reachable state, with no new threads, every thread can still return, and then every
      socket was closed exactly once: no step ever taken rules that out. */
  lemma EveryThreadCanReturn(run: seq<State>, i: nat) returns (path: seq<State>)
    requires Run(run) && i < |run|
    ensures Path(path) && path[0] == run[i] && Drained(path[|path| - 1])
  {
    RunSafe(run, i);
    var n := Above(run[i].threads.Keys);
    path := Drain(run[i], n);
  }
}
