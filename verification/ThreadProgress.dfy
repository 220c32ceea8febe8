/**
  What the threads of lib/Framework/ThreadEnvironment.cpp get done: a thread dispatches from the table
  of the moment, runs a task exactly if no other thread has it, wakes every other task of its table, and
  from every reachable state unregisterTask can return.
 */
module ThreadProgress {
  import opened Values
  import opened ThreadEnvironment

  // ---------- single steps ----------

  /** A thread that comes to dispatch has the table that is current at that moment. */
  lemma DispatchesCurrent(run: seq<State>, acts: seq<Action>, n: nat, w: Who)
    requires Run(run, acts) && n < |acts| && acts[n].Step? && acts[n].w == w
    requires !run[n].threads[w].pc.Dispatch? && run[n + 1].threads[w].pc.Dispatch?
    ensures run[n + 1].threads[w].tasks == run[n].handleToTask
  {
    RunInv(run, acts, n);
    var s, a := run[n], acts[n];
    assert run[n + 1] == After(s, a);
    StepDispatches(s, w, s.threads[w], a.h, a.again);
    hide Run, TasksOk, ThreadsOk, FlagsExact, TablesOk, ExitsOk, StepFlags, StepThread;
  }

  lemma StepDispatches(s: State, w: Who, t: Thread, h: Handle, again: bool)
    requires !t.pc.Dispatch? && StepThread(s, w, t, h, again).pc.Dispatch?
    ensures var tasks := StepThread(s, w, t, h, again).tasks;
      tasks == s.handleToTask || (!t.pc.Exited? && t.signature == s.signature && tasks == t.tasks)
  {
  }

  /** Another thread of the pool is running the task, or is about to give it up. */
  predicate Busy(s: State, w: Who, data: Task) {
    exists v :: v in s.threads && v != w && data in Claims(v, s.threads[v])
  }

  /** A thread of the pool that tries a task runs it exactly if no other thread has it. */
  lemma RunsUnlessBusy(run: seq<State>, acts: seq<Action>, n: nat, w: Who, h: Handle)
    requires Run(run, acts) && n < |acts| && acts[n].Step? && acts[n].w == w && acts[n].h == h
    requires w.Pool? && run[n].threads[w].pc.Dispatch?
    ensures h in run[n].threads[w].tasks
    ensures run[n + 1].threads[w].pc == Running(h) <==> !Busy(run[n], w, run[n].threads[w].tasks[h])
  {
    RunInv(run, acts, n);
    assert run[n + 1] == After(run[n], acts[n]);
    TakenByOwner(run[n], w, h);
    hide Run, Inv, StepFlags, Busy;
  }

  lemma TakenByOwner(s: State, w: Who, h: Handle)
    requires Inv(s) && w in s.threads && w.Pool? && s.threads[w].pc.Dispatch? && h in s.threads[w].tasks
    ensures FlagOf(s, s.threads[w], h).Clear? <==> !Busy(s, w, s.threads[w].tasks[h])
  {
    var data := s.threads[w].tasks[h];
    assert data in s.flags by { assert TableCurrent(s, s.threads[w]); }
    assert Claims(w, s.threads[w]) == {};
    hide TasksOk, ThreadsOk, FlagsExact, VersionsOk, TablesOk, ExitsOk, Claims;
    FlagIsClaim(s, data);
  }

  lemma FlagIsClaim(s: State, data: Task)
    requires TasksOk(s) && FlagsExact(s) && data in s.flags
    ensures s.flags[data].Clear? <==> forall v :: v in s.threads ==> data !in Claims(v, s.threads[v])
  {
    hide Claims;
    if s.flags[data].Set? {
      OwnerLives(s, data, s.flags[data].owner);
      hide TasksOk;
    }
  }

  // ---------- waking the others ----------

  /** From step i on, thread w is in wakeAllBusyTasks on behalf of x. */
  predicate WakesFor(run: seq<State>, i: nat, j: nat, w: Who, x: Handle)
    requires j < |run|
  {
    forall m :: i < m <= j ==> w in run[m].threads && InWakeAll(run[m].threads[w].pc, x)
  }

  predicate InWakeAll(p: Pc, x: Handle) {
    (p.Waking? && p.h == x) || (p.Probing? && p.h == x)
  }

  function StillToWake(p: Pc): set<Handle> {
    if p.Waking? || p.Probing? then p.rest else {}
  }

  /** Step m of thread w, in wakeAllBusyTasks, is about task k. */
  predicate Wakes(s: State, a: Action, w: Who, k: Handle) {
    a.Step? && a.w == w && a.h == k && w in s.threads && s.threads[w].pc.Waking? && s.threads[w].pc.rest != {}
  }

  /** On the way it has yet to come to a task, or has come to it. */
  lemma {:induction false} WakesOnTheWay(run: seq<State>, acts: seq<Action>, i: nat, j: nat, w: Who, x: Handle,
      k: Handle)
    requires Run(run, acts) && i < j < |run| && WakesFor(run, i, j, w, x)
    requires w.Pool? && w in run[i].threads && run[i].threads[w].pc == Running(x)
    requires acts[i].Step? && acts[i].w == w && acts[i].again
    requires k in run[i].threads[w].tasks && k != x
    ensures run[j].threads[w].tasks == run[i].threads[w].tasks
    ensures k in StillToWake(run[j].threads[w].pc) || exists m :: i < m < j && Wakes(run[m], acts[m], w, k)
  {
    var s, a := run[j - 1], acts[j - 1];
    assert run[j - 1 + 1] == After(s, a);
    if j > i + 1 {
      assert WakesFor(run, i, j - 1, w, x);
      WakesOnTheWay(run, acts, i, j - 1, w, x, k);
      assert InWakeAll(run[j].threads[w].pc, x) && InWakeAll(s.threads[w].pc, x);
      hide Run, StepFlags;
      StepWakes(s, a, w, x, k);
    }
  }

  /**
    After a task that did its work, at step i, a thread of the pool has come to every other task of its
    table by the time that it is about to clear the flag.
   */
  lemma WakesAll(run: seq<State>, acts: seq<Action>, i: nat, j: nat, w: Who, x: Handle, k: Handle)
    requires Run(run, acts) && i < j < |run| && WakesFor(run, i, j - 1, w, x)
    requires w.Pool? && w in run[i].threads && run[i].threads[w].pc == Running(x)
    requires acts[i].Step? && acts[i].w == w && acts[i].again
    requires w in run[j].threads && run[j].threads[w].pc == Clearing(x)
    requires k in run[i].threads[w].tasks && k != x
    ensures exists m :: i < m < j && Wakes(run[m], acts[m], w, k)
  {
    var s, a := run[j - 1], acts[j - 1];
    assert Enabled(s, a) && run[j - 1 + 1] == After(s, a);
    if j - 1 > i {
      WakesOnTheWay(run, acts, i, j - 1, w, x, k);
      assert InWakeAll(s.threads[w].pc, x);
    }
    hide Run, WakesFor, InWakeAll;
    LastWoken(s, a, w, x);
  }

  /** A thread is about to clear the flag only when there is nothing left to wake. */
  lemma LastWoken(s: State, a: Action, w: Who, x: Handle)
    requires Enabled(s, a) && w in s.threads && w in After(s, a).threads && After(s, a).threads[w].pc == Clearing(x)
    ensures s.threads[w].pc.Running? && w.Pool? ==> a.Step? && a.w == w && !a.again
    ensures s.threads[w].pc.Waking? || s.threads[w].pc.Probing? ==> StillToWake(s.threads[w].pc) == {}
  {
    if !(a.Step? && a.w == w) {
      OthersStay(s, a, w);
    }
    hide StepFlags, HasExited, Unique, StepEnabled;
  }

  lemma StepWakes(s: State, a: Action, w: Who, x: Handle, k: Handle)
    requires Enabled(s, a) && w in s.threads && InWakeAll(s.threads[w].pc, x)
    requires w in After(s, a).threads && InWakeAll(After(s, a).threads[w].pc, x)
    ensures After(s, a).threads[w].tasks == s.threads[w].tasks
    ensures k in StillToWake(s.threads[w].pc) ==>
      k in StillToWake(After(s, a).threads[w].pc) || Wakes(s, a, w, k)
  {
    if a.Step? && a.w == w {
      OwnStepWakes(s, w, s.threads[w], a.h, a.again, x, k);
    } else {
      OthersStay(s, a, w);
    }
    hide StepFlags, StepThread, HasExited, Unique, StillToWake;
  }

  lemma OwnStepWakes(s: State, w: Who, t: Thread, h: Handle, again: bool, x: Handle, k: Handle)
    requires InWakeAll(t.pc, x)
    ensures var t' := StepThread(s, w, t, h, again);
      && t'.tasks == t.tasks
      && (InWakeAll(t'.pc, x) && k in StillToWake(t.pc) ==>
            k in StillToWake(t'.pc) || (t.pc.Waking? && t.pc.rest != {} && h == k))
  {
  }

  lemma OthersStay(s: State, a: Action, w: Who)
    requires Enabled(s, a) && w in s.threads && !(a.Step? && a.w == w) && w in After(s, a).threads
    ensures After(s, a).threads[w] == s.threads[w] || After(s, a).threads[w].pc.Check?
  {
    hide StepFlags, StepThread, StepEnabled, HasExited, Unique;
  }

  // ---------- unregistration can return ----------

  /** s' comes after s, in n steps of threads or of the registration that is under way. */
  ghost predicate CanReach(s: State, n: nat, s': State)
    decreases n
  {
    if n == 0 then s' == s
    else exists a :: Enabled(s, a) && (a.Step? || a.Proceed?) && CanReach(After(s, a), n - 1, s')
  }

  lemma {:induction false} ThenReach(s: State, m: nat, u: State, n: nat, v: State)
    requires CanReach(s, m, u) && CanReach(u, n, v)
    ensures CanReach(s, m + n, v)
    decreases m
  {
    hide After, Enabled;
    if m > 0 {
      var a :| Enabled(s, a) && (a.Step? || a.Proceed?) && CanReach(After(s, a), m - 1, u);
      ThenReach(After(s, a), m - 1, u, n, v);
    }
  }

  lemma ReachOne(s: State, a: Action, n: nat, s': State)
    requires Enabled(s, a) && (a.Step? || a.Proceed?) && CanReach(After(s, a), n, s')
    ensures CanReach(s, n + 1, s')
  {
    hide After, Enabled;
  }

  lemma ReachNone(s: State)
    ensures CanReach(s, 0, s)
  {
  }

  /** The thread has seen the current table, or has left its loop. */
  predicate UpToDate(s: State, w: Who) {
    w in s.threads && (s.threads[w].pc.Exited? || s.threads[w].signature == s.signature)
  }

  /** How far a thread with an old table is from copying the new one. */
  function Distance(p: Pc): nat {
    match p
    case Refresh => 0
    case Check => 1
    case Clearing(_) => 2
    case Waking(_, rest) => 3 + 2 * |rest|
    case Probing(_, rest, _) => 4 + 2 * |rest|
    case Running(_) => 3
    case Dispatch => 4
    case Exited => 0
  }

  lemma StepCloser(s: State, w: Who, t: Thread, h: Handle)
    requires t.signature != s.signature && !t.pc.Exited? && StepPicks(t, h)
    ensures var t' := StepThread(s, w, t, h, false);
      t'.pc.Exited? || t'.signature == s.signature || Distance(t'.pc) < Distance(t.pc)
  {
    if t.pc.Waking? && t.pc.rest != {} {
      assert |t.pc.rest - {h}| == |t.pc.rest| - 1;
    }
  }

  /** Nothing but the thread w has changed, and the flags. */
  predicate OnlyMoved(s: State, s': State, w: Who) {
    && s'.threads.Keys == s.threads.Keys && (forall v :: v in s.threads && v != w ==> s'.threads[v] == s.threads[v])
    && s'.registrar == s.registrar && s'.signature == s.signature && s'.handleToTask == s.handleToTask
  }

  /** What an old thread can do next. */
  lemma Pick(s: State, w: Who) returns (h: Handle)
    requires Inv(s) && w in s.threads && !s.threads[w].pc.Exited?
    ensures StepEnabled(s, w, h) && StepPicks(s.threads[w], h)
  {
    var t := s.threads[w];
    assert PcInTable(w, t);
    hide Inv, TasksOk, ThreadsOk, FlagsExact, VersionsOk, TablesOk, ExitsOk, TableCurrent;
    h := 0;
    if t.pc.Dispatch? {
      if w.Single? {
        h := w.handle;
      } else {
        assert t.tasks.Keys != {};
        h :| h in t.tasks.Keys;
      }
    } else if t.pc.Waking? && t.pc.rest != {} {
      h :| h in t.pc.rest;
    }
  }

  lemma OneStep(s: State, w: Who) returns (h: Handle, s': State)
    requires Inv(s) && w in s.threads && !UpToDate(s, w)
    ensures Enabled(s, Step(w, h, false)) && s' == After(s, Step(w, h, false)) && Inv(s') && OnlyMoved(s, s', w)
    ensures UpToDate(s', w) || Distance(s'.threads[w].pc) < Distance(s.threads[w].pc)
  {
    h := Pick(s, w);
    EnabledStep(s, w, h);
    s' := After(s, Step(w, h, false));
    hide Inv;
    StepInv(s, w, h, false);
    StepCloser(s, w, s.threads[w], h);
    hide Distance, StepThread, StepEnabled, StepFlags, Enabled, StepPicks;
  }

  /** Left alone, a thread comes to see the current table. */
  lemma {:induction false} CatchUp(s: State, w: Who) returns (n: nat, s': State)
    requires Inv(s) && w in s.threads
    ensures CanReach(s, n, s') && Inv(s') && OnlyMoved(s, s', w) && UpToDate(s', w)
    decreases Distance(s.threads[w].pc)
  {
    hide Inv, After, Distance, Enabled, CanReach;
    if UpToDate(s, w) {
      ReachNone(s);
      return 0, s;
    }
    var h, s1 := OneStep(s, w);
    if UpToDate(s1, w) {
      ReachNone(s1);
      n, s' := 0, s1;
    } else {
      n, s' := CatchUp(s1, w);
    }
    ReachOne(s, Step(w, h, false), n, s');
    n := n + 1;
  }

  lemma EnabledStep(s: State, w: Who, h: Handle)
    requires StepEnabled(s, w, h)
    ensures Enabled(s, Step(w, h, false))
  {
  }

  lemma OthersUpToDate(s: State, s': State, w: Who, todo: set<Who>)
    requires OnlyMoved(s, s', w) && UpToDate(s', w) && todo <= s.threads.Keys
    requires forall v :: v in s.threads && v !in todo ==> UpToDate(s, v)
    ensures s'.registrar == s.registrar && todo - {w} <= s'.threads.Keys
    ensures forall v :: v in s'.threads && v !in todo - {w} ==> UpToDate(s', v)
  {
  }

  /** So do all of them. */
  lemma {:induction false} AllCatchUp(s: State, todo: set<Who>) returns (n: nat, s': State)
    requires Inv(s) && todo <= s.threads.Keys && forall w :: w in s.threads && w !in todo ==> UpToDate(s, w)
    ensures CanReach(s, n, s') && Inv(s') && s'.registrar == s.registrar
    ensures forall w :: w in s'.threads ==> UpToDate(s', w)
    decreases |todo|
  {
    hide Inv, CanReach;
    if todo == {} {
      ReachNone(s);
      return 0, s;
    }
    var w :| w in todo;
    var m, s1 := CatchUp(s, w);
    hide OnlyMoved;
    OthersUpToDate(s, s1, w, todo);
    hide UpToDate;
    var k, s2 := AllCatchUp(s1, todo - {w});
    ThenReach(s, m, s1, k, s2);
    n, s' := m + k, s2;
  }

  /** A thread that is up to date keeps no task that is not registered. */
  lemma KeepsRegistered(s: State, w: Who)
    requires Inv(s) && UpToDate(s, w)
    ensures s.threads[w].tasks == if s.threads[w].pc.Exited? then map[] else s.handleToTask
  {
    hide TasksOk, ThreadsOk, FlagsExact, ExitsOk, TableCurrent;
    assert PcInTable(w, s.threads[w]);
    hide TablesOk;
  }

  /** Once all threads are up to date, the one that is joined has left its loop. */
  lemma JoinIsOver(s: State)
    requires Inv(s) && s.registrar.Joining? && forall w :: w in s.threads ==> UpToDate(s, w)
    ensures JoinStops(s) ==> HasExited(s, Joined(s))
  {
    if JoinStops(s) {
      var w := Joined(s);
      assert w in s.threads by {
        hide TasksOk, FlagsExact, VersionsOk, TablesOk, ExitsOk;
        assert Exists(s, w);
      }
      assert s.registrar.h !in s.handleToTask;
      assert PcInTable(w, s.threads[w]) && s.signature > 0;
      KeepsRegistered(s, w);
      hide Inv, TasksOk, ThreadsOk, FlagsExact, VersionsOk, TablesOk, ExitsOk, TableCurrent;
    }
  }

  lemma DrainIsOver(s: State)
    requires Inv(s) && s.registrar.Draining? && forall w :: w in s.threads ==> UpToDate(s, w)
    ensures Unique(s, s.registrar.data)
  {
    forall w | w in s.threads ensures s.registrar.data !in s.threads[w].tasks.Values {
      KeepsRegistered(s, w);
    }
    hide ThreadsOk, FlagsExact, VersionsOk, TablesOk, ExitsOk;
  }

  /** The last part of unregistration returns. */
  lemma ProceedDrains(s: State) returns (s': State)
    requires s.registrar.Draining? && Unique(s, s.registrar.data)
    ensures Enabled(s, Proceed) && s' == After(s, Proceed) && s'.registrar.Outside?
  {
    hide Unique;
    s' := After(s, Proceed);
  }

  lemma ProceedJoins(s: State) returns (s': State)
    requires Inv(s) && s.registrar.Joining? && (JoinStops(s) ==> HasExited(s, Joined(s)))
    ensures Enabled(s, Proceed) && s' == After(s, Proceed) && s'.registrar.Draining? && Inv(s')
  {
    hide Inv;
    s' := After(s, Proceed);
    JoinInv(s);
  }

  lemma DrainReturns(s: State) returns (n: nat, s': State)
    requires Inv(s) && s.registrar.Draining?
    ensures CanReach(s, n, s') && s'.registrar.Outside?
  {
    hide Inv, Unique, CanReach, After, Enabled, UpToDate;
    var m, s1 := AllCatchUp(s, s.threads.Keys);
    DrainIsOver(s1);
    s' := ProceedDrains(s1);
    ReachNone(s');
    ReachOne(s1, Proceed, 0, s');
    ThenReach(s, m, s1, 1, s');
    n := m + 1;
  }

  lemma JoinReturns(s: State) returns (n: nat, s': State)
    requires Inv(s) && s.registrar.Joining?
    ensures CanReach(s, n, s') && s'.registrar.Outside?
  {
    hide Inv, Unique, CanReach, After, Enabled, UpToDate, HasExited, JoinStops, Joined;
    var m, s1 := AllCatchUp(s, s.threads.Keys);
    JoinIsOver(s1);
    var s2 := ProceedJoins(s1);
    var k;
    k, s' := DrainReturns(s2);
    ReachOne(s1, Proceed, k, s');
    ThenReach(s, m, s1, k + 1, s');
    n := m + (k + 1);
  }

  /** In every reachable state a registration or unregistration that is under way can come to its end. */
  lemma CanReturn(run: seq<State>, acts: seq<Action>, n: nat)
    requires Run(run, acts) && n < |run|
    ensures exists k: nat, s' :: CanReach(run[n], k, s') && s'.registrar.Outside?
  {
    RunInv(run, acts, n);
    hide Inv, Run;
    var s := run[n];
    if s.registrar.Joining? {
      var k, s' := JoinReturns(s);
    } else if s.registrar.Draining? {
      var k, s' := DrainReturns(s);
    } else if s.registrar.Spawning? {
      var s' := After(s, Proceed);
      assert CanReach(s', 0, s');
      ReachOne(s, Proceed, 0, s');
      assert CanReach(s, 1, s');
    } else {
      assert CanReach(s, 0, s);
    }
  }
}
