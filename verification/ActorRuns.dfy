/**
  What acquire and release of an actor (lib/Framework/ActorInterface.hpp) decide, over runs and for a
  thread that runs alone: a flagged change is taken once, and by work alone.
 */
module ActorRuns {
  import opened ActorInterface

  // ---------- a change is taken once ----------

  /** The access takes the change flag and goes on towards work. */
  predicate Takes(s: State, a: Action) {
    && a.tid in s.pc && s.pc[a.tid].WrkTestAndSet?
    && After(s, a).pc[a.tid] in {WrkTryLock, WrkClearWaiting(true)}
  }

  /** The access raises the flag, for a new change or for one that could not be worked on. */
  predicate Raises(s: State, a: Action) {
    a.tid in s.pc && (FlagsChange(s, a) || s.pc[a.tid].WrkReflag?)
  }

  lemma {:induction false} StaysTaken(run: seq<State>, acts: seq<Action>, i: nat, n: nat)
    requires Run(run, acts) && i < n < |run| && Takes(run[i], acts[i])
    requires forall k :: i < k < n ==> !Raises(run[k], acts[k])
    ensures !run[n].raised
  {
    hide EffectFrom, NextFrom;
    if i < n - 1 {
      StaysTaken(run, acts, i, n - 1);
    }
    var s, a := run[n - 1], acts[n - 1];
    assert run[n - 1 + 1] == After(s, a);
    RaisedBy(s, s.pc[a.tid], a);
  }

  lemma RaisedBy(s: State, p: Pc, a: Action)
    ensures p.WrkTestAndSet? ==> !EffectFrom(s, p, a).raised
    ensures EffectFrom(s, p, a).raised ==>
      s.raised || p.FlagClear? || p.ExtFlag? || p.WrkReflag? || (p.WrkInTask? && a.choice == 0)
  {
  }

  /** Between two accesses that take the flag some access raised it. */
  lemma TakenOnce(run: seq<State>, acts: seq<Action>, i: nat, j: nat)
    requires Run(run, acts) && i < j < |acts| && Takes(run[i], acts[i]) && Takes(run[j], acts[j])
    ensures exists k :: i < k < j && Raises(run[k], acts[k])
  {
    if forall k :: i < k < j ==> !Raises(run[k], acts[k]) {
      StaysTaken(run, acts, i, j);
      assert false;
    }
  }

  /** The work tasks that the first n accesses start. */
  function Works(run: seq<State>, acts: seq<Action>, n: nat): nat
    requires n <= |acts| < |run|
  {
    if n == 0 then 0 else Works(run, acts, n - 1) + One(StartsWork(run[n - 1], acts[n - 1]))
  }

  /** The changes that the first n accesses flag. */
  function Changes(run: seq<State>, acts: seq<Action>, n: nat): nat
    requires n <= |acts| < |run|
  {
    if n == 0 then 0
    else
      var s, a := run[n - 1], acts[n - 1];
      Changes(run, acts, n - 1) + One(a.tid in s.pc && FlagsChange(s, a))
  }

  function Carriers(s: State): set<Tid> {
    set t | t in s.pc && Carries(s.pc[t])
  }

  lemma CarriersMove(s: State, s': State, t: Tid)
    requires t in s.pc && t in s'.pc && s'.pc == s.pc[t := s'.pc[t]]
    ensures |Carriers(s')| + One(Carries(s.pc[t])) == |Carriers(s)| + One(Carries(s'.pc[t]))
  {
    assert Carriers(s') - {t} == Carriers(s) - {t};
    assert |Carriers(s)| == |Carriers(s) - {t}| + One(Carries(s.pc[t]));
    assert |Carriers(s')| == |Carriers(s') - {t}| + One(Carries(s'.pc[t]));
  }

  /** An access passes a flagged change on, from the flag to its thread, back, or into work; it makes none up. */
  lemma StepPassesOn(s: State, a: Action)
    requires a.tid in s.pc
    ensures var s' := After(s, a);
      && s'.pc == s.pc[a.tid := s'.pc[a.tid]]
      && One(s'.raised) + One(Carries(s'.pc[a.tid])) + One(StartsWork(s, a))
         <= One(s.raised) + One(Carries(s.pc[a.tid])) + One(FlagsChange(s, a))
  {
    PassesOn(s, s.pc[a.tid], a);
    hide EffectFrom, NextFrom, Carries;
  }

  lemma PassesOn(s: State, p: Pc, a: Action)
    ensures var s', q := EffectFrom(s, p, a), NextFrom(s, p, a);
      && s'.pc == s.pc
      && One(s'.raised) + One(Carries(q)) + One(p.WrkStart?)
         <= One(s.raised) + One(Carries(p)) + One(p.FlagClear? || p.ExtFlag? || (p.WrkInTask? && a.choice == 0))
  {
  }

  /** Work tasks never outnumber the changes that were flagged. */
  lemma {:induction false} WorkNeedsChanges(run: seq<State>, acts: seq<Action>, n: nat)
    requires Run(run, acts) && n <= |acts|
    ensures Works(run, acts, n) + |Carriers(run[n])| + One(run[n].raised) <= Changes(run, acts, n)
  {
    if n == 0 {
      assert Carriers(run[0]) == {};
    } else {
      WorkNeedsChanges(run, acts, n - 1);
      var s, a := run[n - 1], acts[n - 1];
      assert run[n - 1 + 1] == After(s, a);
      StepPassesOn(s, a);
      hide Carriers, Carries, After, FlagsChange;
      CarriersMove(s, After(s, a), a.tid);
    }
  }

  // ---------- callers go first ----------

  /** A worker looks at the change flag exactly if no caller is between acquire and release. */
  lemma CallersFirst(run: seq<State>, acts: seq<Action>, n: nat)
    requires Run(run, acts) && n < |acts| && run[n].pc[acts[n].tid].WrkReadCount?
    ensures run[n + 1].pc[acts[n].tid].WrkTestAndSet? <==> Callers(run[n]) == {}
  {
    RunInv(run, acts, n);
    assert run[n + 1] == After(run[n], acts[n]);
  }

  // ---------- a thread alone ----------

  /** The state after thread t has made n accesses, all with the same choice. */
  function Alone(s: State, t: Tid, choice: nat, n: nat): (s': State)
    requires t in s.pc
    ensures t in s'.pc
  {
    if n == 0 then s else After(Alone(s, t, choice, n - 1), Action(t, choice))
  }

  /** An access looks at shared fields alone. */
  lemma FromElsewhere(u: State, pc: map<Tid, Pc>, p: Pc, a: Action)
    ensures EffectFrom(u.(pc := pc), p, a) == EffectFrom(u, p, a).(pc := pc)
  {
  }

  lemma NextFromElsewhere(u: State, pc: map<Tid, Pc>, p: Pc, a: Action)
    ensures NextFrom(u.(pc := pc), p, a) == NextFrom(u, p, a)
  {
  }

  /** One more access of a thread that stands at p. */
  lemma OneMore(s: State, t: Tid, choice: nat, n: nat, u: State, p: Pc, u': State, q: Pc)
    requires t in s.pc && t in u.pc && Alone(s, t, choice, n) == Go(u, t, p) && u'.pc == u.pc
    requires EffectFrom(u, p, Action(t, choice)) == u' && NextFrom(u, p, Action(t, choice)) == q
    ensures Alone(s, t, choice, n + 1) == Go(u', t, q)
  {
    var a, v := Action(t, choice), Go(u, t, p);
    FromElsewhere(u, u.pc[t := p], p, a);
    NextFromElsewhere(u, u.pc[t := p], p, a);
    hide EffectFrom, NextFrom;
    assert u.pc[t := p][t := q] == u.pc[t := q];
  }

  lemma AloneStart(s: State, t: Tid, choice: nat)
    requires t in s.pc
    ensures Alone(s, t, choice, 0) == s == Go(s, t, s.pc[t])
  {
  }

  /** isReady without waiting, alone: it takes the flag exactly if it is raised and there is no caller. */
  lemma TakeAlone(s: State, t: Tid)
    requires t in s.pc && s.pc[t].Idle?
    ensures
      if s.externalAcquired != 0 then Alone(s, t, 1, 2) == s
      else if !s.raised then Alone(s, t, 1, 3) == s
      else Alone(s, t, 1, 3) == Go(s.(raised := false), t, WrkTryLock)
  {
    hide Alone, Go;
    AloneStart(s, t, 1);
    OneMore(s, t, 1, 0, s, Idle, s, WrkReadCount(NoWait));
    if s.externalAcquired != 0 {
      OneMore(s, t, 1, 1, s, WrkReadCount(NoWait), s, Idle);
      return;
    }
    OneMore(s, t, 1, 1, s, WrkReadCount(NoWait), s, WrkTestAndSet(NoWait));
    if s.raised {
      OneMore(s, t, 1, 2, s, WrkTestAndSet(NoWait), s.(raised := false), WrkTryLock);
    } else {
      OneMore(s, t, 1, 2, s, WrkTestAndSet(NoWait), s, Idle);
    }
  }

  /** workerThreadAcquire without waiting, alone: it succeeds exactly if it may, and else leaves all as it was. */
  lemma AcquireAlone(s: State, t: Tid)
    requires Inv(s) && t in s.pc && s.pc[t].Idle?
    ensures s.raised && Callers(s) == {} && s.callLock.Free? ==>
      Alone(s, t, 1, 4) == Go(s.(raised := false, callLock := By(t)), t, WrkStart)
    ensures !(s.raised && Callers(s) == {} && s.callLock.Free?) ==>
      exists n :: 2 <= n <= 5 && Alone(s, t, 1, n) == s
  {
    hide Alone, Go;
    assert s.externalAcquired == 0 <==> Callers(s) == {};
    hide Callers, Inv;
    AloneStart(s, t, 1);
    TakeAlone(s, t);
    if s.externalAcquired == 0 && s.raised {
      var taken := s.(raised := false);
      if s.callLock.Free? {
        OneMore(s, t, 1, 3, taken, WrkTryLock, taken.(callLock := By(t)), WrkStart);
      } else {
        OneMore(s, t, 1, 3, taken, WrkTryLock, taken, WrkReflag);
        OneMore(s, t, 1, 4, taken, WrkReflag, s, Idle);
      }
    }
  }

  /** Does thread t, alone, come from s to s'? */
  ghost predicate Leads(s: State, t: Tid, choice: nat, s': State) {
    t in s.pc && exists n: nat :: Alone(s, t, choice, n) == s'
  }

  lemma LeadsStart(s: State, t: Tid, choice: nat)
    requires t in s.pc
    ensures Leads(s, t, choice, Go(s, t, s.pc[t]))
  {
    AloneStart(s, t, choice);
  }

  lemma LeadsOn(s: State, t: Tid, choice: nat, u: State, p: Pc, u': State, q: Pc)
    requires t in u.pc && Leads(s, t, choice, Go(u, t, p)) && u'.pc == u.pc
    requires EffectFrom(u, p, Action(t, choice)) == u' && NextFrom(u, p, Action(t, choice)) == q
    ensures Leads(s, t, choice, Go(u', t, q))
  {
    hide Alone, Go, EffectFrom, NextFrom;
    var n: nat :| Alone(s, t, choice, n) == Go(u, t, p);
    OneMore(s, t, choice, n, u, p, u', q);
  }

  /** A work task, alone, from its start to the end of workerThreadRelease. */
  lemma WorkAlone(s: State, t: Tid)
    requires t in s.pc && s.pc[t].WrkStart?
    ensures Leads(s, t, 1, Go(s.(callLock := Free, pending := false), t, Idle))
  {
    hide Leads, Go;
    LeadsStart(s, t, 1);
    var started := s.(pending := false);
    var done := started.(callLock := Free);
    WorkAccesses(s, Action(t, 1));
    hide EffectFrom, NextFrom;
    LeadsOn(s, t, 1, s, WrkStart, started, WrkInTask);
    LeadsOn(s, t, 1, started, WrkInTask, started, WrkUnlock);
    LeadsOn(s, t, 1, started, WrkUnlock, done, WrkNotify);
    LeadsOn(s, t, 1, done, WrkNotify, done, Idle);
  }

  lemma WorkAccesses(s: State, a: Action)
    requires a.choice == 1
    ensures var started := s.(pending := false);
      var done := started.(callLock := Free);
      && EffectFrom(s, WrkStart, a) == started && NextFrom(s, WrkStart, a) == WrkInTask
      && EffectFrom(started, WrkInTask, a) == started && NextFrom(started, WrkInTask, a) == WrkUnlock
      && EffectFrom(started, WrkUnlock, a) == done && NextFrom(started, WrkUnlock, a) == WrkNotify
      && EffectFrom(done, WrkNotify, a) == done && NextFrom(done, WrkNotify, a) == Idle
  {
  }

  /** externalCallAcquire, alone: with the actor free it comes to the call, and else it sleeps without the mutex. */
  lemma CallAlone(s: State, t: Tid)
    requires t in s.pc && s.pc[t].Idle? && s.mutex.Free?
    ensures var more := s.(externalAcquired := s.externalAcquired + 1);
      if s.callLock.Free? then Leads(s, t, 0, Go(more.(callLock := By(t)), t, ExtInCall))
      else Leads(s, t, 0, Go(more, t, ExtSleeping))
  {
    hide Leads, Go;
    LeadsStart(s, t, 0);
    var held := s.(mutex := By(t));
    var more := held.(externalAcquired := s.externalAcquired + 1);
    LeadsOn(s, t, 0, s, Idle, s, ExtLockMutex);
    LeadsOn(s, t, 0, s, ExtLockMutex, held, ExtIncrement);
    LeadsOn(s, t, 0, held, ExtIncrement, more, ExtTryLock);
    if s.callLock.Free? {
      var mine := more.(callLock := By(t));
      LeadsOn(s, t, 0, more, ExtTryLock, mine, ExtUnlockMutex);
      LeadsOn(s, t, 0, mine, ExtUnlockMutex, mine.(mutex := Free), ExtInCall);
    } else {
      LeadsOn(s, t, 0, more, ExtTryLock, more.(mutex := Free), ExtSleeping);
    }
  }

  /** externalCallRelease, alone: the call is no longer counted, the actor is free and a change is flagged. */
  lemma ReleaseAlone(s: State, t: Tid)
    requires t in s.pc && s.pc[t].ExtInCall?
    ensures Leads(s, t, 0, Go(Flagged(s.(externalAcquired := s.externalAcquired - 1, callLock := Free)), t, Idle))
  {
    hide Leads, Go;
    LeadsStart(s, t, 0);
    var less := s.(externalAcquired := s.externalAcquired - 1);
    var free := less.(callLock := Free);
    ReleaseAccesses(s, Action(t, 0));
    hide EffectFrom, NextFrom;
    LeadsOn(s, t, 0, s, ExtInCall, less, ExtUnlock);
    LeadsOn(s, t, 0, less, ExtUnlock, free, ExtFlag);
    LeadsOn(s, t, 0, free, ExtFlag, Flagged(free), ExtNotify);
    LeadsOn(s, t, 0, Flagged(free), ExtNotify, Flagged(free), Idle);
  }

  lemma ReleaseAccesses(s: State, a: Action)
    ensures var less := s.(externalAcquired := s.externalAcquired - 1);
      var free := less.(callLock := Free);
      && EffectFrom(s, ExtInCall, a) == less && NextFrom(s, ExtInCall, a) == ExtUnlock
      && EffectFrom(less, ExtUnlock, a) == free && NextFrom(less, ExtUnlock, a) == ExtFlag
      && EffectFrom(free, ExtFlag, a) == Flagged(free) && NextFrom(free, ExtFlag, a) == ExtNotify
      && EffectFrom(Flagged(free), ExtNotify, a) == Flagged(free) && NextFrom(Flagged(free), ExtNotify, a) == Idle
  {
  }

  // ---------- a wait is announced ----------

  /** Between announcing its wait and taking that back. */
  predicate Waits(p: Pc) {
    || p.WrkLockMutex? || p.WrkNotReady? || p.WrkSleeping? || p.WrkClearWaiting?
    || p == WrkReadCount(InWait) || p == WrkTestAndSet(InWait)
  }

  /** No two threads wait as workers at once: a task is run by one thread at a time. */
  predicate OneWorker(s: State) {
    forall t, u :: t in s.pc && u in s.pc && Waits(s.pc[t]) && Waits(s.pc[u]) ==> t == u
  }

  /** With one worker at a time, a flagger finds the wait announced exactly while the worker waits. */
  lemma {:induction false} WaitAnnounced(run: seq<State>, acts: seq<Action>, n: nat)
    requires Run(run, acts) && n < |run| && forall i :: 0 <= i <= n ==> OneWorker(run[i])
    ensures run[n].waiting <==> exists t :: t in run[n].pc && Waits(run[n].pc[t])
  {
    if n > 0 {
      WaitAnnounced(run, acts, n - 1);
      var s, a := run[n - 1], acts[n - 1];
      assert run[n - 1 + 1] == After(s, a);
      assert OneWorker(run[n]);
      StepAnnounces(s, a);
    }
  }

  lemma StepWaits(s: State, a: Action)
    requires a.tid in s.pc
    ensures var s' := After(s, a);
      && s'.pc == s.pc[a.tid := s'.pc[a.tid]]
      && (!Waits(s.pc[a.tid]) && Waits(s'.pc[a.tid]) ==> s'.waiting)
      && (Waits(s.pc[a.tid]) && !Waits(s'.pc[a.tid]) ==> !s'.waiting)
      && (Waits(s.pc[a.tid]) == Waits(s'.pc[a.tid]) ==> s'.waiting == s.waiting)
  {
  }

  lemma StepAnnounces(s: State, a: Action)
    requires a.tid in s.pc && OneWorker(s) && OneWorker(After(s, a))
    requires s.waiting <==> exists t :: t in s.pc && Waits(s.pc[t])
    ensures After(s, a).waiting <==> exists t :: t in After(s, a).pc && Waits(After(s, a).pc[t])
  {
    StepWaits(s, a);
    var s' := After(s, a);
    hide After, Waits;
    forall t | t in s.pc && t != a.tid ensures t in s'.pc && s'.pc[t] == s.pc[t] {
    }
    assert a.tid in s'.pc;
  }
}
