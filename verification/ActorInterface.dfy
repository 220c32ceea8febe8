/**
  Exclusive access to an actor (lib/Framework/ActorInterface.hpp) as a step system: any number of
  threads act as external callers, workers and flaggers, one atomic access at a time. A thread in a
  timed wait may wake at any moment.
 */
module ActorInterface {

  type Tid = nat

  /** Where isReady is evaluated from. */
  datatype Site = NoWait | FirstCheck | InWait

  /** The next atomic access of a thread. */
  datatype Pc =
    | Idle
      // externalCallAcquire
    | ExtLockMutex | ExtIncrement | ExtTryLock | ExtSleeping | ExtUnlockMutex
      // between acquire and externalCallRelease, then the release
    | ExtInCall | ExtUnlock | ExtFlag | ExtNotify
      // workerThreadAcquire
    | WrkReadCount(site: Site) | WrkTestAndSet(site: Site)
    | WrkSetWaiting | WrkLockMutex | WrkNotReady | WrkSleeping
    | WrkClearWaiting(ready: bool) | WrkUnlockMutex(ready: bool)
    | WrkTryLock | WrkReflag
      // workTask, workerThreadRelease
    | WrkStart | WrkInTask | WrkUnlock | WrkNotify
      // flagExternalChange
    | FlagClear | FlagNotify

  /** Who holds a lock. */
  datatype Owner = Free | By(tid: Tid)

  /**
    raised: the change flag is clear, that is, a change is flagged.
    pending: some change was flagged and no work task has started since (kept for the statement only).
   */
  datatype State = State(
    pc: map<Tid, Pc>,
    raised: bool,
    externalAcquired: int,
    callLock: Owner,
    mutex: Owner,
    waiting: bool,
    pending: bool)

  /** No thread is inside a call and no change is flagged. */
  predicate Init(s: State) {
    && (forall t :: t in s.pc ==> s.pc[t] == Idle)
    && !s.raised && s.externalAcquired == 0 && s.callLock.Free? && s.mutex.Free? && !s.waiting && !s.pending
  }

  function Go(s: State, t: Tid, p: Pc): State {
    s.(pc := s.pc[t := p])
  }

  function Flagged(s: State): State {
    s.(raised := true, pending := true)
  }

  /** What a failed isReady leads to, by where it was called. */
  function NotReady(site: Site): Pc {
    match site
    case NoWait => Idle
    case FirstCheck => WrkSetWaiting
    case InWait => WrkNotReady
  }

  function Ready(site: Site): Pc {
    match site
    case NoWait => WrkTryLock
    case FirstCheck => WrkTryLock
    case InWait => WrkClearWaiting(true)
  }

  /** A thread and, where its program leaves a choice, what it chooses. */
  datatype Action = Action(tid: Tid, choice: nat)

  /** Taking the mutex waits until it is free; everything else can always happen. */
  predicate Enabled(s: State, t: Tid) {
    && t in s.pc
    && (s.pc[t].ExtLockMutex? || s.pc[t].ExtSleeping? || s.pc[t].WrkLockMutex? || s.pc[t].WrkSleeping? ==>
      s.mutex.Free?)
  }

  /** Where a thread that stands at p is after its access. */
  function NextFrom(s: State, p: Pc, a: Action): Pc {
    match p
    case Idle =>
      if a.choice == 0 then ExtLockMutex else if a.choice == 1 then WrkReadCount(NoWait)
      else if a.choice == 2 then WrkReadCount(FirstCheck) else FlagClear
    case ExtLockMutex => ExtIncrement
    case ExtIncrement => ExtTryLock
    case ExtTryLock => if s.callLock.By? then ExtSleeping else ExtUnlockMutex
    case ExtSleeping => ExtTryLock
    case ExtUnlockMutex => ExtInCall
    case ExtInCall => ExtUnlock
    case ExtUnlock => ExtFlag
    case ExtFlag => ExtNotify
    case ExtNotify => Idle
    case WrkReadCount(site) => if s.externalAcquired != 0 then NotReady(site) else WrkTestAndSet(site)
    case WrkTestAndSet(site) => if s.raised then Ready(site) else NotReady(site)
    case WrkSetWaiting => WrkLockMutex
    case WrkLockMutex => WrkReadCount(InWait)
    case WrkNotReady => if a.choice == 0 then WrkSleeping else WrkClearWaiting(false)   // sleep on, or the time is over
    case WrkSleeping => WrkReadCount(InWait)
    case WrkClearWaiting(ready) => WrkUnlockMutex(ready)
    case WrkUnlockMutex(ready) => if ready then WrkTryLock else Idle
    case WrkTryLock => if s.callLock.By? then WrkReflag else WrkStart
    case WrkReflag => Idle
    case WrkStart => WrkInTask
    case WrkInTask => if a.choice == 0 then WrkInTask else WrkUnlock   // flagInternalChange, or the end of the task
    case WrkUnlock => WrkNotify
    case WrkNotify => Idle
    case FlagClear => FlagNotify
    case FlagNotify => Idle
  }

  function NextPc(s: State, a: Action): Pc
    requires a.tid in s.pc
  {
    NextFrom(s, s.pc[a.tid], a)
  }

  /** What the access of a thread that stands at p does to the shared fields. */
  function EffectFrom(s: State, p: Pc, a: Action): State {
    match p
    case ExtLockMutex => s.(mutex := By(a.tid))
    case ExtIncrement => s.(externalAcquired := s.externalAcquired + 1)
    case ExtTryLock => if s.callLock.By? then s.(mutex := Free) else s.(callLock := By(a.tid))
    case ExtSleeping => s.(mutex := By(a.tid))
    case ExtUnlockMutex => s.(mutex := Free)
    case ExtInCall => s.(externalAcquired := s.externalAcquired - 1)
    case ExtUnlock => s.(callLock := Free)
    case ExtFlag => Flagged(s)
    case WrkTestAndSet(_) => s.(raised := false)
    case WrkSetWaiting => s.(waiting := true)
    case WrkLockMutex => s.(mutex := By(a.tid))
    case WrkNotReady => if a.choice == 0 then s.(mutex := Free) else s
    case WrkSleeping => s.(mutex := By(a.tid))
    case WrkClearWaiting(_) => s.(waiting := false)
    case WrkUnlockMutex(_) => s.(mutex := Free)
    case WrkTryLock => if s.callLock.By? then s else s.(callLock := By(a.tid))
    case WrkReflag => s.(raised := true)
    case WrkStart => s.(pending := false)
    case WrkInTask => if a.choice == 0 then Flagged(s) else s
    case WrkUnlock => s.(callLock := Free)
    case FlagClear => Flagged(s)
    case _ => s
  }

  function Effect(s: State, a: Action): State
    requires a.tid in s.pc
  {
    EffectFrom(s, s.pc[a.tid], a)
  }

  /** One atomic access. */
  function After(s: State, a: Action): State
    requires a.tid in s.pc
  {
    Go(Effect(s, a), a.tid, NextPc(s, a))
  }

  // ---------- invariants ----------

  /** In possession of the actor. */
  predicate HasActor(p: Pc) {
    p.ExtUnlockMutex? || p.ExtInCall? || p.ExtUnlock? || p.WrkStart? || p.WrkInTask? || p.WrkUnlock?
  }

  predicate HasMutex(p: Pc) {
    || p.ExtIncrement? || p.ExtTryLock? || p.ExtUnlockMutex?
    || p == WrkReadCount(InWait) || p == WrkTestAndSet(InWait)
    || p.WrkNotReady? || p.WrkClearWaiting? || p.WrkUnlockMutex?
  }

  /** Between the increment and the decrement of the external counter. */
  predicate Counted(p: Pc) {
    p.ExtTryLock? || p.ExtSleeping? || p.ExtUnlockMutex? || p.ExtInCall?
  }

  /** Has taken the change flag and is about to lock, to work, or to raise the flag again. */
  predicate Carries(p: Pc) {
    || p == WrkClearWaiting(true) || p == WrkUnlockMutex(true)
    || p.WrkTryLock? || p.WrkReflag? || p.WrkStart?
  }

  function Callers(s: State): set<Tid> {
    set t | t in s.pc && Counted(s.pc[t])
  }

  predicate Owned(pc: map<Tid, Pc>, lock: Owner, has: Pc -> bool) {
    forall t :: t in pc ==> (has(pc[t]) <==> lock == By(t))
  }

  predicate Inv(s: State) {
    && Owned(s.pc, s.callLock, HasActor)
    && Owned(s.pc, s.mutex, HasMutex)
    && s.externalAcquired == |Callers(s)|
    && (s.pending && !s.raised ==> exists t :: t in s.pc && Carries(s.pc[t]))
  }

  lemma InitInv(s: State)
    requires Init(s)
    ensures Inv(s)
  {
    assert Callers(s) == {};
  }

  /** An access counts its own thread. */
  lemma StepCounts(s: State, a: Action)
    requires a.tid in s.pc
    ensures Effect(s, a).pc == s.pc
    ensures Effect(s, a).externalAcquired + One(Counted(s.pc[a.tid])) == s.externalAcquired + One(Counted(NextPc(s, a)))
  {
  }

  /** A lock moves only with the thread that steps. */
  lemma StepMovesCallLock(s: State, a: Action)
    requires a.tid in s.pc
    ensures LockMoves(s.callLock, Effect(s, a).callLock, a.tid, HasActor(s.pc[a.tid]), HasActor(NextPc(s, a)))
  {
  }

  lemma StepMovesMutex(s: State, a: Action)
    requires Enabled(s, a.tid)
    ensures LockMoves(s.mutex, Effect(s, a).mutex, a.tid, HasMutex(s.pc[a.tid]), HasMutex(NextPc(s, a)))
  {
  }

  function One(b: bool): nat {
    if b then 1 else 0
  }

  predicate LockMoves(lock: Owner, lock': Owner, t: Tid, had: bool, has: bool) {
    if had == has then lock' == lock
    else if has then lock == Free && lock' == By(t)
    else lock' == Free
  }

  lemma LockStaysOwned(pc: map<Tid, Pc>, p: Pc, lock: Owner, lock': Owner, t: Tid, has: Pc -> bool)
    requires t in pc && Owned(pc, lock, has) && LockMoves(lock, lock', t, has(pc[t]), has(p))
    ensures Owned(pc[t := p], lock', has)
  {
  }

  lemma CallersMove(s: State, s': State, t: Tid)
    requires t in s.pc && t in s'.pc && s'.pc == s.pc[t := s'.pc[t]]
    ensures |Callers(s')| + One(Counted(s.pc[t])) == |Callers(s)| + One(Counted(s'.pc[t]))
  {
    assert Callers(s') - {t} == Callers(s) - {t};
    assert |Callers(s)| == |Callers(s) - {t}| + One(Counted(s.pc[t]));
    assert |Callers(s')| == |Callers(s') - {t}| + One(Counted(s'.pc[t]));
  }

  lemma StepKeepsLocksAndCount(s: State, a: Action)
    requires Inv(s) && Enabled(s, a.tid)
    ensures var s' := After(s, a);
      && Owned(s'.pc, s'.callLock, HasActor) && Owned(s'.pc, s'.mutex, HasMutex)
      && s'.externalAcquired == |Callers(s')|
  {
    StepMovesMutex(s, a);
    hide LockMoves, Owned, HasActor, HasMutex, Counted, Effect, NextPc;
    StepCounts(s, a);
    StepMovesCallLock(s, a);
    LockStaysOwned(s.pc, NextPc(s, a), s.callLock, Effect(s, a).callLock, a.tid, HasActor);
    LockStaysOwned(s.pc, NextPc(s, a), s.mutex, Effect(s, a).mutex, a.tid, HasMutex);
    CallersMove(s, After(s, a), a.tid);
  }

  /** A change that is pending and not raised is carried, before and after. */
  lemma StepKeepsChange(s: State, a: Action)
    requires Inv(s) && a.tid in s.pc
    ensures var s' := After(s, a);
      s'.pending && !s'.raised ==> exists u :: u in s'.pc && Carries(s'.pc[u])
  {
    var s' := After(s, a);
    if s'.pending && !s'.raised {
      if Carries(NextPc(s, a)) {
        assert Carries(s'.pc[a.tid]);
      } else {
        StepDoesNotDrop(s, a);
        hide Effect, NextPc, Carries;
        var u :| u in s.pc && Carries(s.pc[u]);
        assert u in s'.pc && Carries(s'.pc[u]);
      }
    }
  }

  lemma StepDoesNotDrop(s: State, a: Action)
    requires a.tid in s.pc && Effect(s, a).pending && !Effect(s, a).raised && !Carries(NextPc(s, a))
    ensures s.pending && !s.raised && !Carries(s.pc[a.tid]) && Effect(s, a).pc == s.pc
  {
  }

  // ---------- every run ----------

  /** A run: acts[i] leads from run[i] to run[i + 1]. */
  predicate Run(run: seq<State>, acts: seq<Action>) {
    && |run| == |acts| + 1 && Init(run[0])
    && forall i :: 0 <= i < |acts| ==> Enabled(run[i], acts[i].tid) && run[i + 1] == After(run[i], acts[i])
  }

  lemma {:induction false} RunInv(run: seq<State>, acts: seq<Action>, n: nat)
    requires Run(run, acts) && n < |run|
    ensures Inv(run[n])
  {
    if n == 0 {
      InitInv(run[0]);
    } else {
      RunInv(run, acts, n - 1);
      var s, a := run[n - 1], acts[n - 1];
      assert Enabled(s, a.tid) && run[n - 1 + 1] == After(s, a);
      StepKeepsLocksAndCount(s, a);
      StepKeepsChange(s, a);
    }
  }

  /** In every reachable state at most one thread has the actor. */
  lemma MutualExclusion(run: seq<State>, acts: seq<Action>, n: nat, t: Tid, u: Tid)
    requires Run(run, acts) && n < |run|
    requires t in run[n].pc && u in run[n].pc && HasActor(run[n].pc[t]) && HasActor(run[n].pc[u])
    ensures t == u
  {
    RunInv(run, acts, n);
  }

  /** In every reachable state the counter is the number of callers between increment and decrement. */
  lemma CounterIsExact(run: seq<State>, acts: seq<Action>, n: nat)
    requires Run(run, acts) && n < |run|
    ensures run[n].externalAcquired == |Callers(run[n])|
  {
    RunInv(run, acts, n);
  }

  /** The access flags a change. */
  predicate FlagsChange(s: State, a: Action)
    requires a.tid in s.pc
  {
    s.pc[a.tid].FlagClear? || s.pc[a.tid].ExtFlag? || (s.pc[a.tid].WrkInTask? && a.choice == 0)
  }

  predicate StartsWork(s: State, a: Action) {
    a.tid in s.pc && s.pc[a.tid].WrkStart?
  }

  /**
    No flagged change is lost: from the access that flags it on, as long as no work task has
    started, the flag is raised or a worker carries it.
   */
  lemma NoLostChange(run: seq<State>, acts: seq<Action>, i: nat, n: nat)
    requires Run(run, acts) && i < n < |run|
    requires acts[i].tid in run[i].pc && FlagsChange(run[i], acts[i])
    requires forall j :: i < j < n ==> !StartsWork(run[j], acts[j])
    ensures run[n].raised || exists u :: u in run[n].pc && Carries(run[n].pc[u])
  {
    StaysPending(run, acts, i, n);
    RunInv(run, acts, n);
  }

  lemma {:induction false} StaysPending(run: seq<State>, acts: seq<Action>, i: nat, n: nat)
    requires Run(run, acts) && i < n < |run|
    requires acts[i].tid in run[i].pc && FlagsChange(run[i], acts[i])
    requires forall j :: i < j < n ==> !StartsWork(run[j], acts[j])
    ensures run[n].pending
  {
    hide EffectFrom, NextFrom;
    if i < n - 1 {
      StaysPending(run, acts, i, n - 1);
    }
    var s, a := run[n - 1], acts[n - 1];
    assert run[n - 1 + 1] == After(s, a);
    StepKeepsPending(s, s.pc[a.tid], a);
  }

  lemma StepKeepsPending(s: State, p: Pc, a: Action)
    ensures s.pending && !p.WrkStart? ==> EffectFrom(s, p, a).pending
    ensures p.FlagClear? || p.ExtFlag? || (p.WrkInTask? && a.choice == 0) ==> EffectFrom(s, p, a).pending
  {
  }
}
