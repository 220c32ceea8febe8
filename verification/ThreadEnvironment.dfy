/**
  ThreadEnvironment (lib/Framework/ThreadEnvironment.cpp) as a step system: one registering thread
  at a time (the registration mutex), and pool or single-task threads that work from their own,
  possibly stale, copy of the task table. A section under _handleUpdateMutex is one step. Which task
  of its table a thread tries next is left open.
 */
module ThreadEnvironment {
  import opened Values

  type Handle = nat
  /** A TaskData object; every registration makes a new one. */
  type Task = nat
  type Table = map<Handle, Task>

  /** A thread of the pool at its index, or the thread of one handle. */
  datatype Who = Pool(index: nat) | Single(handle: Handle)

  datatype Pc =
    | Check                                        // compare the signature
    | Refresh                                      // copy the table
    | Dispatch                                     // try the flag of some task
    | Running(h: Handle)                           // inside task(waitOnce)
    | Waking(h: Handle, rest: set<Handle>)         // in wakeAllBusyTasks
    | Probing(h: Handle, rest: set<Handle>, other: Handle)   // got another task's flag, about to clear it
    | Clearing(h: Handle)                          // about to clear the flag
    | Exited

  datatype Thread = Thread(pc: Pc, signature: nat, tasks: Table)

  /** The thread inside registerTask or unregisterTask. */
  datatype Registrar =
    | Outside
    | Spawning(h: Handle)                          // registered, about to start a thread
    | Joining(h: Handle, data: Task)               // unregistered, about to join
    | Draining(h: Handle, data: Task)              // waits until data is unique

  datatype Flag = Clear | Set(owner: Who)

  /** versions[k] is the table as it was when the signature was k; kept for the statement only. */
  datatype State = State(
    numThreads: nat,
    handleToTask: Table,
    signature: nat,
    poolSize: nat,
    threads: map<Who, Thread>,
    flags: map<Task, Flag>,
    nextTask: Task,
    registrar: Registrar,
    versions: seq<Table>)

  datatype Action =
    | Step(w: Who, h: Handle, again: bool)
    | Register(h: Handle)
    | Unregister(h: Handle)
    | Proceed

  function Init(numThreads: nat): State {
    State(numThreads, map[], 0, 0, map[], map[], 0, Outside, [map[]])
  }

  // ---------- threads ----------

  predicate StepEnabled(s: State, w: Who, h: Handle) {
    && w in s.threads
    && var t := s.threads[w];
    match t.pc
    case Dispatch => h in t.tasks && (w.Single? ==> h == w.handle)
    case Waking(_, rest) => rest != {} ==> h in rest
    case Exited => false
    case _ => true
  }

  /** Is the thread to leave its loop, given the table it just copied? */
  predicate Leaves(w: Who, tasks: Table) {
    match w
    case Pool(index) => index >= |tasks|
    case Single(handle) => handle !in tasks
  }

  function FlagOf(s: State, t: Thread, h: Handle): Flag {
    if h in t.tasks && t.tasks[h] in s.flags then s.flags[t.tasks[h]] else Clear
  }

  function StepThread(s: State, w: Who, t: Thread, h: Handle, again: bool): Thread {
    match t.pc
    case Check => t.(pc := if s.signature != t.signature then Refresh else Dispatch)
    case Refresh =>
      if Leaves(w, s.handleToTask) then Thread(Exited, s.signature, map[])
      else Thread(Dispatch, s.signature, s.handleToTask)
    case Dispatch => t.(pc := if w.Single? || FlagOf(s, t, h).Clear? then Running(h) else Check)
    case Running(x) => t.(pc := if w.Single? then Check else if again then Waking(x,
      t.tasks.Keys - {x}) else Clearing(x))
    case Waking(x, rest) =>
      t.(pc := if rest == {} then Clearing(x) else if FlagOf(s, t, h).Clear? then Probing(x, rest - {h},
        h) else Waking(x, rest - {h}))
    case Probing(x, rest, _) => t.(pc := Waking(x, rest))
    case Clearing(_) => t.(pc := Check)
    case Exited => t
  }

  function StepFlags(s: State, w: Who, t: Thread, h: Handle): map<Task, Flag> {
    match t.pc
    case Dispatch => if w.Pool? && h in t.tasks &&
      FlagOf(s, t, h).Clear? then s.flags[t.tasks[h] := Set(w)] else s.flags
    case Waking(_, rest) => if rest != {} && h in t.tasks &&
      FlagOf(s, t, h).Clear? then s.flags[t.tasks[h] := Set(w)] else s.flags
    case Probing(_, _, other) => if other in t.tasks then s.flags[t.tasks[other] := Clear] else s.flags
    case Clearing(x) => if x in t.tasks then s.flags[t.tasks[x] := Clear] else s.flags
    case _ => s.flags
  }

  // ---------- registration ----------

  function Spawn(s: State, w: Who): State {
    s.(threads := s.threads[w := Thread(Check, 0, map[])], registrar := Outside)
  }

  /** Does the join stop a thread? */
  predicate JoinStops(s: State) {
    s.numThreads == 0 || s.poolSize > |s.handleToTask|
  }

  /** The thread that unregisterTask joins. */
  function Joined(s: State): Who
    requires s.registrar.Joining? && JoinStops(s)
  {
    if s.numThreads == 0 then Single(s.registrar.h) else Pool(s.poolSize - 1)
  }

  /** The thread is erased, or the pool resized. */
  function WithoutJoined(s: State): State
    requires s.registrar.Joining? && JoinStops(s)
  {
    s.(threads := s.threads - {Joined(s)}, poolSize := if s.numThreads == 0 then s.poolSize else |s.handleToTask|)
  }

  predicate HasExited(s: State, w: Who) {
    w in s.threads && s.threads[w].pc.Exited?
  }

  /** data.unique(): no thread keeps the task in its table. */
  predicate Unique(s: State, data: Task) {
    forall w :: w in s.threads ==> data !in s.threads[w].tasks.Values
  }

  predicate Enabled(s: State, a: Action) {
    match a
    case Step(w, h, _) => StepEnabled(s, w, h)
    case Register(h) => s.registrar.Outside? && h !in s.handleToTask
    case Unregister(h) => s.registrar.Outside? && h in s.handleToTask
    case Proceed =>
      match s.registrar
      case Outside => false
      case Spawning(_) => true
      case Joining(_, _) => JoinStops(s) ==> HasExited(s, Joined(s))
      case Draining(_, data) => Unique(s, data)
  }

  function After(s: State, a: Action): State
    requires Enabled(s, a)
  {
    match a
    case Step(w, h, again) =>
      var t := s.threads[w];
      s.(threads := s.threads[w := StepThread(s, w, t, h, again)], flags := StepFlags(s, w, t, h))
    case Register(h) =>
      var table := s.handleToTask[h := s.nextTask];
      s.(handleToTask := table, signature := s.signature + 1, versions := s.versions + [table],
         flags := s.flags[s.nextTask := Clear], nextTask := s.nextTask + 1, registrar := Spawning(h))
    case Unregister(h) =>
      var table := s.handleToTask - {h};
      s.(handleToTask := table, signature := s.signature + 1, versions := s.versions + [table],
         registrar := Joining(h, s.handleToTask[h]))
    case Proceed =>
      match s.registrar
      case Outside => s
      case Spawning(h) =>
        if s.numThreads == 0 then Spawn(s, Single(h))
        else if s.poolSize < s.numThreads then Spawn(s, Pool(s.poolSize)).(poolSize := s.poolSize + 1)
        else s.(registrar := Outside)
      case Joining(h, data) =>
        (if JoinStops(s) then WithoutJoined(s) else s).(registrar := Draining(h, data))
      case Draining(h, data) => s.(registrar := Outside)
  }

  predicate Run(run: seq<State>, acts: seq<Action>) {
    && |run| == |acts| + 1 && run[0] == Init(run[0].numThreads)
    && forall i {:trigger acts[i]} :: 0 <= i < |acts| ==>
      Enabled(run[i], acts[i]) && run[i + 1] == After(run[i], acts[i])
  }

  // ---------- invariants ----------

  /** The handle whose unregistration has begun and not returned. */
  predicate Leaving(s: State, h: Handle, data: Task) {
    s.registrar == Joining(h, data) || s.registrar == Draining(h, data)
  }

  /** A thread's table holds nothing but registered tasks and the one being unregistered. */
  predicate TableCurrent(s: State, t: Thread) {
    forall h :: h in t.tasks ==> (h in s.handleToTask && s.handleToTask[h] == t.tasks[h]) || Leaving(s, h, t.tasks[h])
  }

  /**
    Once a thread has copied a table it stays in it: the table gives it work, and the handle it works
    for, and the one it probes, are in it.
   */
  predicate PcInTable(w: Who, t: Thread) {
    && (t.signature > 0 && !t.pc.Exited? ==> !Leaves(w, t.tasks))
    && match t.pc
       case Check => true
       case Refresh => true
       case Dispatch => t.signature > 0
       case Running(h) => t.signature > 0 && h in t.tasks && (w.Single? ==> h == w.handle)
       case Waking(h, rest) => t.signature > 0 && h in t.tasks && h !in rest && rest <= t.tasks.Keys && w.Pool?
       case Probing(h, rest, other) =>
         t.signature > 0 && h in t.tasks && other in t.tasks && other != h && h !in rest && rest <= t.tasks.Keys &&
           w.Pool?
       case Clearing(h) => t.signature > 0 && h in t.tasks && w.Pool?
       case Exited => t.tasks == map[]
  }

  /** The tasks whose flag the thread has set. */
  function Claims(w: Who, t: Thread): set<Task> {
    if w.Single? then {}
    else match t.pc
      case Running(h) => if h in t.tasks then {t.tasks[h]} else {}
      case Waking(h, _) => if h in t.tasks then {t.tasks[h]} else {}
      case Probing(h, _, other) => if h in t.tasks && other in t.tasks then {t.tasks[h], t.tasks[other]} else {}
      case Clearing(h) => if h in t.tasks then {t.tasks[h]} else {}
      case _ => {}
  }

  predicate FlagsExact(s: State) {
    forall w, k :: w in s.threads && k in s.flags ==> (k in Claims(w, s.threads[w]) <==> s.flags[k] == Set(w))
  }

  /** Task numbers are fresh, and no two handles share one. */
  ghost predicate TasksOk(s: State) {
    && (forall h :: h in s.handleToTask ==> s.handleToTask[h] in s.flags)
    && (forall h, k :: h in s.handleToTask && k in s.handleToTask && s.handleToTask[h] == s.handleToTask[k] ==> h == k)
    && (forall k :: k in s.flags ==> k < s.nextTask)
    && (forall k, w :: k in s.flags && s.flags[k] == Set(w) ==> w in s.threads)
    && (s.registrar.Joining? || s.registrar.Draining? ==>
         && s.registrar.data in s.flags && s.registrar.h !in s.handleToTask
         && forall h :: h in s.handleToTask ==> s.handleToTask[h] != s.registrar.data)
    && (s.registrar.Spawning? ==> s.registrar.h in s.handleToTask)
  }

  /** Does this thread exist? */
  predicate Exists(s: State, w: Who) {
    if s.numThreads == 0 then
      && w.Single?
      && ((w.handle in s.handleToTask && s.registrar != Spawning(w.handle)) ||
        (s.registrar.Joining? && s.registrar.h == w.handle))
    else w.Pool? && w.index < s.poolSize
  }

  /** The number of tasks that the pool has been fitted to. */
  function Fitted(s: State): int {
    match s.registrar
    case Spawning(_) => |s.handleToTask| - 1
    case Joining(_, _) => |s.handleToTask| + 1
    case _ => |s.handleToTask|
  }

  ghost predicate ThreadsOk(s: State) {
    && (forall w :: w in s.threads <==> Exists(s, w))
    && (s.numThreads > 0 ==> s.poolSize == Min(s.numThreads, Fitted(s)))
    && (s.registrar.Spawning? ==> |s.handleToTask| > 0)
  }

  /** The thread that unregisterTask is joining. */
  predicate BeingJoined(s: State, w: Who) {
    && s.registrar.Joining?
    && (if s.numThreads == 0 then w == Single(s.registrar.h)
        else s.poolSize > |s.handleToTask| && w == Pool(s.poolSize - 1))
  }

  predicate VersionsOk(s: State) {
    && |s.versions| == s.signature + 1 && s.versions[s.signature] == s.handleToTask && s.versions[0] == map[]
    && (!s.registrar.Outside? ==> s.signature > 0)
    && forall w :: w in s.threads ==>
         && s.threads[w].signature <= s.signature && s.signature > 0
         && (!s.threads[w].pc.Exited? ==> s.threads[w].tasks == s.versions[s.threads[w].signature])
  }

  predicate TablesOk(s: State) {
    forall w :: w in s.threads ==> TableCurrent(s, s.threads[w]) && PcInTable(w, s.threads[w])
  }

  /** Only the thread being joined has left its loop. */
  predicate ExitsOk(s: State) {
    forall w :: w in s.threads && s.threads[w].pc.Exited? ==> BeingJoined(s, w)
  }

  ghost predicate Inv(s: State) {
    && TasksOk(s)
    && ThreadsOk(s)
    && FlagsExact(s)
    && VersionsOk(s)
    && TablesOk(s)
    && ExitsOk(s)
  }

  lemma InitInv(n: nat)
    ensures Inv(Init(n))
  {
  }

  lemma StepKeepsTables(s: State, w: Who, h: Handle, again: bool)
    requires Inv(s) && StepEnabled(s, w, h)
    ensures var t := StepThread(s, w, s.threads[w], h, again);
      TableCurrent(s, t) && PcInTable(w, t)
  {
  }

  /** No two handles of a thread's table name one task. */
  lemma TableInjective(s: State, t: Thread, h: Handle, k: Handle)
    requires TasksOk(s) && TableCurrent(s, t) && h in t.tasks && k in t.tasks && h != k
    ensures t.tasks[h] != t.tasks[k] && t.tasks[h] in s.flags && t.tasks[k] in s.flags
  {
  }

  /** What a step needs to know of its thread's table. */
  predicate StepPicks(t: Thread, h: Handle) {
    && (t.pc.Dispatch? ==> h in t.tasks)
    && (t.pc.Waking? && t.pc.rest != {} ==> h in t.pc.rest)
  }

  ghost predicate ClaimsExact(s: State, w: Who, t: Thread) {
    forall j :: j in s.flags ==> (j in Claims(w, t) <==> s.flags[j] == Set(w))
  }

  /** The flags that a step sets or clears are the ones its thread gains or gives up. */
  lemma StepMovesOwnFlags(s: State, w: Who, t: Thread, h: Handle, again: bool, k: Task)
    requires TasksOk(s) && TableCurrent(s, t) && PcInTable(w, t) && k in s.flags
    requires StepPicks(t, h) && ClaimsExact(s, w, t)
    ensures k in StepFlags(s, w, t, h)
    ensures k in Claims(w, StepThread(s, w, t, h, again)) <==> StepFlags(s, w, t, h)[k] == Set(w)
  {
    if t.pc.Waking? && t.pc.rest != {} {
      TableInjective(s, t, t.pc.h, h);
    } else if t.pc.Probing? {
      TableInjective(s, t, t.pc.h, t.pc.other);
    }
    hide TasksOk, TableCurrent, Leaves;
    assert k in Claims(w, t) <==> s.flags[k] == Set(w);
    hide ClaimsExact;
  }

  /** A step sets and clears no flag that another thread has set. */
  lemma StepKeepsOthersFlags(s: State, w: Who, t: Thread, h: Handle, k: Task)
    requires TasksOk(s) && TableCurrent(s, t) && PcInTable(w, t) && k in s.flags
    requires StepPicks(t, h) && ClaimsExact(s, w, t)
    ensures k in StepFlags(s, w, t, h)
    ensures forall v :: v != w ==> (StepFlags(s, w, t, h)[k] == Set(v) <==> s.flags[k] == Set(v))
  {
    hide TasksOk, TableCurrent, Leaves;
  }

  lemma StepKeepsFlags(s: State, w: Who, h: Handle, again: bool)
    requires Inv(s) && StepEnabled(s, w, h)
    ensures FlagsExact(After(s, Step(w, h, again))) && StepFlags(s, w, s.threads[w], h).Keys == s.flags.Keys
  {
    var t, s' := s.threads[w], After(s, Step(w, h, again));
    StepFlagKeys(s, w, t, h);
    hide TableCurrent, PcInTable, ThreadsOk, VersionsOk, TasksOk, Claims, StepFlags, StepThread;
    forall v, k | v in s'.threads && k in s'.flags
      ensures k in Claims(v, s'.threads[v]) <==> s'.flags[k] == Set(v)
    {
      StepMovesOwnFlags(s, w, t, h, again, k);
      StepKeepsOthersFlags(s, w, t, h, k);
    }
  }

  lemma StepFlagKeys(s: State, w: Who, t: Thread, h: Handle)
    requires TasksOk(s) && TableCurrent(s, t)
    ensures StepFlags(s, w, t, h).Keys == s.flags.Keys
  {
  }

  lemma StepKeepsVersions(s: State, w: Who, h: Handle, again: bool)
    requires Inv(s) && StepEnabled(s, w, h)
    ensures VersionsOk(After(s, Step(w, h, again)))
  {
  }

  lemma OnlyJoinedExits(s: State, w: Who, h: Handle, again: bool)
    requires Inv(s) && StepEnabled(s, w, h)
    ensures StepThread(s, w, s.threads[w], h, again).pc.Exited? ==> BeingJoined(s, w)
  {
  }

  lemma StepKeepsThreads(s: State, w: Who, h: Handle, again: bool)
    requires ThreadsOk(s) && StepEnabled(s, w, h)
    ensures ThreadsOk(After(s, Step(w, h, again)))
  {
    hide StepThread, StepFlags;
    var s' := After(s, Step(w, h, again));
    assert s'.threads.Keys == s.threads.Keys;
    forall v ensures v in s'.threads <==> Exists(s', v) {
      assert v in s.threads <==> Exists(s, v);
    }
  }

  /** A flag that a step sets is set by its thread. */
  lemma StepFlagOwner(s: State, w: Who, t: Thread, h: Handle, k: Task)
    requires k in s.flags && k in StepFlags(s, w, t, h)
    ensures StepFlags(s, w, t, h)[k] in {s.flags[k], Set(w), Clear}
  {
  }

  lemma StepKeepsTasks(s: State, w: Who, h: Handle, again: bool)
    requires TasksOk(s) && TablesOk(s) && StepEnabled(s, w, h)
    ensures TasksOk(After(s, Step(w, h, again)))
  {
    StepFlagKeys(s, w, s.threads[w], h);
    hide StepThread, StepFlags, TablesOk, StepEnabled;
    var s' := After(s, Step(w, h, again));
    forall k, v | k in s'.flags && s'.flags[k] == Set(v) ensures v in s'.threads {
      StepFlagOwner(s, w, s.threads[w], h, k);
    }
  }

  lemma StepInv(s: State, w: Who, h: Handle, again: bool)
    requires Inv(s) && StepEnabled(s, w, h)
    ensures Inv(After(s, Step(w, h, again)))
  {
    hide TasksOk, ThreadsOk, FlagsExact, VersionsOk, TableCurrent, PcInTable, StepThread, StepFlags, StepEnabled;
    StepKeepsTables(s, w, h, again);
    StepKeepsFlags(s, w, h, again);
    StepKeepsVersions(s, w, h, again);
    StepKeepsThreads(s, w, h, again);
    StepKeepsTasks(s, w, h, again);
    OnlyJoinedExits(s, w, h, again);
    var s' := After(s, Step(w, h, again));
    forall v | v in s'.threads ensures TableCurrent(s', s'.threads[v]) && PcInTable(v, s'.threads[v]) {
      SameTables(s, s', s'.threads[v]);
    }
    assert forall v :: BeingJoined(s', v) <==> BeingJoined(s, v);
  }

  lemma SameTables(s: State, s': State, t: Thread)
    requires s'.handleToTask == s.handleToTask && s'.registrar == s.registrar
    ensures TableCurrent(s', t) <==> TableCurrent(s, t)
  {
  }

  lemma MapGrows(m: Table, h: Handle, t: Task)
    requires h !in m
    ensures |m[h := t]| == |m| + 1
  {
    assert m[h := t].Keys == m.Keys + {h};
  }

  lemma MapShrinks(m: Table, h: Handle)
    requires h in m
    ensures |m - {h}| == |m| - 1
  {
    assert (m - {h}).Keys == m.Keys - {h};
  }

  /** A thread's table only has to be looked at again for the handle that the registrar works on. */
  lemma TablesFollow(s: State, s': State, t: Thread, h: Handle)
    requires TableCurrent(s, t)
    requires forall k :: k != h && k in s.handleToTask ==>
      k in s'.handleToTask && s'.handleToTask[k] == s.handleToTask[k]
    requires forall k, data :: k != h ==> !Leaving(s, k, data)
    requires h in t.tasks ==> (h in s'.handleToTask && s'.handleToTask[h] == t.tasks[h]) || Leaving(s', h, t.tasks[h])
    ensures TableCurrent(s', t)
  {
  }

  lemma RegisterTasks(s: State, h: Handle)
    requires TasksOk(s) && Enabled(s, Register(h))
    ensures TasksOk(After(s, Register(h)))
  {
  }

  lemma RegisterFlags(s: State, h: Handle)
    requires Inv(s) && Enabled(s, Register(h))
    ensures FlagsExact(After(s, Register(h)))
  {
    var s' := After(s, Register(h));
    forall w | w in s'.threads ensures s.nextTask !in Claims(w, s.threads[w]) {
      ClaimsKnown(s, w);
    }
    hide TasksOk, ThreadsOk, VersionsOk, TableCurrent, PcInTable, Claims;
  }

  /** A thread claims only tasks that exist. */
  lemma ClaimsKnown(s: State, w: Who)
    requires TasksOk(s) && w in s.threads && TableCurrent(s, s.threads[w])
    ensures forall k :: k in Claims(w, s.threads[w]) ==> k in s.flags
  {
  }

  lemma RegisterThreads(s: State, h: Handle)
    requires ThreadsOk(s) && Enabled(s, Register(h))
    ensures ThreadsOk(After(s, Register(h)))
  {
    var s' := After(s, Register(h));
    MapGrows(s.handleToTask, h, s.nextTask);
    forall w ensures w in s'.threads <==> Exists(s', w) {
      assert w in s.threads <==> Exists(s, w);
    }
  }

  lemma RegisterTables(s: State, h: Handle)
    requires TablesOk(s) && Enabled(s, Register(h))
    ensures TablesOk(After(s, Register(h)))
  {
    hide PcInTable;
    var s' := After(s, Register(h));
    forall w | w in s'.threads ensures TableCurrent(s', s'.threads[w]) {
      assert h !in s.threads[w].tasks;
      TablesFollow(s, s', s.threads[w], h);
    }
  }

  lemma RegisterVersions(s: State, h: Handle)
    requires VersionsOk(s) && ExitsOk(s) && Enabled(s, Register(h))
    ensures VersionsOk(After(s, Register(h))) && ExitsOk(After(s, Register(h)))
  {
  }

  lemma RegisterInv(s: State, h: Handle)
    requires Inv(s) && Enabled(s, Register(h))
    ensures Inv(After(s, Register(h)))
  {
    hide TasksOk, ThreadsOk, FlagsExact, VersionsOk, TablesOk, ExitsOk, After;
    RegisterTasks(s, h);
    RegisterFlags(s, h);
    RegisterThreads(s, h);
    RegisterTables(s, h);
    RegisterVersions(s, h);
  }

  lemma UnregisterTasks(s: State, h: Handle)
    requires TasksOk(s) && Enabled(s, Unregister(h))
    ensures TasksOk(After(s, Unregister(h)))
  {
  }

  lemma UnregisterThreads(s: State, h: Handle)
    requires ThreadsOk(s) && Enabled(s, Unregister(h))
    ensures ThreadsOk(After(s, Unregister(h)))
  {
    var s' := After(s, Unregister(h));
    MapShrinks(s.handleToTask, h);
    forall w ensures w in s'.threads <==> Exists(s', w) {
      assert w in s.threads <==> Exists(s, w);
    }
  }

  lemma UnregisterTables(s: State, h: Handle)
    requires TablesOk(s) && Enabled(s, Unregister(h))
    ensures TablesOk(After(s, Unregister(h)))
  {
    hide PcInTable;
    var s' := After(s, Unregister(h));
    forall w | w in s'.threads ensures TableCurrent(s', s'.threads[w]) {
      TablesFollow(s, s', s.threads[w], h);
    }
  }

  lemma UnregisterVersions(s: State, h: Handle)
    requires VersionsOk(s) && ExitsOk(s) && FlagsExact(s) && Enabled(s, Unregister(h))
    ensures var s' := After(s, Unregister(h)); VersionsOk(s') && ExitsOk(s') && FlagsExact(s')
  {
    hide Claims;
  }

  lemma UnregisterInv(s: State, h: Handle)
    requires Inv(s) && Enabled(s, Unregister(h))
    ensures Inv(After(s, Unregister(h)))
  {
    hide TasksOk, ThreadsOk, FlagsExact, VersionsOk, TablesOk, ExitsOk, After;
    UnregisterTasks(s, h);
    UnregisterThreads(s, h);
    UnregisterTables(s, h);
    UnregisterVersions(s, h);
  }

  // ---------- starting and joining threads ----------

  const NEW_THREAD := Thread(Check, 0, map[])

  /** The parts of the state that a thread is judged by. */
  predicate SameTasks(s: State, s': State) {
    && s'.handleToTask == s.handleToTask && s'.flags == s.flags && s'.nextTask == s.nextTask
    && s'.versions == s.versions && s'.signature == s.signature
    && s'.numThreads == s.numThreads
  }

  ghost predicate SameLeaving(s: State, s': State) {
    forall h, data :: Leaving(s', h, data) <==> Leaving(s, h, data)
  }

  lemma AddThread(s: State, s': State, w: Who)
    requires FlagsExact(s) && VersionsOk(s) && TablesOk(s) && ExitsOk(s)
    requires forall k, v :: k in s.flags && s.flags[k] == Set(v) ==> v in s.threads
    requires SameTasks(s, s') && s.registrar.Spawning? && s'.registrar.Outside?
    requires w !in s.threads && s'.threads == s.threads[w := NEW_THREAD]
    ensures FlagsExact(s') && VersionsOk(s') && TablesOk(s') && ExitsOk(s')
  {
  }

  lemma KeepThreads(s: State, s': State)
    requires FlagsExact(s) && VersionsOk(s) && TablesOk(s) && ExitsOk(s)
    requires SameTasks(s, s') && s'.threads == s.threads
    requires forall w :: w in s.threads ==> TableCurrent(s', s.threads[w])
    requires forall w :: w in s.threads && BeingJoined(s, w) ==> BeingJoined(s', w)
    requires !s'.registrar.Outside? ==> !s.registrar.Outside?
    ensures FlagsExact(s') && VersionsOk(s') && TablesOk(s') && ExitsOk(s')
  {
    hide BeingJoined, TableCurrent, PcInTable;
  }

  lemma RemoveThread(s: State, s': State, w: Who)
    requires FlagsExact(s) && VersionsOk(s) && TablesOk(s) && ExitsOk(s)
    requires SameTasks(s, s') && s.registrar.Joining? && s'.registrar == Draining(s.registrar.h, s.registrar.data)
    requires s'.threads == s.threads - {w} && forall v :: BeingJoined(s, v) ==> v == w
    ensures FlagsExact(s') && VersionsOk(s') && TablesOk(s') && ExitsOk(s')
  {
    hide PcInTable, BeingJoined, Claims;
    assert SameLeaving(s, s');
  }

  lemma SpawnInv(s: State)
    requires Inv(s) && s.registrar.Spawning?
    ensures Inv(After(s, Proceed))
  {
    var s' := After(s, Proceed);
    var w := if s.numThreads == 0 then Single(s.registrar.h) else Pool(s.poolSize);
    SpawnThreads(s);
    SpawnTasks(s);
    if s.numThreads == 0 || s.poolSize < s.numThreads {
      assert w !in s.threads by { assert !Exists(s, w); }
      hide ThreadsOk, FlagsExact, VersionsOk, TablesOk, ExitsOk;
      AddThread(s, s', w);
    } else {
      hide ThreadsOk, TasksOk, FlagsExact, VersionsOk, ExitsOk;
      assert SameLeaving(s, s');
      KeepThreads(s, s');
    }
  }

  /** Does the registration start a thread? */
  predicate SpawnStarts(s: State) {
    s.numThreads == 0 || s.poolSize < s.numThreads
  }

  function Started(s: State): Who
    requires s.registrar.Spawning?
  {
    if s.numThreads == 0 then Single(s.registrar.h) else Pool(s.poolSize)
  }

  /** What the end of a registration changes. */
  lemma SpawnEffect(s: State)
    requires s.registrar.Spawning?
    ensures var s' := After(s, Proceed);
      && SameTasks(s, s') && s'.registrar == Outside
      && s'.threads == (if SpawnStarts(s) then s.threads[Started(s) := NEW_THREAD] else s.threads)
      && s'.poolSize == if s.numThreads > 0 && SpawnStarts(s) then s.poolSize + 1 else s.poolSize
  {
    hide Enabled, StepThread, StepFlags;
  }

  lemma SpawnExists(s: State, s': State, w: Who)
    requires s.registrar.Spawning? && s.registrar.h in s.handleToTask && s'.registrar == Outside
    requires s'.handleToTask == s.handleToTask && s'.numThreads == s.numThreads
    requires s'.poolSize == if s.numThreads > 0 && SpawnStarts(s) then s.poolSize + 1 else s.poolSize
    ensures Exists(s', w) <==> Exists(s, w) || (SpawnStarts(s) && w == Started(s))
  {
  }

  lemma SpawnThreads(s: State)
    requires ThreadsOk(s) && TasksOk(s) && s.registrar.Spawning?
    ensures ThreadsOk(After(s, Proceed))
  {
    var s' := After(s, Proceed);
    SpawnEffect(s);
    hide After, Exists, Started;
    assert s.registrar.h in s.handleToTask by { hide ThreadsOk; }
    hide TasksOk;
    assert s'.numThreads > 0 ==> s'.poolSize == Min(s'.numThreads, Fitted(s'));
    hide Fitted, Min;
    forall w ensures w in s'.threads <==> Exists(s', w) {
      SpawnExists(s, s', w);
      assert w in s.threads <==> Exists(s, w);
      hide ThreadsOk, SameTasks;
    }
  }

  lemma SpawnTasks(s: State)
    requires TasksOk(s) && s.registrar.Spawning?
    ensures TasksOk(After(s, Proceed))
  {
  }

  /** What the end of a join changes. */
  lemma JoinEffect(s: State)
    requires s.registrar.Joining? && Enabled(s, Proceed)
    ensures var s' := After(s, Proceed);
      && SameTasks(s, s') && s'.registrar == Draining(s.registrar.h, s.registrar.data)
      && (if JoinStops(s) then HasExited(s, Joined(s)) &&
        s'.threads == s.threads - {Joined(s)} else s'.threads == s.threads)
      && s'.poolSize == if s.numThreads > 0 && JoinStops(s) then |s.handleToTask| else s.poolSize
  {
    hide HasExited, StepEnabled, Unique, StepThread, StepFlags, JoinStops, Joined;
  }

  lemma JoinInv(s: State)
    requires Inv(s) && s.registrar.Joining? && Enabled(s, Proceed)
    ensures Inv(After(s, Proceed))
  {
    hide ThreadsOk, TasksOk, FlagsExact, VersionsOk, ExitsOk, TablesOk, After, Enabled, HasExited;
    var s' := After(s, Proceed);
    JoinEffect(s);
    JoinThreads(s);
    JoinTasks(s);
    if JoinStops(s) {
      RemoveThread(s, s', Joined(s));
    } else {
      TablesStay(s, s');
      hide TableCurrent;
      KeepThreads(s, s');
    }
  }

  lemma TablesStay(s: State, s': State)
    requires TablesOk(s) && SameTasks(s, s') && SameLeaving(s, s') && s'.threads == s.threads
    ensures forall w :: w in s.threads ==> TableCurrent(s', s.threads[w])
  {
    hide PcInTable, Leaving;
  }

  lemma JoinExists(s: State, s': State, w: Who)
    requires s.registrar.Joining? && s.registrar.h !in s.handleToTask
    requires s'.registrar == Draining(s.registrar.h, s.registrar.data)
    requires s'.handleToTask == s.handleToTask && s'.numThreads == s.numThreads
    requires s.numThreads > 0 && JoinStops(s) ==> s.poolSize == |s.handleToTask| + 1
    requires s'.poolSize == if s.numThreads > 0 && JoinStops(s) then |s.handleToTask| else s.poolSize
    ensures Exists(s', w) <==> Exists(s, w) && !(JoinStops(s) && w == Joined(s))
  {
  }

  lemma JoinThreads(s: State)
    requires ThreadsOk(s) && TasksOk(s) && s.registrar.Joining? && Enabled(s, Proceed)
    ensures ThreadsOk(After(s, Proceed))
  {
    var s' := After(s, Proceed);
    JoinEffect(s);
    hide After, Enabled, HasExited, Exists, Joined;
    assert s.registrar.h !in s.handleToTask by { hide ThreadsOk; }
    hide TasksOk;
    assert s.numThreads > 0 && JoinStops(s) ==> s.poolSize == |s.handleToTask| + 1;
    assert s'.numThreads > 0 ==> s'.poolSize == Min(s'.numThreads, Fitted(s'));
    hide Fitted, Min;
    forall w ensures w in s'.threads <==> Exists(s', w) {
      JoinExists(s, s', w);
      assert w in s.threads <==> Exists(s, w);
      hide ThreadsOk, SameTasks;
    }
  }

  /** A thread that is joined holds no flag. */
  lemma ExitedOwnsNothing(s: State, w: Who, k: Task)
    requires FlagsExact(s) && HasExited(s, w) && k in s.flags
    ensures s.flags[k] != Set(w)
  {
    assert Claims(w, s.threads[w]) == {};
  }

  /** The tasks stay as they are when only threads go, as long as those hold no flag. */
  lemma TasksStay(s: State, s': State)
    requires TasksOk(s) && SameTasks(s, s') && s.registrar.Joining? &&
      s'.registrar == Draining(s.registrar.h, s.registrar.data)
    requires forall k, w :: k in s.flags && s.flags[k] == Set(w) ==> w in s'.threads
    ensures TasksOk(s')
  {
  }

  lemma OwnerLives(s: State, k: Task, w: Who)
    requires TasksOk(s) && k in s.flags && s.flags[k] == Set(w)
    ensures w in s.threads
  {
  }

  lemma JoinTasks(s: State)
    requires TasksOk(s) && FlagsExact(s) && s.registrar.Joining? && Enabled(s, Proceed)
    ensures TasksOk(After(s, Proceed))
  {
    var s' := After(s, Proceed);
    JoinEffect(s);
    hide TasksOk, FlagsExact, HasExited, After, Enabled, Joined, JoinStops;
    forall k, w | k in s.flags && s.flags[k] == Set(w) ensures w in s'.threads {
      OwnerLives(s, k, w);
      if HasExited(s, w) {
        ExitedOwnsNothing(s, w, k);
      }
    }
    TasksStay(s, s');
  }

  lemma DrainThreads(s: State)
    requires TasksOk(s) && ThreadsOk(s) && s.registrar.Draining? && Enabled(s, Proceed)
    ensures TasksOk(After(s, Proceed)) && ThreadsOk(After(s, Proceed))
  {
    var s' := After(s, Proceed);
    hide Unique;
    forall w ensures w in s'.threads <==> Exists(s', w) {
      assert w in s.threads <==> Exists(s, w);
    }
  }

  /** Once no thread keeps the task that leaves, every table is one of registered tasks. */
  lemma DrainTables(s: State, w: Who)
    requires TablesOk(s) && s.registrar.Draining? && Enabled(s, Proceed) && w in s.threads
    ensures TableCurrent(After(s, Proceed), s.threads[w])
  {
    hide PcInTable;
    var t := s.threads[w];
    assert TableCurrent(s, t);
    forall h | h in t.tasks ensures !Leaving(s, h, t.tasks[h]) {
      assert t.tasks[h] in t.tasks.Values;
    }
  }

  lemma DrainInv(s: State)
    requires Inv(s) && s.registrar.Draining? && Enabled(s, Proceed)
    ensures Inv(After(s, Proceed))
  {
    var s' := After(s, Proceed);
    DrainThreads(s);
    hide Unique, ThreadsOk, TasksOk, FlagsExact, VersionsOk, ExitsOk, TablesOk, TableCurrent;
    forall v | v in s.threads ensures TableCurrent(s', s.threads[v]) {
      DrainTables(s, v);
    }
    KeepThreads(s, s');
  }

  // ---------- every run ----------

  lemma AfterInv(s: State, a: Action)
    requires Inv(s) && Enabled(s, a)
    ensures Inv(After(s, a))
  {
    hide Inv, After, HasExited, Unique;
    match a
    case Step(w, h, again) => StepInv(s, w, h, again);
    case Register(h) => RegisterInv(s, h);
    case Unregister(h) => UnregisterInv(s, h);
    case Proceed =>
      if s.registrar.Spawning? {
        SpawnInv(s);
      } else if s.registrar.Joining? {
        JoinInv(s);
      } else {
        DrainInv(s);
      }
  }

  lemma {:induction false} RunInv(run: seq<State>, acts: seq<Action>, n: nat)
    requires Run(run, acts) && n < |run|
    ensures Inv(run[n])
  {
    hide Inv, After, Enabled;
    if n == 0 {
      InitInv(run[0].numThreads);
    } else {
      RunInv(run, acts, n - 1);
      assert run[n - 1 + 1] == After(run[n - 1], acts[n - 1]);
      AfterInv(run[n - 1], acts[n - 1]);
    }
  }

  // ---------- what the invariant gives ----------

  /** Is the thread inside task(waitOnce) of this task? */
  predicate Runs(s: State, w: Who, data: Task) {
    w in s.threads && s.threads[w].pc.Running? && s.threads[w].pc.h in s.threads[w].tasks &&
      s.threads[w].tasks[s.threads[w].pc.h] == data
  }

  /** A pool thread runs a task under the task's flag. */
  lemma RunsUnderFlag(s: State, w: Who, data: Task)
    requires TasksOk(s) && TablesOk(s) && FlagsExact(s) && w.Pool? && Runs(s, w, data)
    ensures data in s.flags && s.flags[data] == Set(w)
  {
    ClaimsKnown(s, w);
    hide TasksOk, TablesOk;
  }

  /** The thread of a handle runs that handle's task. */
  lemma RunsOwnTask(s: State, w: Who, data: Task)
    requires TablesOk(s) && w.Single? && Runs(s, w, data)
    ensures (w.handle in s.handleToTask && s.handleToTask[w.handle] == data) || Leaving(s, w.handle, data)
  {
    assert PcInTable(w, s.threads[w]) && TableCurrent(s, s.threads[w]);
  }

  lemma OneRunnerState(s: State, v: Who, w: Who, data: Task)
    requires Inv(s) && Runs(s, v, data) && Runs(s, w, data)
    ensures v == w
  {
    hide FlagsExact, TablesOk, VersionsOk, ExitsOk;
    assert Exists(s, v) && Exists(s, w);
    hide ThreadsOk;
    if s.numThreads == 0 {
      RunsOwnTask(s, v, data);
      RunsOwnTask(s, w, data);
    } else {
      hide TasksOk;
      RunsUnderFlag(s, v, data);
      RunsUnderFlag(s, w, data);
    }
  }

  /** No task is ever run by two threads at once, however stale their tables are. */
  lemma OneRunner(run: seq<State>, acts: seq<Action>, n: nat, v: Who, w: Who, data: Task)
    requires Run(run, acts) && n < |run| && Runs(run[n], v, data) && Runs(run[n], w, data)
    ensures v == w
  {
    hide Inv, Run, Runs;
    RunInv(run, acts, n);
    OneRunnerState(run[n], v, w, data);
  }

  /**
    Whenever no registration is under way: in pool mode the pool has min(numThreads, tasks) threads,
    otherwise every handle has its own thread, and none of them has left its loop.
   */
  lemma PoolFits(run: seq<State>, acts: seq<Action>, n: nat)
    requires Run(run, acts) && n < |run| && run[n].registrar.Outside?
    ensures var s := run[n];
      && (s.numThreads > 0 ==> s.poolSize == Min(s.numThreads, |s.handleToTask|) && forall w :: w in s.threads <==>
        w.Pool? && w.index < s.poolSize)
      && (s.numThreads == 0 ==> forall w :: w in s.threads <==> w.Single? && w.handle in s.handleToTask)
      && forall w :: w in s.threads ==> !s.threads[w].pc.Exited?
  {
    RunInv(run, acts, n);
    hide Run, TasksOk, FlagsExact, VersionsOk, TablesOk;
    var s := run[n];
    assert forall w :: Exists(s, w) <==> w in s.threads;
  }

  /** Only the thread that unregisterTask joins ever leaves its loop. */
  lemma OnlyTheJoinedLeave(run: seq<State>, acts: seq<Action>, n: nat, w: Who)
    requires Run(run, acts) && n < |run| && w in run[n].threads && run[n].threads[w].pc.Exited?
    ensures BeingJoined(run[n], w)
  {
    RunInv(run, acts, n);
    hide Run, TasksOk, FlagsExact, VersionsOk, TablesOk, ThreadsOk, BeingJoined;
  }

  /** A thread that dispatches has the table of the version it recorded, and finds a task in it. */
  lemma DispatchFindsWork(run: seq<State>, acts: seq<Action>, n: nat, w: Who)
    requires Run(run, acts) && n < |run| && w in run[n].threads && run[n].threads[w].pc.Dispatch?
    ensures var s, t := run[n], run[n].threads[w];
      && t.signature < |s.versions| && t.tasks == s.versions[t.signature]
      && exists h :: StepEnabled(s, w, h)
  {
    RunInv(run, acts, n);
    hide Run, TasksOk, FlagsExact, ThreadsOk, ExitsOk;
    var s, t := run[n], run[n].threads[w];
    assert PcInTable(w, t);
    if w.Single? {
      assert StepEnabled(s, w, w.handle);
    } else {
      assert t.tasks.Keys != {};
      var h :| h in t.tasks.Keys;
      assert StepEnabled(s, w, h);
    }
  }

  /** No registration of the handle, under way or done. */
  predicate Gone(s: State, h: Handle) {
    h !in s.handleToTask && (s.registrar.Outside? || s.registrar.h != h)
  }

  /** The task of a registration that is over. */
  predicate Retired(s: State, data: Task) {
    && data < s.nextTask
    && (forall h :: h in s.handleToTask ==> s.handleToTask[h] != data)
    && (s.registrar.Joining? || s.registrar.Draining? ==> s.registrar.data != data)
  }

  lemma StaysGone(s: State, a: Action, h: Handle, data: Task)
    requires Enabled(s, a)
    ensures Gone(s, h) && a != Register(h) ==> Gone(After(s, a), h)
    ensures Retired(s, data) ==> Retired(After(s, a), data)
  {
    hide StepEnabled, StepThread, StepFlags, HasExited, Unique;
  }

  lemma GoneFromTables(s: State, w: Who, h: Handle, data: Task)
    requires Inv(s) && w in s.threads
    ensures Gone(s, h) ==> h !in s.threads[w].tasks
    ensures Retired(s, data) ==> data !in s.threads[w].tasks.Values && !Runs(s, w, data)
  {
    hide TasksOk, ThreadsOk, FlagsExact, VersionsOk, ExitsOk, PcInTable;
    assert TableCurrent(s, s.threads[w]);
  }

  lemma UnregisterReturns(s: State)
    requires Inv(s) && s.registrar.Draining? && Enabled(s, Proceed)
    ensures Gone(After(s, Proceed), s.registrar.h) && Retired(After(s, Proceed), s.registrar.data)
  {
    hide ThreadsOk, FlagsExact, VersionsOk, TablesOk, ExitsOk, Unique;
  }

  lemma {:induction false} GoneUntilRegistered(run: seq<State>, acts: seq<Action>, i: nat, j: nat)
    requires Run(run, acts) && i < j < |run| && acts[i] == Proceed && run[i].registrar.Draining?
    ensures (forall k :: i < k < j ==> acts[k] != Register(run[i].registrar.h)) ==> Gone(run[j], run[i].registrar.h)
    ensures Retired(run[j], run[i].registrar.data)
  {
    hide Inv, After, Enabled, Gone, Retired, Init;
    if j == i + 1 {
      RunInv(run, acts, i);
      UnregisterReturns(run[i]);
    } else {
      GoneUntilRegistered(run, acts, i, j - 1);
      assert run[j - 1 + 1] == After(run[j - 1], acts[j - 1]);
      StaysGone(run[j - 1], acts[j - 1], run[i].registrar.h, run[i].registrar.data);
    }
  }

  /**
    When unregisterTask returns, at step i, no thread runs its task or has it in its table, then and
    in every later state; and no thread has its handle until it is registered again.
   */
  lemma UnregisteredIsGone(run: seq<State>, acts: seq<Action>, i: nat, j: nat, w: Who)
    requires Run(run, acts) && i < j < |run| && acts[i] == Proceed && run[i].registrar.Draining?
    requires w in run[j].threads
    ensures !Runs(run[j], w, run[i].registrar.data) && run[i].registrar.data !in run[j].threads[w].tasks.Values
    ensures (forall k :: i < k < j ==> acts[k] != Register(run[i].registrar.h)) ==>
      run[i].registrar.h !in run[j].threads[w].tasks
  {
    hide Inv, Run, Runs, Gone, Retired;
    RunInv(run, acts, j);
    GoneUntilRegistered(run, acts, i, j);
    GoneFromTables(run[j], w, run[i].registrar.h, run[i].registrar.data);
  }
}
