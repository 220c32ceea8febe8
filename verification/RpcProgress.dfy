/**
  RemoteProxyEnvironment::transact (lib/Remote/RemoteProxy.cpp) comes to an end: without new requests
  and without a thread that wakes up on its own, every schedule runs down, and it stops only when every
  thread has its reply.
 */
module RpcProgress {
  import opened RpcTransact

  /** A step that is neither a new request nor a thread that wakes up on its own. */
  predicate Proper(s: State, a: Action) {
    Enabled(s, a) && (a.Client? ==> Busy(s.pc[a.t]))
  }

  predicate Busy(p: Pc) {
    p.Loop? || p.Read? || p.Got? || p.NotifyLoop? || p.NotifyReturn?
  }

  /** Has sent its request, and its transact has not returned. */
  predicate UnderWay(p: Pc) {
    Outstanding(p) || p.NotifyReturn?
  }

  /** The thread that reads has no reply in the cache. */
  predicate ReaderLacks(tidOf: Thread -> nat, s: State) {
    forall t :: t in s.pc && Reads(s.pc[t]) ==> tidOf(t) !in s.cache
  }

  lemma StepReaderLacks(tidOf: Thread -> nat, s: State, a: Action)
    requires OneReader(s) && ReaderLacks(tidOf, s) && Enabled(s, a)
    ensures ReaderLacks(tidOf, After(tidOf, s, a))
  {
    var s' := After(tidOf, s, a);
    forall t | t in s'.pc && Reads(s'.pc[t]) ensures tidOf(t) !in s'.cache {
      if a.Client? && a.t != t {
        assert ReadsAs(s.pc[a.t], s.reader, a.t) && ReadsAs(s.pc[t], s.reader, t);
      }
    }
  }

  lemma InvReader(tidOf: Thread -> nat, s: State)
    requires Inv(tidOf, s)
    ensures OneReader(s)
  {
  }

  lemma {:induction false} RunReaderLacks(tidOf: Thread -> nat, run: seq<State>, acts: seq<Action>, n: nat)
    requires Run(tidOf, run, acts) && n < |run| && Distinct(tidOf, run[0].pc)
    ensures ReaderLacks(tidOf, run[n])
  {
    if n == 0 {
      assert forall t :: t in run[0].pc ==> run[0].pc[t].Idle?;
    } else {
      hide After, Enabled, Inv, Distinct, ReaderLacks, Init;
      RunReaderLacks(tidOf, run, acts, n - 1);
      RunInv(tidOf, run, acts, n - 1);
      InvReader(tidOf, run[n - 1]);
      assert Enabled(run[n - 1], acts[n - 1]) && run[n - 1 + 1] == After(tidOf, run[n - 1], acts[n - 1]);
      hide Run;
      StepReaderLacks(tidOf, run[n - 1], acts[n - 1]);
    }
  }

  // ---------- every schedule runs down ----------

  /** How far the messages have to go; each move of one takes it at least one place on. */
  function ToGo(s: State): nat {
    5 * |s.requests| + (if s.server.Handling? then 4 else 0) + 3 * |s.replies| + (if s.reader.Holds? then 2 else 0)
      + |s.cache|
  }

  function Notifiers(pc: map<Thread, Pc>): set<Thread> {
    set t | t in pc && Notifies(pc[t])
  }

  function Loopers(pc: map<Thread, Pc>): set<Thread> {
    set t | t in pc && pc[t].Loop?
  }

  /** First the messages, then the threads yet to notify, then those yet to look. */
  predicate RunsDown(s: State, s': State) {
    || ToGo(s') < ToGo(s)
    || (ToGo(s') == ToGo(s) && |Notifiers(s'.pc)| < |Notifiers(s.pc)|)
    || (ToGo(s') == ToGo(s) && |Notifiers(s'.pc)| == |Notifiers(s.pc)| && |Loopers(s'.pc)| < |Loopers(s.pc)|)
  }

  lemma NotifiersMove(pc: map<Thread, Pc>, t: Thread, p: Pc)
    requires t in pc && Notifies(pc[t]) && !Notifies(p)
    ensures |Notifiers(Wake(pc)[t := p])| < |Notifiers(pc)|
  {
    assert Notifiers(Wake(pc)[t := p]) == Notifiers(pc) - {t};
  }

  lemma LoopersMove(pc: map<Thread, Pc>, t: Thread, p: Pc)
    requires t in pc && pc[t].Loop? && !p.Loop? && !Notifies(p)
    ensures |Loopers(pc[t := p])| < |Loopers(pc)| && Notifiers(pc[t := p]) == Notifiers(pc)
  {
    assert Loopers(pc[t := p]) == Loopers(pc) - {t};
    assert Notifiers(pc[t := p]) == Notifiers(pc);
  }

  lemma CacheMoves(cache: map<nat, Msg>, id: nat, m: Msg)
    ensures |cache[id := m]| <= |cache| + 1
    ensures id in cache ==> |cache - {id}| == |cache| - 1
  {
    assert cache[id := m].Keys == cache.Keys + {id};
    assert (cache - {id}).Keys == cache.Keys - {id};
  }

  lemma LoopRunsDown(tidOf: Thread -> nat, s: State, t: Thread, choice: nat)
    requires t in s.pc && s.pc[t].Loop?
    ensures RunsDown(s, After(tidOf, s, Client(t, choice)))
  {
    var id, r := tidOf(t), s.pc[t].req;
    hide Notifiers, Loopers;
    if id in s.cache {
      CacheMoves(s.cache, id, s.cache[id]);
    } else {
      LoopersMove(s.pc, t, if s.isBlocking then Sleep(r) else Read(r));
    }
  }

  lemma ReadRunsDown(tidOf: Thread -> nat, s: State, t: Thread, choice: nat)
    requires OneReader(s) && Enabled(s, Client(t, choice)) && (s.pc[t].Read? || s.pc[t].Got?)
    ensures RunsDown(s, After(tidOf, s, Client(t, choice)))
  {
    assert ReadsAs(s.pc[t], s.reader, t);
    hide Notifiers, Loopers;
    if s.pc[t].Got? {
      CacheMoves(s.cache, s.pc[t].m.tid, s.pc[t].m);
    }
  }

  lemma NotifyRunsDown(tidOf: Thread -> nat, s: State, t: Thread, choice: nat)
    requires t in s.pc && Notifies(s.pc[t])
    ensures RunsDown(s, After(tidOf, s, Client(t, choice)))
  {
    var p := s.pc[t];
    NotifiersMove(s.pc, t, if p.NotifyLoop? then Loop(p.req) else Returned(p.req, p.m));
    hide Notifiers, Loopers, Wake;
  }

  /** Every proper step runs down: there is no endless schedule of them. */
  lemma ProperRunsDown(tidOf: Thread -> nat, s: State, a: Action)
    requires OneReader(s) && Proper(s, a)
    ensures RunsDown(s, After(tidOf, s, a))
  {
    if a.Client? {
      hide After, RunsDown, OneReader;
      if s.pc[a.t].Loop? {
        LoopRunsDown(tidOf, s, a.t, a.choice);
      } else if Notifies(s.pc[a.t]) {
        NotifyRunsDown(tidOf, s, a.t, a.choice);
      } else {
        ReadRunsDown(tidOf, s, a.t, a.choice);
      }
    }
  }

  // ---------- it stops only at the end ----------

  ghost predicate Stuck(s: State) {
    forall a :: !Proper(s, a)
  }

  lemma StuckFacts(s: State)
    requires Stuck(s)
    ensures s.requests == [] && s.server.Waiting?
    ensures forall t :: t in s.pc ==> !Busy(s.pc[t]) || (s.pc[t].Read? && s.replies == [])
  {
    assert !Proper(s, ServerTakes) && !Proper(s, ServerReplies);
    forall t | t in s.pc ensures !Busy(s.pc[t]) || (s.pc[t].Read? && s.replies == []) {
      assert !Proper(s, Client(t, 0));
    }
  }

  /** While a thread is under way and nothing moves, some thread is blocked in its read. */
  lemma StuckReader(s: State, t: Thread) returns (u: Thread)
    requires OneReader(s) && NoSleeperForgotten(s) && Stuck(s) && t in s.pc && UnderWay(s.pc[t])
    ensures u in s.pc && s.pc[u].Read? && s.replies == [] && s.reader == Blocked(u)
  {
    StuckFacts(s);
    hide Stuck;
    u := if s.pc[t].Read? then t else s.reader.t;
    assert ReadsAs(s.pc[u], s.reader, u);
  }

  /** With nothing else in flight, the reply of a thread that reads is in the cache. */
  lemma ReplyIsCached(tidOf: Thread -> nat, s: State, u: Thread)
    requires Keyed(s.cache) && InFlight(s) == multiset(Expected(tidOf, s.pc)) && u in s.pc && s.pc[u].Read?
    requires s.requests == [] && s.server.Waiting? && s.replies == [] && s.reader == Blocked(u)
    ensures tidOf(u) in s.cache
  {
    var m := Msg(tidOf(u), s.pc[u].req);
    assert m in Expected(tidOf, s.pc);
    assert m in InFlight(s);
    assert m in s.cache.Values;
  }

  /** Nothing moves any more only when every transact has returned. */
  lemma StuckIsDone(tidOf: Thread -> nat, s: State, t: Thread)
    requires Inv(tidOf, s) && ReaderLacks(tidOf, s) && Stuck(s) && t in s.pc
    ensures !UnderWay(s.pc[t])
  {
    if UnderWay(s.pc[t]) {
      hide RightReply, InFlight, Expected;
      var u := StuckReader(s, t);
      StuckFacts(s);
      ReplyIsCached(tidOf, s, u);
      assert false;
    }
  }

  /** s' comes after s, in n proper steps. */
  ghost predicate Leads(tidOf: Thread -> nat, s: State, n: nat, s': State)
    decreases n
  {
    if n == 0 then s' == s else exists a :: Proper(s, a) && Leads(tidOf, After(tidOf, s, a), n - 1, s')
  }

  lemma StepsOn(tidOf: Thread -> nat, s: State, a: Action)
    requires Inv(tidOf, s) && Distinct(tidOf, s.pc) && ReaderLacks(tidOf, s) && Proper(s, a)
    ensures var s' := After(tidOf, s, a);
      Inv(tidOf, s') && Distinct(tidOf, s'.pc) && ReaderLacks(tidOf, s') && RunsDown(s, s')
  {
    StepInv(tidOf, s, a);
    StepReaderLacks(tidOf, s, a);
    ProperRunsDown(tidOf, s, a);
    hide After, Inv, ReaderLacks, RunsDown, Proper;
  }

  /** A state in which every transact has returned can always be reached, whatever steps are taken on the way. */
  lemma {:induction false} Finishes(tidOf: Thread -> nat, s: State) returns (n: nat, s': State)
    requires Inv(tidOf, s) && Distinct(tidOf, s.pc) && ReaderLacks(tidOf, s)
    ensures Leads(tidOf, s, n, s') && forall t :: t in s'.pc ==> !UnderWay(s'.pc[t])
    decreases ToGo(s), |Notifiers(s.pc)|, |Loopers(s.pc)|
  {
    n, s' := 0, s;
    if Stuck(s) {
      forall t | t in s.pc ensures !UnderWay(s.pc[t]) {
        StuckIsDone(tidOf, s, t);
      }
    } else {
      var a :| Proper(s, a);
      hide After, Inv, ReaderLacks, Proper, Distinct, ToGo, Notifiers, Loopers;
      StepsOn(tidOf, s, a);
      n, s' := Finishes(tidOf, After(tidOf, s, a));
      n := n + 1;
    }
  }

  /** From every reachable state, every transact that is under way can return. */
  lemma AllCanReturn(tidOf: Thread -> nat, run: seq<State>, acts: seq<Action>, i: nat)
    requires Run(tidOf, run, acts) && i < |run| && Distinct(tidOf, run[0].pc)
    ensures exists n: nat, s' :: Leads(tidOf, run[i], n, s') && forall t :: t in s'.pc ==> !UnderWay(s'.pc[t])
  {
    RunInv(tidOf, run, acts, i);
    RunReaderLacks(tidOf, run, acts, i);
    hide Inv, ReaderLacks, Leads, Run;
    var n, s' := Finishes(tidOf, run[i]);
  }
}
