/**
  RemoteProxyEnvironment::transact (lib/Remote/RemoteProxy.cpp): many threads share one request
  stream and one reply stream, and whoever reads a reply that is not its own leaves it in a cache.
  The other end answers requests one at a time (lib/Remote/ServerHandler.cpp). Each section under
  the mutex is one step.
 */
module RpcTransact {

  type Thread = nat

  /** A request or the reply to it: the thread id it carries, and which request it is. */
  datatype Msg = Msg(tid: nat, req: nat)

  datatype Pc =
    | Idle
    | Send(req: nat)
    | Loop(req: nat)                      // about to take the mutex at the loop start
    | Sleep(req: nat)                     // in isCond.wait
    | Read(req: nat)                      // blocked in recvDatagram
    | Got(req: nat, m: Msg)               // holds a datagram, about to take the mutex again
    | NotifyLoop(req: nat)                // cached a foreign reply, about to notify
    | NotifyReturn(req: nat, m: Msg)      // has its reply, about to notify
    | Returned(req: nat, m: Msg)

  datatype Server = Waiting | Handling(m: Msg)

  /** Who reads the reply stream, and the datagram it holds; kept for the statement only. */
  datatype Reader = NoOne | Blocked(t: Thread) | Holds(t: Thread, m: Msg)

  datatype State = State(
    pc: map<Thread, Pc>,
    requests: seq<Msg>,
    server: Server,
    replies: seq<Msg>,
    isBlocking: bool,
    cache: map<nat, Msg>,
    reader: Reader)

  datatype Action = Client(t: Thread, choice: nat) | ServerTakes | ServerReplies

  predicate Init(s: State) {
    && (forall t :: t in s.pc ==> s.pc[t] == Idle)
    && s.requests == [] && s.server == Waiting && s.replies == []
    && !s.isBlocking && s.cache == map[] && s.reader == NoOne
  }

  predicate Enabled(s: State, a: Action) {
    match a
    case Client(t, _) => t in s.pc && (s.pc[t].Read? ==> s.replies != [])
    case ServerTakes => s.server.Waiting? && s.requests != []
    case ServerReplies => s.server.Handling?
  }

  /** notify_all. */
  function Wake(pc: map<Thread, Pc>): map<Thread, Pc> {
    map t | t in pc :: if pc[t].Sleep? then Loop(pc[t].req) else pc[t]
  }

  function NextPc(s: State, id: nat, p: Pc, choice: nat): Pc
    requires p.Read? ==> s.replies != []
  {
    match p
    case Idle => Send(choice)
    case Send(r) => Loop(r)
    case Loop(r) =>
      if id in s.cache then NotifyReturn(r, s.cache[id])
      else if s.isBlocking then Sleep(r) else Read(r)
    case Sleep(r) => Loop(r)
    case Read(r) => Got(r, s.replies[0])
    case Got(r, m) => if m.tid == id then NotifyReturn(r, m) else NotifyLoop(r)
    case NotifyLoop(r) => Loop(r)
    case NotifyReturn(r, m) => Returned(r, m)
    case Returned(_, _) => Idle
  }

  function Effect(s: State, t: Thread, id: nat, p: Pc): State
    requires p.Read? ==> s.replies != []
  {
    match p
    case Send(r) => s.(requests := s.requests + [Msg(id, r)])
    case Loop(r) =>
      if id in s.cache then s.(cache := s.cache - {id})
      else if s.isBlocking then s else s.(isBlocking := true, reader := Blocked(t))
    case Read(_) => s.(replies := s.replies[1..], reader := Holds(t, s.replies[0]))
    case Got(_, m) =>
      var s1 := s.(isBlocking := false, reader := NoOne);
      if m.tid == id then s1 else s1.(cache := s.cache[m.tid := m])
    case NotifyLoop(_) => s.(pc := Wake(s.pc))
    case NotifyReturn(_, _) => s.(pc := Wake(s.pc))
    case _ => s
  }

  /** One step; tidOf gives each thread the (hashed, truncated) id it puts in its requests. */
  function After(tidOf: Thread -> nat, s: State, a: Action): State
    requires Enabled(s, a)
  {
    match a
    case Client(t, choice) =>
      var e := Effect(s, t, tidOf(t), s.pc[t]);
      e.(pc := e.pc[t := NextPc(s, tidOf(t), s.pc[t], choice)])
    case ServerTakes => s.(server := Handling(s.requests[0]), requests := s.requests[1..])
    case ServerReplies => s.(server := Waiting, replies := s.replies + [s.server.m])
  }

  predicate Run(tidOf: Thread -> nat, run: seq<State>, acts: seq<Action>) {
    && |run| == |acts| + 1 && Init(run[0])
    && forall i :: 0 <= i < |acts| ==> Enabled(run[i], acts[i]) && run[i + 1] == After(tidOf, run[i], acts[i])
  }

  // ---------- invariants ----------

  /** Has sent its request and does not have its reply yet. */
  predicate Outstanding(p: Pc) {
    p.Loop? || p.Sleep? || p.Read? || p.Got? || p.NotifyLoop?
  }

  /** What the outstanding threads wait for. */
  function Expected(tidOf: Thread -> nat, pc: map<Thread, Pc>): set<Msg> {
    set t | t in pc && Outstanding(pc[t]) :: Msg(tidOf(t), pc[t].req)
  }

  /** Everything between a sent request and a received reply. */
  function InFlight(s: State): multiset<Msg> {
    multiset(s.requests)
    + (if s.server.Handling? then multiset{s.server.m} else multiset{})
    + multiset(s.replies)
    + (if s.reader.Holds? then multiset{s.reader.m} else multiset{})
    + multiset(s.cache.Values)
  }

  predicate Distinct(tidOf: Thread -> nat, pc: map<Thread, Pc>) {
    forall t, u :: t in pc && u in pc && tidOf(t) == tidOf(u) ==> t == u
  }

  predicate Keyed(cache: map<nat, Msg>) {
    forall k :: k in cache ==> cache[k].tid == k
  }

  /** isBlocking is set exactly while one thread reads, and that thread is known. */
  predicate OneReader(s: State) {
    && (s.isBlocking <==> !s.reader.NoOne?)
    && (!s.reader.NoOne? ==> s.reader.t in s.pc)
    && (forall t :: t in s.pc ==> ReadsAs(s.pc[t], s.reader, t))
  }

  /**
    A thread stands at the read exactly when it is the known reader, and holds the datagram that is known
    to be held.
   */
  predicate ReadsAs(p: Pc, reader: Reader, t: Thread) {
    && (p.Read? <==> reader == Blocked(t))
    && (p.Got? <==> reader.Holds? && reader.t == t)
    && (p.Got? ==> reader == Holds(t, p.m))
  }

  predicate Reads(p: Pc) {
    p.Read? || p.Got?
  }

  predicate Notifies(p: Pc) {
    p.NotifyLoop? || p.NotifyReturn?
  }

  /** A sleeping thread will be woken: someone still reads, or has yet to notify. */
  predicate NoSleeperForgotten(s: State) {
    (exists t :: t in s.pc && s.pc[t].Sleep?) ==> s.isBlocking || exists u :: u in s.pc && Notifies(s.pc[u])
  }

  predicate RightReply(p: Pc, id: nat) {
    (p.NotifyReturn? || p.Returned?) ==> p.m == Msg(id, p.req)
  }

  predicate Inv(tidOf: Thread -> nat, s: State) {
    && Keyed(s.cache)
    && InFlight(s) == multiset(Expected(tidOf, s.pc))
    && OneReader(s)
    && NoSleeperForgotten(s)
    && forall t :: t in s.pc ==> RightReply(s.pc[t], tidOf(t))
  }

  lemma InitInv(tidOf: Thread -> nat, s: State)
    requires Init(s)
    ensures Inv(tidOf, s)
  {
    assert Expected(tidOf, s.pc) == {};
    assert s.cache.Values == {};
  }

  /** Whatever is in flight belongs to one outstanding thread. */
  lemma Owner(tidOf: Thread -> nat, s: State, m: Msg) returns (t: Thread)
    requires InFlight(s) == multiset(Expected(tidOf, s.pc)) && m in InFlight(s)
    ensures t in s.pc && Outstanding(s.pc[t]) && m == Msg(tidOf(t), s.pc[t].req)
  {
    assert m in Expected(tidOf, s.pc);
    t :| t in s.pc && Outstanding(s.pc[t]) && m == Msg(tidOf(t), s.pc[t].req);
  }

  /** A thread's reply is nobody else's. */
  lemma OwnMessage(tidOf: Thread -> nat, s: State, m: Msg, t: Thread)
    requires Inv(tidOf, s) && Distinct(tidOf, s.pc) && m in InFlight(s)
    requires t in s.pc && Outstanding(s.pc[t]) && m.tid == tidOf(t)
    ensures m == Msg(tidOf(t), s.pc[t].req)
  {
    var u := Owner(tidOf, s, m);
  }

  /** A reply that is held is not cached as well. */
  lemma HeldNotCached(tidOf: Thread -> nat, s: State, m: Msg)
    requires Inv(tidOf, s) && Distinct(tidOf, s.pc) && s.reader.Holds? && s.reader.m == m
    ensures m.tid !in s.cache
  {
    if m.tid in s.cache {
      var c := s.cache[m.tid];
      assert c in s.cache.Values;
      var t := Owner(tidOf, s, m);
      var u := Owner(tidOf, s, c);
    }
  }

  /** How the set of expected replies moves with one thread. */
  lemma ExpectedMoves(tidOf: Thread -> nat, pc: map<Thread, Pc>, t: Thread, p: Pc)
    requires t in pc && Distinct(tidOf, pc)
    requires Outstanding(pc[t]) && Outstanding(p) ==> p.req == pc[t].req
    ensures var was, now := Expected(tidOf, pc), Expected(tidOf, pc[t := p]);
      && (Outstanding(pc[t]) == Outstanding(p) ==> now == was)
      && (!Outstanding(pc[t]) && Outstanding(p) ==> Msg(tidOf(t), p.req) !in was && now == was + {Msg(tidOf(t), p.req)})
      && (Outstanding(pc[t]) && !Outstanding(p) ==>
        Msg(tidOf(t), pc[t].req) in was && now == was - {Msg(tidOf(t), pc[t].req)})
  {
    var pc' := pc[t := p];
    var was, now := Expected(tidOf, pc), Expected(tidOf, pc');
    forall m | m in was && (Outstanding(pc[t]) ==> m != Msg(tidOf(t), pc[t].req)) ensures m in now {
      var u :| u in pc && Outstanding(pc[u]) && m == Msg(tidOf(u), pc[u].req);
      assert u in pc' && pc'[u] == pc[u];
    }
    forall m | m in now && (Outstanding(p) ==> m != Msg(tidOf(t), p.req)) ensures m in was {
      var u :| u in pc' && Outstanding(pc'[u]) && m == Msg(tidOf(u), pc'[u].req);
      assert u in pc && pc'[u] == pc[u];
    }
  }

  lemma WakeExpected(tidOf: Thread -> nat, pc: map<Thread, Pc>)
    ensures Expected(tidOf, Wake(pc)) == Expected(tidOf, pc)
  {
    forall m | m in Expected(tidOf, pc) ensures m in Expected(tidOf, Wake(pc)) {
      var u :| u in pc && Outstanding(pc[u]) && m == Msg(tidOf(u), pc[u].req);
      assert u in Wake(pc) && Outstanding(Wake(pc)[u]) && m == Msg(tidOf(u), Wake(pc)[u].req);
    }
    forall m | m in Expected(tidOf, Wake(pc)) ensures m in Expected(tidOf, pc) {
      var u :| u in Wake(pc) && Outstanding(Wake(pc)[u]) && m == Msg(tidOf(u), Wake(pc)[u].req);
      assert u in pc && Outstanding(pc[u]) && m == Msg(tidOf(u), pc[u].req);
    }
  }

  // ---------- each step keeps what is in flight ----------

  lemma ServerTakesRequest(s: State)
    requires s.requests != [] && s.server.Waiting?
    ensures InFlight(s.(server := Handling(s.requests[0]), requests := s.requests[1..])) == InFlight(s)
  {
    assert s.requests == [s.requests[0]] + s.requests[1..];
    assert multiset(s.requests) == multiset{s.requests[0]} + multiset(s.requests[1..]);
  }

  lemma ServerSendsReply(s: State)
    requires s.server.Handling?
    ensures InFlight(s.(server := Waiting, replies := s.replies + [s.server.m])) == InFlight(s)
  {
    assert multiset(s.replies + [s.server.m]) == multiset(s.replies) + multiset{s.server.m};
  }

  lemma ServerConserves(tidOf: Thread -> nat, s: State, a: Action)
    requires !a.Client? && Enabled(s, a) && Conserved(tidOf, s)
    ensures Conserved(tidOf, After(tidOf, s, a))
  {
    hide InFlight, Keyed, Expected;
    if a.ServerTakes? {
      ServerTakesRequest(s);
    } else {
      ServerSendsReply(s);
    }
  }

  lemma TakeCached(s: State, id: nat)
    requires Keyed(s.cache) && id in s.cache
    ensures var e := s.(cache := s.cache - {id});
      && Keyed(e.cache) && s.cache[id] in InFlight(s)
      && InFlight(e) == InFlight(s) - multiset{s.cache[id]}
  {
    RemoveValue(s.cache, id);
    var V, m := s.cache.Values, s.cache[id];
    assert m in V;
    assert multiset(V) == multiset(V - {m}) + multiset{m};
  }

  lemma TakeReply(s: State, t: Thread)
    requires s.replies != [] && !s.reader.Holds?
    ensures InFlight(s.(replies := s.replies[1..], reader := Holds(t, s.replies[0]))) == InFlight(s)
  {
    assert s.replies == [s.replies[0]] + s.replies[1..];
  }

  lemma KeepForeign(s: State, m: Msg)
    requires Keyed(s.cache) && s.reader.Holds? && s.reader.m == m && m.tid !in s.cache
    ensures var e := s.(isBlocking := false, reader := NoOne, cache := s.cache[m.tid := m]);
      Keyed(e.cache) && InFlight(e) == InFlight(s)
  {
    AddValue(s.cache, m);
    var V := s.cache.Values;
    assert multiset(V + {m}) == multiset(V) + multiset{m};
  }

  lemma DropHeld(s: State, m: Msg)
    requires s.reader.Holds? && s.reader.m == m
    ensures m in InFlight(s) && InFlight(s.(isBlocking := false, reader := NoOne)) == InFlight(s) - multiset{m}
  {
  }

  lemma RemoveValue(cache: map<nat, Msg>, id: nat)
    requires Keyed(cache) && id in cache
    ensures (cache - {id}).Values == cache.Values - {cache[id]}
  {
    var c' := cache - {id};
    forall m | m in cache.Values - {cache[id]} ensures m in c'.Values {
      var k :| k in cache && cache[k] == m;
      assert k in c' && c'[k] == m;
    }
  }

  lemma AddValue(cache: map<nat, Msg>, m: Msg)
    requires Keyed(cache) && m.tid !in cache
    ensures cache[m.tid := m].Values == cache.Values + {m} && m !in cache.Values
    ensures Keyed(cache[m.tid := m])
  {
    var c' := cache[m.tid := m];
    assert m.tid in c' && c'[m.tid] == m;
    forall v | v in cache.Values ensures v in c'.Values {
      var k :| k in cache && cache[k] == v;
      assert k in c' && c'[k] == v;
    }
  }

  lemma SendRequest(s: State, m: Msg)
    ensures InFlight(s.(requests := s.requests + [m])) == InFlight(s) + multiset{m}
  {
    assert multiset(s.requests + [m]) == multiset(s.requests) + multiset{m};
  }

  /** The messages in flight are those that the outstanding threads expect, each exactly once. */
  predicate Conserved(tidOf: Thread -> nat, s: State) {
    Keyed(s.cache) && InFlight(s) == multiset(Expected(tidOf, s.pc))
  }

  /** A step that takes its own reply out of flight. */
  lemma TakesOwn(tidOf: Thread -> nat, s: State, e: State, t: Thread, p: Pc, m: Msg)
    requires Inv(tidOf, s) && Distinct(tidOf, s.pc) && t in s.pc && Outstanding(s.pc[t]) && !Outstanding(p)
    requires Keyed(e.cache) && m in InFlight(s) && InFlight(e) == InFlight(s) - multiset{m} && m.tid == tidOf(t)
    ensures Conserved(tidOf, e.(pc := s.pc[t := p]))
  {
    OwnMessage(tidOf, s, m, t);
    ExpectedMoves(tidOf, s.pc, t, p);
    hide Outstanding, Keyed, Expected;
    var was := Expected(tidOf, s.pc);
    assert multiset(was - {m}) == multiset(was) - multiset{m};
    hide InFlight;
  }

  /** A step that leaves everything in flight. */
  lemma TakesNothing(tidOf: Thread -> nat, s: State, e: State, t: Thread, p: Pc)
    requires Conserved(tidOf, s) && Distinct(tidOf, s.pc) && t in s.pc && Outstanding(s.pc[t]) == Outstanding(p)
    requires Outstanding(p) ==> p.req == s.pc[t].req
    requires Keyed(e.cache) && InFlight(e) == InFlight(s)
    requires e.pc == s.pc || (e.pc == Wake(s.pc) && !s.pc[t].Sleep?)
    ensures Conserved(tidOf, e.(pc := e.pc[t := p]))
  {
    WakeExpected(tidOf, s.pc);
    ExpectedMoves(tidOf, e.pc, t, p);
    hide Outstanding, Keyed, Expected;
    hide InFlight;
  }

  lemma ClientSends(tidOf: Thread -> nat, s: State, t: Thread, choice: nat)
    requires Inv(tidOf, s) && Distinct(tidOf, s.pc) && t in s.pc && s.pc[t].Send?
    ensures Conserved(tidOf, After(tidOf, s, Client(t, choice)))
  {
    var m, p := Msg(tidOf(t), s.pc[t].req), Loop(s.pc[t].req);
    ExpectedMoves(tidOf, s.pc, t, p);
    hide Keyed, Expected, NoSleeperForgotten, RightReply, OneReader;
    var was, e := Expected(tidOf, s.pc), s.(requests := s.requests + [m]);
    assert multiset(was + {m}) == multiset(was) + multiset{m};
    hide InFlight;
    SendRequest(s, m);
  }

  /** The own reply is in the cache, or is the one just read. */
  predicate HasOwn(s: State, id: nat, p: Pc) {
    (p.Loop? && id in s.cache) || (p.Got? && p.m.tid == id)
  }

  lemma ClientTakes(tidOf: Thread -> nat, s: State, t: Thread, choice: nat)
    requires Inv(tidOf, s) && Distinct(tidOf, s.pc) && t in s.pc && HasOwn(s, tidOf(t), s.pc[t])
    ensures Conserved(tidOf, After(tidOf, s, Client(t, choice)))
  {
    hide Keyed, Expected, InFlight, Conserved, NoSleeperForgotten, RightReply;
    var id, p := tidOf(t), s.pc[t];
    if p.Loop? {
      TakeCached(s, id);
      CacheKey(s, id);
      TakesOwn(tidOf, s, s.(cache := s.cache - {id}), t, NotifyReturn(p.req, s.cache[id]), s.cache[id]);
    } else {
      DropHeld(s, p.m);
      TakesOwn(tidOf, s, s.(isBlocking := false, reader := NoOne), t, NotifyReturn(p.req, p.m), p.m);
    }
  }

  lemma ClientLeaves(tidOf: Thread -> nat, s: State, t: Thread, choice: nat)
    requires Inv(tidOf, s) && Distinct(tidOf, s.pc) && Enabled(s, Client(t, choice))
    requires !s.pc[t].Send? && !HasOwn(s, tidOf(t), s.pc[t])
    ensures Conserved(tidOf, After(tidOf, s, Client(t, choice)))
  {
    hide Keyed, Expected, InFlight, NoSleeperForgotten, RightReply;
    var id, p := tidOf(t), s.pc[t];
    var p', e := NextPc(s, id, p, choice), Effect(s, t, id, p);
    if p.Read? {
      TakeReply(s, t);
    } else if p.Got? {
      HeldNotCached(tidOf, s, p.m);
      KeepForeign(s, p.m);
    } else {
      SharedSame(s, e);
    }
    TakesNothing(tidOf, s, e, t, p');
  }

  lemma ClientConserves(tidOf: Thread -> nat, s: State, t: Thread, choice: nat)
    requires Inv(tidOf, s) && Distinct(tidOf, s.pc) && Enabled(s, Client(t, choice))
    ensures Conserved(tidOf, After(tidOf, s, Client(t, choice)))
  {
    hide Inv, Distinct, Conserved, After, HasOwn;
    if s.pc[t].Send? {
      ClientSends(tidOf, s, t, choice);
    } else if HasOwn(s, tidOf(t), s.pc[t]) {
      ClientTakes(tidOf, s, t, choice);
    } else {
      ClientLeaves(tidOf, s, t, choice);
    }
  }

  lemma CacheKey(s: State, id: nat)
    requires Keyed(s.cache) && id in s.cache
    ensures s.cache[id].tid == id
  {
  }

  lemma SharedSame(s: State, e: State)
    requires e.requests == s.requests && e.server == s.server && e.replies == s.replies && e.cache == s.cache
    requires (!e.reader.Holds? && !s.reader.Holds?) || e.reader == s.reader
    ensures InFlight(e) == InFlight(s)
  {
  }

  lemma StepKeepsReader(tidOf: Thread -> nat, s: State, a: Action)
    requires OneReader(s) && Enabled(s, a)
    ensures OneReader(After(tidOf, s, a))
  {
    var s' := After(tidOf, s, a);
    forall u | u in s'.pc ensures ReadsAs(s'.pc[u], s'.reader, u) {
      assert ReadsAs(s.pc[u], s.reader, u);
      if a.Client? && u != a.t {
        assert ReadsAs(s.pc[a.t], s.reader, a.t);
      }
    }
  }

  lemma StepKeepsSleepers(tidOf: Thread -> nat, s: State, a: Action)
    requires OneReader(s) && NoSleeperForgotten(s) && Enabled(s, a)
    ensures NoSleeperForgotten(After(tidOf, s, a))
  {
    var s' := After(tidOf, s, a);
    if a.Client? && (exists u :: u in s'.pc && s'.pc[u].Sleep?) && !s'.isBlocking {
      var t := a.t;
      var u :| u in s'.pc && s'.pc[u].Sleep?;
      if s.isBlocking {
        assert Notifies(s'.pc[t]);
      } else {
        assert s.pc[u].Sleep?;
        var v :| v in s.pc && Notifies(s.pc[v]);
        assert v in s'.pc && Notifies(s'.pc[v]);
      }
    }
  }

  lemma StepKeepsReplies(tidOf: Thread -> nat, s: State, a: Action)
    requires Inv(tidOf, s) && Distinct(tidOf, s.pc) && Enabled(s, a)
    ensures var s' := After(tidOf, s, a); forall u :: u in s'.pc ==> RightReply(s'.pc[u], tidOf(u))
  {
    hide InFlight, Expected, NoSleeperForgotten;
    if a.Client? {
      var t := a.t;
      var id, p := tidOf(t), s.pc[t];
      if p.Loop? && id in s.cache {
        TakeCached(s, id);
        OwnMessage(tidOf, s, s.cache[id], t);
      } else if p.Got? && p.m.tid == id {
        DropHeld(s, p.m);
        OwnMessage(tidOf, s, p.m, t);
      }
    }
  }

  lemma StepInv(tidOf: Thread -> nat, s: State, a: Action)
    requires Inv(tidOf, s) && Distinct(tidOf, s.pc) && Enabled(s, a)
    ensures Inv(tidOf, After(tidOf, s, a)) && After(tidOf, s, a).pc.Keys == s.pc.Keys
  {
    hide InFlight, Expected, OneReader, NoSleeperForgotten, Keyed, RightReply, Distinct, NextPc, Effect, After;
    StepKeepsReader(tidOf, s, a);
    StepKeepsSleepers(tidOf, s, a);
    StepKeepsReplies(tidOf, s, a);
    StepKeepsThreads(tidOf, s, a);
    if a.Client? {
      ClientConserves(tidOf, s, a.t, a.choice);
    } else {
      ServerConserves(tidOf, s, a);
    }
  }

  lemma StepKeepsThreads(tidOf: Thread -> nat, s: State, a: Action)
    requires Enabled(s, a)
    ensures After(tidOf, s, a).pc.Keys == s.pc.Keys
  {
  }

  // ---------- every run ----------

  lemma {:induction false} RunInv(tidOf: Thread -> nat, run: seq<State>, acts: seq<Action>, n: nat)
    requires Run(tidOf, run, acts) && n < |run| && Distinct(tidOf, run[0].pc)
    ensures Inv(tidOf, run[n]) && run[n].pc.Keys == run[0].pc.Keys
  {
    if n == 0 {
      InitInv(tidOf, run[0]);
    } else {
      RunInv(tidOf, run, acts, n - 1);
      hide Inv, After, Init;
      assert Enabled(run[n - 1], acts[n - 1]) && run[n - 1 + 1] == After(tidOf, run[n - 1], acts[n - 1]);
      assert Distinct(tidOf, run[n - 1].pc);
      StepInv(tidOf, run[n - 1], acts[n - 1]);
    }
  }

  /** Every transact returns the reply to its own request. */
  lemma OwnReply(tidOf: Thread -> nat, run: seq<State>, acts: seq<Action>, n: nat, t: Thread)
    requires Run(tidOf, run, acts) && n < |run| && Distinct(tidOf, run[0].pc)
    requires t in run[n].pc && run[n].pc[t].Returned?
    ensures run[n].pc[t].m == Msg(tidOf(t), run[n].pc[t].req)
  {
    RunInv(tidOf, run, acts, n);
  }

  /** The message of an outstanding thread is in exactly one place, and nothing else is anywhere. */
  lemma ExactlyOnePlace(tidOf: Thread -> nat, run: seq<State>, acts: seq<Action>, n: nat)
    requires Run(tidOf, run, acts) && n < |run| && Distinct(tidOf, run[0].pc)
    ensures forall t :: t in run[n].pc && Outstanding(run[n].pc[t]) ==>
      InFlight(run[n])[Msg(tidOf(t), run[n].pc[t].req)] == 1
    ensures forall m :: m in InFlight(run[n]) ==>
      exists t :: t in run[n].pc && Outstanding(run[n].pc[t]) && m == Msg(tidOf(t), run[n].pc[t].req)
  {
    RunInv(tidOf, run, acts, n);
    var s := run[n];
    forall t | t in s.pc && Outstanding(s.pc[t]) ensures InFlight(s)[Msg(tidOf(t), s.pc[t].req)] == 1 {
      assert Msg(tidOf(t), s.pc[t].req) in Expected(tidOf, s.pc);
    }
    forall m | m in InFlight(s)
      ensures exists t :: t in s.pc && Outstanding(s.pc[t]) && m == Msg(tidOf(t), s.pc[t].req)
    {
      var t := Owner(tidOf, s, m);
    }
  }

  /** At most one thread reads, and while any thread sleeps one reads or one is about to notify. */
  lemma ReaderAndSleepers(tidOf: Thread -> nat, run: seq<State>, acts: seq<Action>, n: nat)
    requires Run(tidOf, run, acts) && n < |run| && Distinct(tidOf, run[0].pc)
    ensures forall t, u :: t in run[n].pc && u in run[n].pc && Reads(run[n].pc[t]) && Reads(run[n].pc[u]) ==> t == u
    ensures (exists t :: t in run[n].pc && run[n].pc[t].Sleep?) ==>
      exists u :: u in run[n].pc && (Reads(run[n].pc[u]) || Notifies(run[n].pc[u]))
  {
    RunInv(tidOf, run, acts, n);
    var s := run[n];
    if s.isBlocking {
      assert s.reader.t in s.pc && Reads(s.pc[s.reader.t]);
    }
  }

  // ---------- what distinct ids are needed for ----------

  function Start(threads: set<Thread>): State {
    State(map t | t in threads :: Idle, [], Waiting, [], false, map[], NoOne)
  }

  /** A run, one step longer. */
  lemma OneMore(tidOf: Thread -> nat, run: seq<State>, acts: seq<Action>, a: Action)
    requires Run(tidOf, run, acts) && Enabled(run[|run| - 1], a)
    ensures Run(tidOf, run + [After(tidOf, run[|run| - 1], a)], acts + [a])
  {
    hide After, Enabled, Init;
  }

  /** Two threads have asked, and the first one's request is answered. */
  lemma BothAsk(tidOf: Thread -> nat, threads: set<Thread>, a: Thread, b: Thread)
      returns (run: seq<State>, acts: seq<Action>)
    requires a in threads && b in threads && a != b
    ensures Run(tidOf, run, acts) && run[0].pc.Keys == threads
    ensures var s := run[|run| - 1];
      b in s.pc && s.pc[b] == Loop(1) && s.replies == [Msg(tidOf(a), 0)] && s.cache == map[] && !s.isBlocking
  {
    var s0 := Start(threads);
    var s1 := After(tidOf, s0, Client(a, 0));
    var s2 := After(tidOf, s1, Client(a, 0));
    var s3 := After(tidOf, s2, Client(b, 1));
    var s4 := After(tidOf, s3, Client(b, 1));
    assert s4.requests == [Msg(tidOf(a), 0), Msg(tidOf(b), 1)];
    var s5 := After(tidOf, s4, ServerTakes);
    var s6 := After(tidOf, s5, ServerReplies);
    run := [s0, s1, s2, s3, s4, s5, s6];
    acts := [Client(a, 0), Client(a, 0), Client(b, 1), Client(b, 1), ServerTakes, ServerReplies];
  }

  /** Two threads with one id: the second to ask reads the first one's reply and returns it. */
  lemma SharedIdMixesReplies(tidOf: Thread -> nat, threads: set<Thread>, a: Thread, b: Thread)
      returns (run: seq<State>, acts: seq<Action>)
    requires a in threads && b in threads && a != b && tidOf(a) == tidOf(b)
    ensures Run(tidOf, run, acts) && run[0].pc.Keys == threads
    ensures b in run[|run| - 1].pc && run[|run| - 1].pc[b].Returned?
    ensures run[|run| - 1].pc[b].m != Msg(tidOf(b), run[|run| - 1].pc[b].req)
  {
    run, acts := BothAsk(tidOf, threads, a, b);
    hide Run;
    OneMore(tidOf, run, acts, Client(b, 0));
    run, acts := run + [After(tidOf, run[|run| - 1], Client(b, 0))], acts + [Client(b, 0)];
    OneMore(tidOf, run, acts, Client(b, 0));
    run, acts := run + [After(tidOf, run[|run| - 1], Client(b, 0))], acts + [Client(b, 0)];
    OneMore(tidOf, run, acts, Client(b, 0));
    run, acts := run + [After(tidOf, run[|run| - 1], Client(b, 0))], acts + [Client(b, 0)];
    OneMore(tidOf, run, acts, Client(b, 0));
    run, acts := run + [After(tidOf, run[|run| - 1], Client(b, 0))], acts + [Client(b, 0)];
  }

  predicate ReturnsOwn(tidOf: Thread -> nat, s: State, t: Thread) {
    t in s.pc && s.pc[t].Returned? ==> s.pc[t].m == Msg(tidOf(t), s.pc[t].req)
  }

  /** Every run over these threads returns each thread its own replies. */
  ghost predicate AlwaysOwnReply(tidOf: Thread -> nat, threads: set<Thread>) {
    forall run: seq<State>, acts: seq<Action>, n: nat, t: Thread ::
      Run(tidOf, run, acts) && run[0].pc.Keys == threads && n < |run| ==> ReturnsOwn(tidOf, run[n], t)
  }

  /** transact is right on every run exactly when no two of its threads share an id. */
  lemma OwnReplyExactly(tidOf: Thread -> nat, threads: set<Thread>)
    ensures AlwaysOwnReply(tidOf, threads) <==>
      forall a, b :: a in threads && b in threads && tidOf(a) == tidOf(b) ==> a == b
  {
    if a, b :| a in threads && b in threads && tidOf(a) == tidOf(b) && a != b {
      var run, acts := SharedIdMixesReplies(tidOf, threads, a, b);
      assert !ReturnsOwn(tidOf, run[|run| - 1], b);
    } else {
      forall run: seq<State>, acts: seq<Action>, n: nat, t: Thread |
        Run(tidOf, run, acts) && run[0].pc.Keys == threads && n < |run|
        ensures ReturnsOwn(tidOf, run[n], t)
      {
        if t in run[n].pc && run[n].pc[t].Returned? {
          OwnReply(tidOf, run, acts, n, t);
        }
      }
    }
  }
}
