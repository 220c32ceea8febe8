/**
  The flat dump (lib/Framework/TopologyDumpJSON.cpp): hierarchies are dissolved one level at a time,
  in place, until none is left. Display names and port descriptions are not modelled.
 */
module DumpFlatten {
  import opened Flatten
  import opened DumpBridges
  import opened Values
  import SquashFlows

  datatype Conn = Conn(srcId: Uid, srcName: string, dstId: Uid, dstName: string)
  datatype PortId = PortId(id: Uid, name: string)

  function IdOf(t: Topology, e: Port): Uid {
    if e.obj.Self? then t.uid else SquashFlows.UidOf(e.obj)
  }

  function ConnOf(t: Topology, f: Flow): Conn {
    Conn(IdOf(t, f.src), f.src.name, IdOf(t, f.dst), f.dst.name)
  }

  function EndOf(c: Conn, isSource: bool): PortId {
    if isSource then PortId(c.srcId, c.srcName) else PortId(c.dstId, c.dstName)
  }

  // ---------- one level ----------

  /** A port of the hierarchy block id is connected, inside, to r. */
  predicate Inside(s: Topology, f: Flow, id: Uid, name: string, isSource: bool, r: PortId) {
    var c := ConnOf(s, f);
    EndOf(c, !isSource) == PortId(id, name) && r == EndOf(c, isSource) && r.id != id
  }

  ghost predicate Resolved(blocks: map<Uid, Object>, e: PortId, isSource: bool, r: PortId) {
    && e.id in blocks
    && match blocks[e.id]
       case Sub(s) => exists f :: f in s.flows && Inside(s, f, e.id, e.name, isSource, r)
       case _ => r == e
  }

  /** The connections that replace those of the top level. */
  ghost predicate Unfolded(blocks: map<Uid, Object>, conns: seq<Conn>, c: Conn) {
    exists c0 :: c0 in conns && Resolved(blocks, EndOf(c0, true), true, EndOf(c, true)) &&
      Resolved(blocks, EndOf(c0, false), false, EndOf(c, false))
  }

  /** A totally internal connection of a hierarchy. */
  predicate IsInternal(id: Uid, s: Topology, f: Flow, c: Conn) {
    c == ConnOf(s, f) && c.srcId != id && c.dstId != id
  }

  /** A connection made of two that meet at a pass-through. */
  predicate IsBridge(id: Uid, s: Topology, f: Flow, conns: seq<Conn>, head: Conn, tail: Conn, c: Conn) {
    var pass := ConnOf(s, f);
    && pass.srcId == id && pass.dstId == id && head in conns && tail in conns
    && head.dstId == id && head.dstName == pass.srcName && tail.srcId == id && tail.srcName == pass.dstName
    && c == Conn(head.srcId, head.srcName, tail.dstId, tail.dstName)
  }

  ghost predicate GivenBy(id: Uid, s: Topology, f: Flow, conns: seq<Conn>, c: Conn) {
    IsInternal(id, s, f, c) || exists head, tail :: IsBridge(id, s, f, conns, head, tail, c)
  }

  ghost predicate FromHier(blocks: map<Uid, Object>, conns: seq<Conn>, id: Uid, c: Conn) {
    && id in blocks && blocks[id].Sub?
    && exists f :: f in blocks[id].top.flows && GivenBy(id, blocks[id].top, f, conns, c)
  }

  ghost predicate NextConn(blocks: map<Uid, Object>, conns: seq<Conn>, c: Conn) {
    Unfolded(blocks, conns, c) || exists id :: FromHier(blocks, conns, id, c)
  }

  /** The objects of the level below. */
  ghost predicate NextObject(blocks: map<Uid, Object>, obj: Object) {
    exists id :: id in blocks && Gives(blocks[id], obj)
  }

  // ---------- what a level stands for ----------

  ghost predicate IdResolves(blocks: map<Uid, Object>, e: PortId, isSource: bool, p: FlatPort) {
    e.id in blocks && EndResolves(Topology(e.id, []), Port(blocks[e.id], e.name), isSource, p)
  }

  ghost predicate Across(blocks: map<Uid, Object>, c: Conn, p: FlatPort, q: FlatPort) {
    IdResolves(blocks, EndOf(c, true), true, p) && IdResolves(blocks, EndOf(c, false), false, q)
  }

  function Between(x: FlatPort, y: FlatPort): Conn {
    Conn(x.uid, x.name, y.uid, y.name)
  }

  predicate IsBlock(blocks: map<Uid, Object>, id: Uid) {
    id in blocks && blocks[id] == Block(id)
  }

  /** A pass-through of hierarchy id, a connection into it from a block and one out of it to a block. */
  predicate IsLevelBridge(blocks: map<Uid, Object>, conns: seq<Conn>, x: FlatPort, y: FlatPort, id: Uid, f: Flow,
      head: Conn, tail: Conn) {
    && id in blocks && blocks[id].Sub? && f in blocks[id].top.flows
    && IsBridge(id, blocks[id].top, f, conns, head, tail, Between(x, y))
    && IsBlock(blocks, x.uid) && IsBlock(blocks, y.uid)
  }

  ghost predicate LevelBridged(blocks: map<Uid, Object>, conns: seq<Conn>, x: FlatPort, y: FlatPort) {
    exists id, f, head, tail :: IsLevelBridge(blocks, conns, x, y, id, f, head, tail)
  }

  ghost predicate AcrossSome(blocks: map<Uid, Object>, conns: seq<Conn>, x: FlatPort, y: FlatPort) {
    exists c :: c in conns && Across(blocks, c, x, y)
  }

  ghost predicate BelowSome(blocks: map<Uid, Object>, x: FlatPort, y: FlatPort) {
    exists id :: id in blocks && blocks[id].Sub? && Dumped(blocks[id].top, x, y)
  }

  /** What a level of the dump says of two blocks. */
  ghost predicate Says(blocks: map<Uid, Object>, conns: seq<Conn>, x: FlatPort, y: FlatPort) {
    AcrossSome(blocks, conns, x, y) || LevelBridged(blocks, conns, x, y) || BelowSome(blocks, x, y)
  }

  /** An end at a pass-through of a hierarchy has a block at the other end. */
  predicate PlainConn(blocks: map<Uid, Object>, c: Conn, isSource: bool) {
    var e, o := EndOf(c, isSource), EndOf(c, !isSource);
    e.id in blocks && blocks[e.id].Sub? && PassPort(blocks[e.id].top, e.name, isSource) ==> IsBlock(blocks, o.id)
  }

  predicate PlainLevel(blocks: map<Uid, Object>, conns: seq<Conn>) {
    forall c :: c in conns ==> PlainConn(blocks, c, true) && PlainConn(blocks, c, false)
  }

  /** obj is named somewhere in the hierarchy. */
  ghost predicate Known(root: Topology, obj: Object) {
    exists t :: InTree(root, t) && SquashFlows.Names(t, |t.flows|, obj)
  }

  ghost predicate Level(root: Topology, blocks: map<Uid, Object>) {
    forall id :: id in blocks ==> Known(root, blocks[id]) && SquashFlows.UidOf(blocks[id]) == id
  }

  ghost predicate NoPass(t: Topology) {
    forall f :: f in t.flows ==> !(f.src.obj.Self? && f.dst.obj.Self?)
  }

  ghost predicate NoPasses(root: Topology) {
    forall t :: InTree(root, t) ==> NoPass(t)
  }

  // ---------- identity ----------

  lemma KnownIsBelow(root: Topology, obj: Object) returns (t: Topology, j: nat, isSource: bool)
    requires Known(root, obj)
    ensures InTree(root, t) && j < |t.flows| && End(t.flows[j], isSource).obj == obj && !obj.Self?
    ensures obj.Sub? ==> InTree(root, obj.top)
  {
    hide InTree;
    t :| InTree(root, t) && SquashFlows.Names(t, |t.flows|, obj);
    j, isSource := SquashFlows.NamedEnd(t, obj);
    if obj.Sub? {
      TreeTransitive(root, t, obj.top);
    }
  }

  lemma KnownByUid(root: Topology, a: Object, b: Object)
    requires Distinct(root) && Known(root, a) && Known(root, b)
    ensures !a.Self? && !b.Self?
    ensures SquashFlows.UidOf(a) == SquashFlows.UidOf(b) ==> a == b
  {
    hide InTree, Known;
    var t, i, x := KnownIsBelow(root, a);
    var u, j, y := KnownIsBelow(root, b);
  }

  /** No object inside a topology has the topology's own uid. */
  lemma IdOfInside(root: Topology, s: Topology, f: Flow, isSource: bool)
    requires Distinct(root) && InTree(root, s) && f in s.flows
    ensures IdOf(s, End(f, isSource)) == s.uid <==> End(f, isSource).obj.Self?
    ensures !End(f, isSource).obj.Self? ==> SquashFlows.Names(s, |s.flows|, End(f, isSource).obj)
  {
    var obj := End(f, isSource).obj;
    var i :| 0 <= i < |s.flows| && s.flows[i] == f;
    assert End(s.flows[i], isSource).obj == obj;
    if obj.Sub? {
      Below(root, s, f, isSource);
      Smaller(s, i, isSource);
    }
    hide InTree;
  }

  lemma Smaller(s: Topology, i: nat, isSource: bool)
    requires i < |s.flows| && End(s.flows[i], isSource).obj.Sub?
    ensures End(s.flows[i], isSource).obj.top != s
  {
    assert Height(End(s.flows[i], isSource).obj) < Height(Sub(s)) by { HeightBelow(s, |s.flows|, i, isSource); }
  }

  // ---------- height ----------

  function Max(a: nat, b: nat): nat {
    if a < b then b else a
  }

  function Height(obj: Object): nat
    decreases obj
  {
    match obj
    case Sub(s) => 1 + FlowsHeight(s, |s.flows|)
    case _ => 0
  }

  /** The greatest height of an object named by the first n flows. */
  function FlowsHeight(t: Topology, n: nat): nat
    requires n <= |t.flows|
    decreases t, n
  {
    if n == 0 then 0
    else Max(Max(Height(t.flows[n - 1].src.obj), Height(t.flows[n - 1].dst.obj)), FlowsHeight(t, n - 1))
  }

  lemma {:induction false} HeightBelow(t: Topology, n: nat, i: nat, isSource: bool)
    requires i < n <= |t.flows|
    ensures Height(End(t.flows[i], isSource).obj) <= FlowsHeight(t, n)
  {
    if i < n - 1 {
      HeightBelow(t, n - 1, i, isSource);
    }
  }

  // ---------- a level keeps what it stands for ----------

  lemma NextKnown(root: Topology, blocks: map<Uid, Object>, obj: Object)
    requires Level(root, blocks) && NextObject(blocks, obj)
    ensures Known(root, obj)
  {
    hide InTree;
    var id :| id in blocks && Gives(blocks[id], obj);
    if blocks[id].Sub? {
      var t, j, isSource := KnownIsBelow(root, blocks[id]);
      assert InTree(root, blocks[id].top);
    }
  }

  /** The next level holds exactly the objects of the level below, by uid. */
  ghost predicate IsNext(blocks: map<Uid, Object>, next: map<Uid, Object>) {
    && (forall id :: id in next ==>
      NextObject(blocks, next[id]) && !next[id].Self? && SquashFlows.UidOf(next[id]) == id)
    && (forall obj :: NextObject(blocks, obj) && !obj.Self? ==> SquashFlows.UidOf(obj) in next)
  }

  lemma NextHolds(root: Topology, blocks: map<Uid, Object>, next: map<Uid, Object>, obj: Object)
    requires Distinct(root) && Level(root, blocks) && IsNext(blocks, next) && NextObject(blocks, obj)
    ensures !obj.Self? && SquashFlows.UidOf(obj) in next && next[SquashFlows.UidOf(obj)] == obj
  {
    hide Distinct, NextObject, Known;
    NextKnown(root, blocks, obj);
    KnownByUid(root, obj, obj);
    var other := next[SquashFlows.UidOf(obj)];
    NextKnown(root, blocks, other);
    KnownByUid(root, obj, other);
  }

  /** What is behind an end of a flow inside s is what the next level has for it. */
  lemma EndOnNext(root: Topology, blocks: map<Uid, Object>, next: map<Uid, Object>, s: Topology, f: Flow,
      isSource: bool, p: FlatPort)
    requires Distinct(root) && Level(root, blocks) && IsNext(blocks, next)
    requires s.uid in blocks && blocks[s.uid] == Sub(s) && f in s.flows && !End(f, isSource).obj.Self?
    ensures IdResolves(next, PortId(IdOf(s, End(f, isSource)), End(f, isSource).name), isSource, p) <==>
      EndResolves(s, End(f, isSource), isSource, p)
  {
    var obj := End(f, isSource).obj;
    InTreeOf(root, blocks, s);
    IdOfInside(root, s, f, isSource);
    assert Gives(blocks[s.uid], obj);
    NextHolds(root, blocks, next, obj);
    hide Distinct, Resolves, IsNext, InTree, Level;
  }

  lemma InTreeOf(root: Topology, blocks: map<Uid, Object>, s: Topology)
    requires Level(root, blocks) && s.uid in blocks && blocks[s.uid] == Sub(s)
    ensures InTree(root, s)
  {
    hide InTree, Known;
    var t, j, isSource := KnownIsBelow(root, Sub(s));
  }

  lemma ResolveOneLevel(root: Topology, blocks: map<Uid, Object>, next: map<Uid, Object>, e: PortId, isSource: bool,
      p: FlatPort)
    requires Distinct(root) && Level(root, blocks) && IsNext(blocks, next) && p.block
    ensures IdResolves(blocks, e, isSource, p) <==>
      exists r :: Resolved(blocks, e, isSource, r) && IdResolves(next, r, isSource, p)
  {
    if e.id in blocks {
      KnownByUid(root, blocks[e.id], blocks[e.id]);
      hide Distinct, InTree;
      if blocks[e.id].Sub? {
        HierOneLevel(root, blocks, next, blocks[e.id].top, e, isSource, p);
      } else {
        assert Gives(blocks[e.id], blocks[e.id]);
        NextHolds(root, blocks, next, blocks[e.id]);
        assert Resolved(blocks, e, isSource, e);
      }
    }
  }

  lemma HierOneLevel(root: Topology, blocks: map<Uid, Object>, next: map<Uid, Object>, s: Topology, e: PortId,
      isSource: bool, p: FlatPort)
    requires Distinct(root) && Level(root, blocks) && IsNext(blocks, next) && p.block
    requires e.id in blocks && blocks[e.id] == Sub(s)
    ensures Resolves(s, e.name, isSource, p) <==>
      exists r :: Resolved(blocks, e, isSource, r) && IdResolves(next, r, isSource, p)
  {
    assert s.uid == e.id;
    hide InTree, Distinct, Level, IsNext, IdResolves, Resolves, Resolved;
    if Resolves(s, e.name, isSource, p) {
      var r := FindInside(root, blocks, next, s, e, isSource, p);
    }
    forall r | Resolved(blocks, e, isSource, r) && IdResolves(next, r, isSource, p)
      ensures Resolves(s, e.name, isSource, p) {
      FoundInside(root, blocks, next, s, e, isSource, r, p);
    }
  }

  lemma FindInside(root: Topology, blocks: map<Uid, Object>, next: map<Uid, Object>, s: Topology, e: PortId,
      isSource: bool, p: FlatPort) returns (r: PortId)
    requires Distinct(root) && Level(root, blocks) && IsNext(blocks, next) && p.block
    requires e.id == s.uid && e.id in blocks && blocks[e.id] == Sub(s) && Resolves(s, e.name, isSource, p)
    ensures Resolved(blocks, e, isSource, r) && IdResolves(next, r, isSource, p)
  {
    InTreeOf(root, blocks, s);
    var i :| 0 <= i < |s.flows| && End(s.flows[i], !isSource) == Port(Self, e.name) &&
      EndResolves(s, End(s.flows[i], isSource), isSource, p);
    assert !End(s.flows[i], isSource).obj.Self?;
    hide InTree, Distinct, Level, IsNext, IdResolves, EndResolves, Inside;
    r := FarSide(root, s, s.flows[i], e.name, isSource);
    EndOnNext(root, blocks, next, s, s.flows[i], isSource, p);
  }

  lemma FoundInside(root: Topology, blocks: map<Uid, Object>, next: map<Uid, Object>, s: Topology, e: PortId,
      isSource: bool, r: PortId, p: FlatPort)
    requires Distinct(root) && Level(root, blocks) && IsNext(blocks, next)
    requires e.id == s.uid && e.id in blocks && blocks[e.id] == Sub(s) && Resolved(blocks, e, isSource, r) &&
      IdResolves(next, r, isSource, p)
    ensures Resolves(s, e.name, isSource, p)
  {
    InTreeOf(root, blocks, s);
    hide InTree, Distinct, Level, IsNext, IdResolves, EndResolves, Inside;
    var f :| f in s.flows && Inside(s, f, e.id, e.name, isSource, r);
    NearSide(root, s, f, e.name, isSource, r);
    EndOnNext(root, blocks, next, s, f, isSource, p);
    var i :| 0 <= i < |s.flows| && s.flows[i] == f;
    assert End(s.flows[i], !isSource) == Port(Self, e.name) && EndResolves(s, End(s.flows[i], isSource), isSource, p);
  }

  lemma FarSide(root: Topology, s: Topology, f: Flow, name: string, isSource: bool) returns (r: PortId)
    requires Distinct(root) && InTree(root, s) && f in s.flows && End(f, !isSource) == Port(Self, name)
    requires !End(f, isSource).obj.Self?
    ensures r == PortId(IdOf(s, End(f, isSource)), End(f, isSource).name)
    ensures Inside(s, f, s.uid, name, isSource, r)
  {
    hide InTree, Distinct;
    r := PortId(IdOf(s, End(f, isSource)), End(f, isSource).name);
    IdOfInside(root, s, f, isSource);
  }

  lemma NearSide(root: Topology, s: Topology, f: Flow, name: string, isSource: bool, r: PortId)
    requires Distinct(root) && InTree(root, s) && f in s.flows && Inside(s, f, s.uid, name, isSource, r)
    ensures End(f, !isSource) == Port(Self, name)
    ensures !End(f, isSource).obj.Self? && r == PortId(IdOf(s, End(f, isSource)), End(f, isSource).name)
  {
    hide InTree, Distinct;
    IdOfInside(root, s, f, isSource);
    IdOfInside(root, s, f, !isSource);
  }

  /** A list of connections that is the next level's. */
  ghost predicate IsNextConns(blocks: map<Uid, Object>, conns: seq<Conn>, next: seq<Conn>) {
    forall c :: c in next <==> NextConn(blocks, conns, c)
  }

  lemma AcrossOneLevel(root: Topology, blocks: map<Uid, Object>, next: map<Uid, Object>, conns: seq<Conn>,
      p: FlatPort, q: FlatPort)
    requires Distinct(root) && Level(root, blocks) && IsNext(blocks, next) && p.block && q.block
    ensures AcrossSome(blocks, conns, p, q) <==> (exists c :: Unfolded(blocks, conns, c) && Across(next, c, p, q))
  {
    hide Distinct, Level, IsNext, IdResolves, Resolved;
    forall c | c in conns && Across(blocks, c, p, q)
      ensures exists d :: Unfolded(blocks, conns, d) && Across(next, d, p, q) {
      ResolveOneLevel(root, blocks, next, EndOf(c, true), true, p);
      ResolveOneLevel(root, blocks, next, EndOf(c, false), false, q);
      var a :| Resolved(blocks, EndOf(c, true), true, a) && IdResolves(next, a, true, p);
      var b :| Resolved(blocks, EndOf(c, false), false, b) && IdResolves(next, b, false, q);
      var d := Conn(a.id, a.name, b.id, b.name);
      assert EndOf(d, true) == a && EndOf(d, false) == b;
      assert Unfolded(blocks, conns, d) && Across(next, d, p, q);
    }
    forall d | Unfolded(blocks, conns, d) && Across(next, d, p, q)
      ensures exists c :: c in conns && Across(blocks, c, p, q) {
      var c :| c in conns && Resolved(blocks, EndOf(c, true), true, EndOf(d, true)) &&
        Resolved(blocks, EndOf(c, false), false, EndOf(d, false));
      ResolveOneLevel(root, blocks, next, EndOf(c, true), true, p);
      ResolveOneLevel(root, blocks, next, EndOf(c, false), false, q);
      assert Across(blocks, c, p, q);
    }
  }

  /** A totally internal connection of the hierarchy s. */
  ghost predicate InternalTo(s: Topology, c: Conn) {
    exists f :: f in s.flows && IsInternal(s.uid, s, f, c)
  }

  /** The flows inside a hierarchy: its internal connections, and those inside its own hierarchies. */
  lemma HierFlat(root: Topology, blocks: map<Uid, Object>, next: map<Uid, Object>, s: Topology, p: FlatPort,
      q: FlatPort)
    requires Distinct(root) && Level(root, blocks) && IsNext(blocks, next) && p.block && q.block
    requires s.uid in blocks && blocks[s.uid] == Sub(s)
    ensures Flat(s, p, q) <==>
      || (exists c :: InternalTo(s, c) && Across(next, c, p, q))
      || (exists obj: Object :: obj.Sub? && SquashFlows.Names(s, |s.flows|, obj) && Flat(obj.top, p, q))
  {
    SquashFlows.FlatBelow(s, p, q);
    PassJoinsNull(s, p, q);
    hide *;
    if SquashFlows.JoinedUpTo(s, |s.flows|, false, p, q) {
      var c := JoinedIsConn(root, blocks, next, s, p, q);
    }
    forall c | InternalTo(s, c) && Across(next, c, p, q) ensures SquashFlows.JoinedUpTo(s, |s.flows|, false, p, q) {
      ConnIsJoined(root, blocks, next, s, p, q, c);
    }
  }

  lemma PassJoinsNull(s: Topology, p: FlatPort, q: FlatPort)
    requires p.block
    ensures !SquashFlows.JoinedUpTo(s, |s.flows|, true, p, q)
  {
  }

  lemma ConnIsJoined(root: Topology, blocks: map<Uid, Object>, next: map<Uid, Object>, s: Topology, p: FlatPort,
      q: FlatPort, c: Conn)
    requires Distinct(root) && Level(root, blocks) && IsNext(blocks, next)
    requires s.uid in blocks && blocks[s.uid] == Sub(s) && InternalTo(s, c) && Across(next, c, p, q)
    ensures SquashFlows.JoinedUpTo(s, |s.flows|, false, p, q)
  {
    hide Distinct, Level, IsNext, Across, SquashFlows.JoinedBy;
    var f := InternalFlow(root, blocks, s, c);
    InternalAcross(root, blocks, next, s, f, p, q);
    var j :| 0 <= j < |s.flows| && s.flows[j] == f;
    assert SquashFlows.JoinedBy(s, s.flows[j], false, p, q);
  }

  lemma InternalFlow(root: Topology, blocks: map<Uid, Object>, s: Topology, c: Conn) returns (f: Flow)
    requires Distinct(root) && Level(root, blocks) && s.uid in blocks && blocks[s.uid] == Sub(s) && InternalTo(s, c)
    ensures f in s.flows && c == ConnOf(s, f) && !f.src.obj.Self? && !f.dst.obj.Self?
  {
    InTreeOf(root, blocks, s);
    hide Distinct, InTree, Level;
    f :| f in s.flows && IsInternal(s.uid, s, f, c);
    IdOfInside(root, s, f, true);
    IdOfInside(root, s, f, false);
  }

  lemma JoinedIsConn(root: Topology, blocks: map<Uid, Object>, next: map<Uid, Object>, s: Topology, p: FlatPort,
      q: FlatPort) returns (c: Conn)
    requires Distinct(root) && Level(root, blocks) && IsNext(blocks, next)
    requires s.uid in blocks && blocks[s.uid] == Sub(s) && SquashFlows.JoinedUpTo(s, |s.flows|, false, p, q)
    ensures InternalTo(s, c) && Across(next, c, p, q)
  {
    hide Distinct, Level, IsNext, Across, EndResolves, InternalTo;
    var j :| 0 <= j < |s.flows| && SquashFlows.JoinedBy(s, s.flows[j], false, p, q);
    InternalAcross(root, blocks, next, s, s.flows[j], p, q);
    c := ConnOf(s, s.flows[j]);
  }

  lemma IsInternalTo(root: Topology, blocks: map<Uid, Object>, s: Topology, f: Flow)
    requires Distinct(root) && Level(root, blocks) && s.uid in blocks && blocks[s.uid] == Sub(s)
    requires f in s.flows && !f.src.obj.Self? && !f.dst.obj.Self?
    ensures InternalTo(s, ConnOf(s, f))
  {
    InTreeOf(root, blocks, s);
    hide Distinct, InTree, Level;
    IdOfInside(root, s, f, true);
    IdOfInside(root, s, f, false);
    assert IsInternal(s.uid, s, f, ConnOf(s, f));
  }

  lemma InternalAcross(root: Topology, blocks: map<Uid, Object>, next: map<Uid, Object>, s: Topology, f: Flow,
      p: FlatPort, q: FlatPort)
    requires Distinct(root) && Level(root, blocks) && IsNext(blocks, next)
    requires s.uid in blocks && blocks[s.uid] == Sub(s) && f in s.flows && !f.src.obj.Self? && !f.dst.obj.Self?
    ensures InternalTo(s, ConnOf(s, f))
    ensures Across(next, ConnOf(s, f), p, q) <==> SquashFlows.JoinedBy(s, f, false, p, q)
  {
    hide Distinct, InTree, IsNext, IdResolves, EndResolves, InternalTo;
    IsInternalTo(root, blocks, s, f);
    EndOnNext(root, blocks, next, s, f, true, p);
    EndOnNext(root, blocks, next, s, f, false, q);
  }

  /** An internal connection is on the next level. */
  lemma InternalIsNext(blocks: map<Uid, Object>, conns: seq<Conn>, nextConns: seq<Conn>, s: Topology, c: Conn)
    requires IsNextConns(blocks, conns, nextConns) && s.uid in blocks && blocks[s.uid] == Sub(s) && InternalTo(s, c)
    ensures c in nextConns
  {
    hide Unfolded;
    var f :| f in s.flows && IsInternal(s.uid, s, f, c);
    assert GivenBy(s.uid, s, f, conns, c);
    assert FromHier(blocks, conns, s.uid, c);
  }

  /** What the source makes of a pass-through is on the next level. */
  lemma BridgeIsNext(blocks: map<Uid, Object>, conns: seq<Conn>, nextConns: seq<Conn>, id: Uid, f: Flow, head: Conn,
      tail: Conn, c: Conn)
    requires IsNextConns(blocks, conns, nextConns) && id in blocks && blocks[id].Sub? && f in blocks[id].top.flows
    requires IsBridge(id, blocks[id].top, f, conns, head, tail, c)
    ensures c in nextConns
  {
    hide Unfolded, IsBridge;
    assert GivenBy(id, blocks[id].top, f, conns, c);
    assert FromHier(blocks, conns, id, c);
  }

  /** A block stays a block. */
  lemma BlockStays(root: Topology, blocks: map<Uid, Object>, next: map<Uid, Object>, id: Uid)
    requires Distinct(root) && Level(root, blocks) && IsNext(blocks, next) && id in blocks && blocks[id].Block?
    ensures IsBlock(blocks, id) && IsBlock(next, id)
  {
    hide Distinct, InTree;
    LevelIds(root, blocks);
    assert Gives(blocks[id], blocks[id]);
    NextHolds(root, blocks, next, blocks[id]);
  }

  /** Every object inside a hierarchy is on the next level. */
  lemma InsideIsNext(root: Topology, blocks: map<Uid, Object>, next: map<Uid, Object>, s: Topology, f: Flow,
      isSource: bool)
    requires Distinct(root) && Level(root, blocks) && IsNext(blocks, next)
    requires s.uid in blocks && blocks[s.uid] == Sub(s) && f in s.flows && !End(f, isSource).obj.Self?
    ensures var id := IdOf(s, End(f, isSource)); id in next && next[id] == End(f, isSource).obj
  {
    InTreeOf(root, blocks, s);
    hide Distinct, InTree, IsNext;
    IdOfInside(root, s, f, isSource);
    assert Gives(blocks[s.uid], End(f, isSource).obj);
    NextHolds(root, blocks, next, End(f, isSource).obj);
  }

  // ---------- connections at pass-throughs ----------

  /** c is a flow of s between objects, and its end at isSource is u's. */
  predicate FlowAt(s: Topology, f: Flow, c: Conn, isSource: bool, u: Topology) {
    f in s.flows && c == ConnOf(s, f) && !f.src.obj.Self? && !f.dst.obj.Self? && End(f, isSource).obj == Sub(u)
  }

  /** An end at a pass-through comes up from inside a hierarchy, by one of its internal connections. */
  lemma TouchesPass(root: Topology, blocks: map<Uid, Object>, next: map<Uid, Object>, conns: seq<Conn>,
      nextConns: seq<Conn>, c: Conn, isSource: bool)
    returns (s: Topology, f: Flow)
    requires Distinct(root) && PlainPasses(root) && Level(root, blocks) && IsNext(blocks, next)
    requires IsNextConns(blocks, conns, nextConns) && PlainLevel(blocks, conns) && c in nextConns
    requires var e := EndOf(c, isSource); e.id in next && next[e.id].Sub? && PassPort(next[e.id].top, e.name, isSource)
    ensures s.uid in blocks && blocks[s.uid] == Sub(s) && FlowAt(s, f, c, isSource, next[EndOf(c, isSource).id].top)
  {
    assert NextConn(blocks, conns, c);
    hide IsNext, Distinct, PlainPasses, PassPort, IsNextConns;
    if Unfolded(blocks, conns, c) {
      NotUnfolded(root, blocks, next, conns, c, isSource);
    } else {
      hide Unfolded;
      var id :| FromHier(blocks, conns, id, c);
      LevelIds(root, blocks);
      s := blocks[id].top;
      f :| f in s.flows && GivenBy(id, s, f, conns, c);
      if IsInternal(id, s, f, c) {
        f := InternalFlow(root, blocks, s, c);
        InsideIsNext(root, blocks, next, s, f, isSource);
      } else {
        var head, tail :| IsBridge(id, s, f, conns, head, tail, c);
        NotBridge(root, blocks, next, conns, id, f, head, tail, c, isSource);
      }
    }
  }

  lemma NotUnfolded(root: Topology, blocks: map<Uid, Object>, next: map<Uid, Object>, conns: seq<Conn>, c: Conn,
      isSource: bool)
    requires Distinct(root) && PlainPasses(root) && Level(root, blocks) && IsNext(blocks, next) &&
      Unfolded(blocks, conns, c)
    requires var e := EndOf(c, isSource); e.id in next && next[e.id].Sub?
    ensures var e := EndOf(c, isSource); !PassPort(next[e.id].top, e.name, isSource)
  {
    var c0 :| c0 in conns && Resolved(blocks, EndOf(c0, true), true, EndOf(c, true)) &&
      Resolved(blocks, EndOf(c0, false), false, EndOf(c, false));
    var e0, e := EndOf(c0, isSource), EndOf(c, isSource);
    assert Resolved(blocks, e0, isSource, e);
    LevelIds(root, blocks);
    hide Distinct, IsNext, InTree, PassPort, Level, Unfolded, PlainPasses, Inside;
    if blocks[e0.id].Sub? {
      var s := blocks[e0.id].top;
      InTreeOf(root, blocks, s);
      var f :| f in s.flows && Inside(s, f, e0.id, e0.name, isSource, e);
      NearSide(root, s, f, e0.name, isSource, e);
      InsideIsNext(root, blocks, next, s, f, isSource);
      SelfIsNoPass(root, s, f, isSource);
    } else {
      BlockStays(root, blocks, next, e0.id);
    }
  }

  /** A flow out of the topology does not start at a pass-through below it, and none in ends at one. */
  lemma SelfIsNoPass(root: Topology, s: Topology, f: Flow, isSource: bool)
    requires PlainPasses(root) && InTree(root, s) && f in s.flows && End(f, !isSource).obj.Self?
    ensures End(f, isSource).obj.Sub? ==> !PassPort(End(f, isSource).obj.top, End(f, isSource).name, isSource)
  {
    hide InTree, PassPort;
    assert PlainEnd(f, true) && PlainEnd(f, false);
  }

  lemma BlockOpposite(root: Topology, s: Topology, f: Flow, isSource: bool)
    requires PlainPasses(root) && InTree(root, s) && f in s.flows && End(f, isSource).obj.Sub?
    requires PassPort(End(f, isSource).obj.top, End(f, isSource).name, isSource)
    ensures End(f, !isSource).obj.Block?
  {
    hide InTree, PassPort;
    assert PlainEnd(f, true) && PlainEnd(f, false);
  }

  lemma NotBridge(root: Topology, blocks: map<Uid, Object>, next: map<Uid, Object>, conns: seq<Conn>, id: Uid,
      f: Flow, head: Conn, tail: Conn, c: Conn, isSource: bool)
    requires Distinct(root) && Level(root, blocks) && IsNext(blocks, next) && PlainLevel(blocks, conns)
    requires id in blocks && blocks[id].Sub? && f in blocks[id].top.flows &&
      IsBridge(id, blocks[id].top, f, conns, head, tail, c)
    ensures var e := EndOf(c, isSource); IsBlock(blocks, e.id) && IsBlock(next, e.id)
  {
    BridgeEnds(root, blocks, conns, id, f, head, tail, c);
    BlockStays(root, blocks, next, c.srcId);
    BlockStays(root, blocks, next, c.dstId);
  }

  /** What a pass-through joins are blocks. */
  lemma BridgeEnds(root: Topology, blocks: map<Uid, Object>, conns: seq<Conn>, id: Uid, f: Flow, head: Conn,
      tail: Conn, c: Conn)
    requires Distinct(root) && Level(root, blocks) && PlainLevel(blocks, conns)
    requires id in blocks && blocks[id].Sub? && f in blocks[id].top.flows &&
      IsBridge(id, blocks[id].top, f, conns, head, tail, c)
    ensures IsBlock(blocks, c.srcId) && IsBlock(blocks, c.dstId)
    ensures f == Flow(Port(Self, f.src.name), Port(Self, f.dst.name))
  {
    var s := blocks[id].top;
    LevelIds(root, blocks);
    InTreeOf(root, blocks, s);
    hide Distinct, InTree, Level;
    IdOfInside(root, s, f, true);
    IdOfInside(root, s, f, false);
    PassHasPort(s, f.src.name, f.dst.name);
    assert PlainConn(blocks, head, false) && PlainConn(blocks, tail, true);
  }

  lemma NextPlain(root: Topology, blocks: map<Uid, Object>, next: map<Uid, Object>, conns: seq<Conn>,
      nextConns: seq<Conn>)
    requires Distinct(root) && PlainPasses(root) && Level(root, blocks) && IsNext(blocks, next)
    requires IsNextConns(blocks, conns, nextConns) && PlainLevel(blocks, conns)
    ensures PlainLevel(next, nextConns)
  {
    hide Distinct, PlainPasses, Level, IsNext, IsNextConns;
    forall c | c in nextConns ensures PlainConn(next, c, true) && PlainConn(next, c, false) {
      NextPlainConn(root, blocks, next, conns, nextConns, c, true);
      NextPlainConn(root, blocks, next, conns, nextConns, c, false);
    }
  }

  lemma NextPlainConn(root: Topology, blocks: map<Uid, Object>, next: map<Uid, Object>, conns: seq<Conn>,
      nextConns: seq<Conn>, c: Conn, isSource: bool)
    requires Distinct(root) && PlainPasses(root) && Level(root, blocks) && IsNext(blocks, next)
    requires IsNextConns(blocks, conns, nextConns) && PlainLevel(blocks, conns) && c in nextConns
    ensures PlainConn(next, c, isSource)
  {
    var e := EndOf(c, isSource);
    hide Distinct, IsNext, InTree, IsNextConns, PassPort, PlainPasses, PlainLevel, Level;
    if e.id in next && next[e.id].Sub? && PassPort(next[e.id].top, e.name, isSource) {
      var s, f := TouchesPass(root, blocks, next, conns, nextConns, c, isSource);
      InTreeOf(root, blocks, s);
      BlockOpposite(root, s, f, isSource);
      InsideIsNext(root, blocks, next, s, f, !isSource);
    }
  }

  // ---------- a level keeps what the dump says ----------

  /** A bridge inside the hierarchy s is a bridge of the next level. */
  lemma BridgeComesUp(root: Topology, blocks: map<Uid, Object>, next: map<Uid, Object>, conns: seq<Conn>,
      nextConns: seq<Conn>, s: Topology, x: FlatPort, y: FlatPort)
    requires Distinct(root) && Level(root, blocks) && IsNext(blocks, next) && IsNextConns(blocks, conns, nextConns)
    requires s.uid in blocks && blocks[s.uid] == Sub(s) && BridgedIn(s, x, y)
    ensures LevelBridged(next, nextConns, x, y)
  {
    var u, a, b :| Bridges(s, x, y, u, a, b);
    var f, g := Flow(PortOf(x), Port(Sub(u), a)), Flow(Port(Sub(u), b), PortOf(y));
    hide Distinct, Level, IsNext, IsNextConns;
    IsInternalTo(root, blocks, s, f);
    IsInternalTo(root, blocks, s, g);
    InternalIsNext(blocks, conns, nextConns, s, ConnOf(s, f));
    InternalIsNext(blocks, conns, nextConns, s, ConnOf(s, g));
    InsideIsNext(root, blocks, next, s, f, true);
    InsideIsNext(root, blocks, next, s, f, false);
    InsideIsNext(root, blocks, next, s, g, false);
    assert IsLevelBridge(next, nextConns, x, y, u.uid, Flow(Port(Self, a), Port(Self, b)), ConnOf(s, f), ConnOf(s, g));
  }

  /** A bridge of the next level was inside a hierarchy. */
  lemma BridgeCameUp(root: Topology, blocks: map<Uid, Object>, next: map<Uid, Object>, conns: seq<Conn>,
      nextConns: seq<Conn>, x: FlatPort, y: FlatPort)
    requires Distinct(root) && PlainPasses(root) && Unshared(root) && Level(root, blocks) && IsNext(blocks, next)
    requires IsNextConns(blocks, conns, nextConns) && PlainLevel(blocks, conns) && LevelBridged(next, nextConns, x, y)
    ensures BelowSome(blocks, x, y)
  {
    var id, f, head, tail :| IsLevelBridge(next, nextConns, x, y, id, f, head, tail);
    var u := next[id].top;
    NextIsLevel(root, blocks, next);
    NextPlain(root, blocks, next, conns, nextConns);
    BridgeEnds(root, next, nextConns, id, f, head, tail, Between(x, y));
    PassHasPort(u, f.src.name, f.dst.name);
    hide Distinct, PlainPasses, Level, IsNext, IsNextConns, PlainLevel, PassPort, HasPass;
    var s, g := TouchesPass(root, blocks, next, conns, nextConns, head, false);
    var t, h := TouchesPass(root, blocks, next, conns, nextConns, tail, true);
    OneParent(root, blocks, s, g, t, h, u);
    InsideIsNext(root, blocks, next, s, g, true);
    InsideIsNext(root, blocks, next, s, h, false);
    hide Unshared, Flat;
    SameBridge(s, u, f, g, h, head, tail, x, y);
    assert Dumped(blocks[s.uid].top, x, y);
  }

  lemma SameBridge(s: Topology, u: Topology, f: Flow, g: Flow, h: Flow, head: Conn, tail: Conn, x: FlatPort,
      y: FlatPort)
    requires f in u.flows && f == Flow(Port(Self, f.src.name), Port(Self, f.dst.name))
    requires FlowAt(s, g, head, false, u) && FlowAt(s, h, tail, true, u)
    requires head.dstName == f.src.name && tail.srcName == f.dst.name
    requires g.src == PortOf(x) && h.dst == PortOf(y)
    ensures BridgedBelow(s, x, y)
  {
    SquashFlows.Root(s);
    hide InTree;
    assert Bridges(s, x, y, u, f.src.name, f.dst.name);
  }

  lemma OneParent(root: Topology, blocks: map<Uid, Object>, s: Topology, g: Flow, t: Topology, h: Flow, u: Topology)
    requires Unshared(root) && Level(root, blocks) && HasPass(u)
    requires s.uid in blocks && blocks[s.uid] == Sub(s) && t.uid in blocks && blocks[t.uid] == Sub(t)
    requires g in s.flows && g.dst.obj == Sub(u) && h in t.flows && h.src.obj == Sub(u)
    ensures s == t
  {
    InTreeOf(root, blocks, s);
    InTreeOf(root, blocks, t);
    hide InTree, HasPass;
    NamesIt(s, g, false, u);
    NamesIt(t, h, true, u);
  }

  /** What is below a hierarchy of this level is on the next level, or below one of its hierarchies. */
  lemma DumpedComesUp(root: Topology, blocks: map<Uid, Object>, next: map<Uid, Object>, conns: seq<Conn>,
      nextConns: seq<Conn>, s: Topology, x: FlatPort, y: FlatPort)
    requires Distinct(root) && Level(root, blocks) && IsNext(blocks, next) && IsNextConns(blocks, conns, nextConns)
    requires s.uid in blocks && blocks[s.uid] == Sub(s) && x.block && y.block && Dumped(s, x, y)
    ensures Says(next, nextConns, x, y)
  {
    hide Distinct, Level, IsNext, IsNextConns, Flat, Across, LevelBridged, BridgedIn;
    if Flat(s, x, y) {
      HierFlat(root, blocks, next, s, x, y);
      if c :| InternalTo(s, c) && Across(next, c, x, y) {
        hide InternalTo;
        InternalIsNext(blocks, conns, nextConns, s, c);
      } else {
        var obj: Object :| obj.Sub? && SquashFlows.Names(s, |s.flows|, obj) && Flat(obj.top, x, y);
        ChildIsNext(root, blocks, next, s, obj);
        assert Dumped(next[obj.top.uid].top, x, y);
      }
    } else {
      var t :| InTree(s, t) && BridgedIn(t, x, y);
      if t == s {
        BridgeComesUp(root, blocks, next, conns, nextConns, s, x, y);
      } else {
        var i, isSource :| 0 <= i < |s.flows| && End(s.flows[i], isSource).obj.Sub? &&
          InTree(End(s.flows[i], isSource).obj.top, t);
        var obj := End(s.flows[i], isSource).obj;
        assert SquashFlows.Names(s, |s.flows|, obj);
        ChildIsNext(root, blocks, next, s, obj);
        assert BridgedBelow(obj.top, x, y);
        assert Dumped(next[obj.top.uid].top, x, y);
      }
    }
  }

  lemma ChildIsNext(root: Topology, blocks: map<Uid, Object>, next: map<Uid, Object>, s: Topology, obj: Object)
    requires Distinct(root) && Level(root, blocks) && IsNext(blocks, next)
    requires s.uid in blocks && blocks[s.uid] == Sub(s) && obj.Sub? && SquashFlows.Names(s, |s.flows|, obj)
    ensures obj.top.uid in next && next[obj.top.uid] == obj
  {
    hide Distinct, InTree, IsNext;
    assert Gives(blocks[s.uid], obj);
    NextHolds(root, blocks, next, obj);
  }

  lemma SaysOnNext(root: Topology, blocks: map<Uid, Object>, next: map<Uid, Object>, conns: seq<Conn>,
      nextConns: seq<Conn>, x: FlatPort, y: FlatPort)
    requires Distinct(root) && Level(root, blocks) && IsNext(blocks, next) && IsNextConns(blocks, conns, nextConns)
    requires x.block && y.block && Says(blocks, conns, x, y)
    ensures Says(next, nextConns, x, y)
  {
    hide Distinct, Across, IsNext, Level, Dumped, Unfolded, FromHier, IsBridge;
    if AcrossSome(blocks, conns, x, y) {
      AcrossOneLevel(root, blocks, next, conns, x, y);
      var c :| Unfolded(blocks, conns, c) && Across(next, c, x, y);
      assert NextConn(blocks, conns, c);
    } else if LevelBridged(blocks, conns, x, y) {
      hide IsNextConns;
      var id, f, head, tail :| IsLevelBridge(blocks, conns, x, y, id, f, head, tail);
      BridgeIsNext(blocks, conns, nextConns, id, f, head, tail, Between(x, y));
      BlockStays(root, blocks, next, x.uid);
      BlockStays(root, blocks, next, y.uid);
      BlocksAcross(next, x, y);
    } else {
      var id :| id in blocks && blocks[id].Sub? && Dumped(blocks[id].top, x, y);
      LevelIds(root, blocks);
      hide IsNextConns;
      DumpedComesUp(root, blocks, next, conns, nextConns, blocks[id].top, x, y);
    }
  }

  lemma BlocksAcross(blocks: map<Uid, Object>, x: FlatPort, y: FlatPort)
    requires x.block && y.block && IsBlock(blocks, x.uid) && IsBlock(blocks, y.uid)
    ensures Across(blocks, Between(x, y), x, y)
  {
  }

  /** A connection of the next level that says something of two blocks, wherever it came from. */
  lemma AcrossCameUp(root: Topology, blocks: map<Uid, Object>, next: map<Uid, Object>, conns: seq<Conn>,
      nextConns: seq<Conn>, c: Conn, x: FlatPort, y: FlatPort)
    requires Distinct(root) && Level(root, blocks) && IsNext(blocks, next) && IsNextConns(blocks, conns, nextConns)
    requires PlainLevel(blocks, conns) && x.block && y.block && c in nextConns && Across(next, c, x, y)
    ensures Says(blocks, conns, x, y)
  {
    assert NextConn(blocks, conns, c);
    hide Distinct, IsNext, Unfolded, Flat, IsNextConns, PlainLevel;
    if Unfolded(blocks, conns, c) {
      hide Across;
      AcrossOneLevel(root, blocks, next, conns, x, y);
    } else {
      var id :| FromHier(blocks, conns, id, c);
      var s := blocks[id].top;
      LevelIds(root, blocks);
      var f :| f in s.flows && GivenBy(id, s, f, conns, c);
      if IsInternal(id, s, f, c) {
        hide Across;
        assert InternalTo(s, c);
        HierFlat(root, blocks, next, s, x, y);
        assert Dumped(blocks[id].top, x, y);
      } else {
        var head, tail :| IsBridge(id, s, f, conns, head, tail, c);
        hide IsBridge;
        NotBridge(root, blocks, next, conns, id, f, head, tail, c, true);
        NotBridge(root, blocks, next, conns, id, f, head, tail, c, false);
        assert c == Between(x, y);
        assert IsLevelBridge(blocks, conns, x, y, id, f, head, tail);
      }
    }
  }

  lemma DumpedCameUp(root: Topology, blocks: map<Uid, Object>, next: map<Uid, Object>, id: Uid, x: FlatPort,
      y: FlatPort)
    requires Distinct(root) && Level(root, blocks) && IsNext(blocks, next) && x.block && y.block
    requires id in next && next[id].Sub? && Dumped(next[id].top, x, y)
    ensures BelowSome(blocks, x, y)
  {
    var u := next[id].top;
    assert NextObject(blocks, next[id]);
    var k :| k in blocks && Gives(blocks[k], next[id]);
    LevelIds(root, blocks);
    hide IsNext, NextObject, Level;
    if blocks[k].Sub? {
      var s := blocks[k].top;
      var j, isSource := SquashFlows.NamedEnd(s, next[id]);
      if Flat(u, x, y) {
        SquashFlows.FlatFromBelow(s, next[id], x, y);
      } else {
        var t :| InTree(u, t) && BridgedIn(t, x, y);
        hide InTree, BridgedIn, Flat;
        TreeTransitive(s, u, t);
      }
      assert Dumped(blocks[k].top, x, y);
    }
  }

  lemma SaidBefore(root: Topology, blocks: map<Uid, Object>, next: map<Uid, Object>, conns: seq<Conn>,
      nextConns: seq<Conn>, x: FlatPort, y: FlatPort)
    requires Distinct(root) && PlainPasses(root) && Unshared(root) && Level(root, blocks) && IsNext(blocks, next)
    requires IsNextConns(blocks, conns, nextConns) && PlainLevel(blocks, conns)
    requires x.block && y.block && Says(next, nextConns, x, y)
    ensures Says(blocks, conns, x, y)
  {
    hide Distinct, PlainPasses, Unshared, Level, IsNext, IsNextConns, PlainLevel, Across, Dumped, LevelBridged;
    if AcrossSome(next, nextConns, x, y) {
      var c :| c in nextConns && Across(next, c, x, y);
      AcrossCameUp(root, blocks, next, conns, nextConns, c, x, y);
    } else if LevelBridged(next, nextConns, x, y) {
      BridgeCameUp(root, blocks, next, conns, nextConns, x, y);
    } else {
      var id :| id in next && next[id].Sub? && Dumped(next[id].top, x, y);
      DumpedCameUp(root, blocks, next, id, x, y);
    }
  }

  /** Dissolving one level changes nothing that the dump says, if pass-throughs are connected to blocks alone. */
  lemma NextSays(root: Topology, blocks: map<Uid, Object>, next: map<Uid, Object>, conns: seq<Conn>,
      nextConns: seq<Conn>, x: FlatPort, y: FlatPort)
    requires Distinct(root) && PlainPasses(root) && Unshared(root) && Level(root, blocks) && IsNext(blocks, next)
    requires IsNextConns(blocks, conns, nextConns) && PlainLevel(blocks, conns) && x.block && y.block
    ensures Says(blocks, conns, x, y) <==> Says(next, nextConns, x, y)
  {
    hide *;
    if Says(blocks, conns, x, y) { SaysOnNext(root, blocks, next, conns, nextConns, x, y); }
    if Says(next, nextConns, x, y) { SaidBefore(root, blocks, next, conns, nextConns, x, y); }
  }

  // ---------- flattenDump ----------

  /** resolvePorts: the ports one level below this end, or the port itself. */
  method ResolvePorts(blocks: map<Uid, Object>, e: PortId, isSource: bool) returns (results: seq<PortId>)
    ensures forall r :: r in results <==> Resolved(blocks, e, isSource, r)
  {
    results := [];
    if e.id !in blocks { return; }
    if !blocks[e.id].Sub? {
      results := [e];
      return;
    }
    var s := blocks[e.id].top;
    var i := 0;
    while i < |s.flows|
      invariant 0 <= i <= |s.flows|
      invariant forall r :: r in results <==> exists j :: 0 <= j < i && Inside(s, s.flows[j], e.id, e.name, isSource, r)
    {
      var c := ConnOf(s, s.flows[i]);
      if EndOf(c, !isSource) == e && EndOf(c, isSource).id != e.id {
        results := results + [EndOf(c, isSource)];
      }
      assert forall r :: Inside(s, s.flows[i], e.id, e.name, isSource, r) <==>
        EndOf(c, !isSource) == e && EndOf(c, isSource).id != e.id && r == EndOf(c, isSource);
      i := i + 1;
    }
    hide Inside;
  }

  method CombineEnds(srcs: seq<PortId>, dsts: seq<PortId>) returns (conns: seq<Conn>)
    ensures forall c :: c in conns <==> EndOf(c, true) in srcs && EndOf(c, false) in dsts
  {
    conns := Combine(srcs, dsts, (src: PortId, dst: PortId) => Conn(src.id, src.name, dst.id, dst.name));
    forall c | c in conns ensures EndOf(c, true) in srcs && EndOf(c, false) in dsts {
      var i, j :| 0 <= i < |srcs| && 0 <= j < |dsts| && c == Conn(srcs[i].id, srcs[i].name, dsts[j].id, dsts[j].name);
      assert EndOf(c, true) == srcs[i] && EndOf(c, false) == dsts[j];
    }
    forall c | EndOf(c, true) in srcs && EndOf(c, false) in dsts ensures c in conns {
      var i :| 0 <= i < |srcs| && srcs[i] == EndOf(c, true);
      var j :| 0 <= j < |dsts| && dsts[j] == EndOf(c, false);
      assert c == Conn(srcs[i].id, srcs[i].name, dsts[j].id, dsts[j].name);
    }
  }

  method UnfoldConns(blocks: map<Uid, Object>, conns: seq<Conn>) returns (flat: seq<Conn>)
    ensures forall c :: c in flat <==> Unfolded(blocks, conns, c)
  {
    flat := [];
    var i := 0;
    while i < |conns|
      invariant 0 <= i <= |conns|
      invariant forall c :: c in flat <==> Unfolded(blocks, conns[..i], c)
    {
      var srcs := ResolvePorts(blocks, EndOf(conns[i], true), true);
      var dsts := ResolvePorts(blocks, EndOf(conns[i], false), false);
      var more := CombineEnds(srcs, dsts);
      hide Resolved;
      assert conns[..i + 1] == conns[..i] + [conns[i]];
      flat := flat + more;
      i := i + 1;
    }
    assert conns[..i] == conns;
  }

  /** Connections that meet at one pass-through. */
  method BridgePass(conns: seq<Conn>, id: Uid, s: Topology, f: Flow) returns (flat: seq<Conn>)
    ensures forall c :: c in flat <==> exists head, tail :: IsBridge(id, s, f, conns, head, tail, c)
  {
    flat := [];
    var pass := ConnOf(s, f);
    if pass.srcId != id || pass.dstId != id { return; }
    var i := 0;
    while i < |conns|
      invariant 0 <= i <= |conns|
      invariant forall c :: c in flat <==> exists m, tail :: 0 <= m < i && IsBridge(id, s, f, conns, conns[m], tail, c)
    {
      ghost var before := flat;
      var head := conns[i];
      if head.dstId == id && head.dstName == pass.srcName {
        var j := 0;
        while j < |conns|
          invariant 0 <= j <= |conns|
          invariant forall c :: c in flat <==>
            c in before || exists m :: 0 <= m < j && IsBridge(id, s, f, conns, head, conns[m], c)
        {
          var tail := conns[j];
          assert forall c :: IsBridge(id, s, f, conns, head, tail, c) <==>
            tail.srcId == id && tail.srcName == pass.dstName &&
              c == Conn(head.srcId, head.srcName, tail.dstId, tail.dstName);
          if tail.srcId == id && tail.srcName == pass.dstName {
            flat := flat + [Conn(head.srcId, head.srcName, tail.dstId, tail.dstName)];
          }
          j := j + 1;
        }
        assert forall tail, c :: IsBridge(id, s, f, conns, head, tail, c) ==> tail in conns;
        hide IsBridge;
      } else {
        assert forall tail, c :: !IsBridge(id, s, f, conns, head, tail, c);
        hide IsBridge;
      }
      i := i + 1;
    }
    assert forall head, tail, c :: IsBridge(id, s, f, conns, head, tail, c) ==> head in conns;
    hide IsBridge;
  }

  /** The internal connections of one hierarchy, and those that its pass-throughs complete. */
  method HierConns(blocks: map<Uid, Object>, conns: seq<Conn>, id: Uid) returns (flat: seq<Conn>)
    requires id in blocks
    ensures forall c :: c in flat <==> FromHier(blocks, conns, id, c)
  {
    flat := [];
    if !blocks[id].Sub? { return; }
    var s := blocks[id].top;
    var i := 0;
    while i < |s.flows|
      invariant 0 <= i <= |s.flows|
      invariant forall c :: c in flat <==> exists j :: 0 <= j < i && GivenBy(id, s, s.flows[j], conns, c)
    {
      var c0 := ConnOf(s, s.flows[i]);
      var more := BridgePass(conns, id, s, s.flows[i]);
      if c0.srcId != id && c0.dstId != id { more := [c0] + more; }
      assert forall c :: c in more <==> GivenBy(id, s, s.flows[i], conns, c);
      hide GivenBy;
      flat := flat + more;
      i := i + 1;
    }
    hide GivenBy;
  }

  /** The objects, by uid, that take the place of obj. */
  ghost predicate Replaces(obj: Object, inner: map<Uid, Object>) {
    && (forall id :: id in inner ==> !inner[id].Self? && SquashFlows.UidOf(inner[id]) == id && Gives(obj, inner[id]))
    && (forall o :: Gives(obj, o) && !o.Self? ==> SquashFlows.UidOf(o) in inner)
  }

  /** obj is kept, or opened. */
  predicate Gives(obj: Object, o: Object) {
    if obj.Sub? then SquashFlows.Names(obj.top, |obj.top.flows|, o) else o == obj
  }

  method Open(id: Uid, obj: Object) returns (inner: map<Uid, Object>)
    requires !obj.Self? && SquashFlows.UidOf(obj) == id
    ensures Replaces(obj, inner)
  {
    if obj.Sub? {
      inner := SquashFlows.Objects(obj.top);
    } else {
      inner := map[id := obj];
    }
  }

  /** One level of blocks: hierarchies give way to what they contain. */
  method NextBlocks(blocks: map<Uid, Object>) returns (hierFound: bool, flat: map<Uid, Object>)
    requires forall id :: id in blocks ==> !blocks[id].Self? && SquashFlows.UidOf(blocks[id]) == id
    ensures hierFound <==> exists id :: id in blocks && blocks[id].Sub?
    ensures IsNext(blocks, flat)
  {
    hierFound, flat := false, map[];
    var keys := blocks.Keys;
    ghost var seen: map<Uid, Object> := map[];
    while keys != {}
      invariant keys <= blocks.Keys && seen.Keys == blocks.Keys - keys && forall id :: id in seen ==>
        seen[id] == blocks[id]
      invariant hierFound <==> exists id :: id in seen && seen[id].Sub?
      invariant IsNext(seen, flat)
      decreases |keys|
    {
      hide IsNext, Replaces;
      var k :| k in keys;
      var inner := Open(k, blocks[k]);
      NextMerged(seen, flat, k, blocks[k], inner);
      keys, seen, flat := keys - {k}, seen[k := blocks[k]], flat + inner;
      hierFound := hierFound || blocks[k].Sub?;
    }
    assert seen == blocks;
  }

  lemma NextMerged(seen: map<Uid, Object>, flat: map<Uid, Object>, k: Uid, obj: Object, inner: map<Uid, Object>)
    requires IsNext(seen, flat) && k !in seen && Replaces(obj, inner)
    ensures IsNext(seen[k := obj], flat + inner)
  {
    var all := seen[k := obj];
    hide Gives;
    forall o ensures NextObject(all, o) <==> NextObject(seen, o) || Gives(obj, o) {
      if id :| id in seen && Gives(seen[id], o) {
        assert id in all && all[id] == seen[id];
      }
      if Gives(obj, o) {
        assert k in all && all[k] == obj;
      }
    }
    hide NextObject;
  }

  /** One call of flattenDump. */
  method FlattenDump(blocks: map<Uid, Object>, conns: seq<Conn>)
    returns (hierFound: bool, flatBlocks: map<Uid, Object>, flatConns: seq<Conn>)
    requires forall id :: id in blocks ==> !blocks[id].Self? && SquashFlows.UidOf(blocks[id]) == id
    ensures hierFound <==> exists id :: id in blocks && blocks[id].Sub?
    ensures IsNext(blocks, flatBlocks) && IsNextConns(blocks, conns, flatConns)
  {
    hierFound, flatBlocks := NextBlocks(blocks);
    flatConns := UnfoldConns(blocks, conns);
    hide IsNext, Unfolded, FromHier;
    ghost var unfolded := flatConns;
    var keys := blocks.Keys;
    ghost var done: set<Uid> := {};
    while keys != {}
      invariant keys <= blocks.Keys && done == blocks.Keys - keys
      invariant forall c :: c in flatConns <==>
        Unfolded(blocks, conns, c) || exists id :: id in done && FromHier(blocks, conns, id, c)
      decreases |keys|
    {
      var k :| k in keys;
      var more := HierConns(blocks, conns, k);
      flatConns := flatConns + more;
      keys := keys - {k};
      done := done + {k};
    }
    assert forall id, c :: FromHier(blocks, conns, id, c) ==> id in blocks;
  }

  // ---------- the whole dump ----------

  method ConnsOf(t: Topology) returns (conns: seq<Conn>)
    ensures forall c :: c in conns <==> exists j :: 0 <= j < |t.flows| && c == ConnOf(t, t.flows[j])
  {
    conns := [];
    var i := 0;
    while i < |t.flows|
      invariant 0 <= i <= |t.flows|
      invariant forall c :: c in conns <==> exists j :: 0 <= j < i && c == ConnOf(t, t.flows[j])
    {
      conns := conns + [ConnOf(t, t.flows[i])];
      i := i + 1;
    }
  }

  /** The top level, before anything is dissolved. */
  ghost predicate IsTop(root: Topology, blocks: map<Uid, Object>, conns: seq<Conn>) {
    && (forall id :: id in blocks ==>
      SquashFlows.Names(root, |root.flows|, blocks[id]) && SquashFlows.UidOf(blocks[id]) == id)
    && (forall obj :: SquashFlows.Names(root, |root.flows|, obj) ==> SquashFlows.UidOf(obj) in blocks)
    && (forall c :: c in conns <==> exists j :: 0 <= j < |root.flows| && c == ConnOf(root, root.flows[j]))
  }

  lemma TopIsLevel(root: Topology, blocks: map<Uid, Object>, conns: seq<Conn>)
    requires IsTop(root, blocks, conns)
    ensures Level(root, blocks)
  {
    SquashFlows.Root(root);
    hide InTree, SquashFlows.Names;
  }

  lemma TopEnd(root: Topology, blocks: map<Uid, Object>, conns: seq<Conn>, f: Flow, isSource: bool, p: FlatPort)
    requires Distinct(root) && IsTop(root, blocks, conns) && f in root.flows
    ensures IdResolves(blocks, EndOf(ConnOf(root, f), isSource), isSource, p) <==>
      !End(f, isSource).obj.Self? && EndResolves(root, End(f, isSource), isSource, p)
  {
    var obj := End(f, isSource).obj;
    SquashFlows.Root(root);
    IdOfInside(root, root, f, isSource);
    if !obj.Self? {
      SquashFlows.UidNamesOne(root, obj, blocks[SquashFlows.UidOf(obj)]);
    } else if root.uid in blocks {
      NotOwnUid(root, blocks[root.uid]);
    }
    hide Distinct, Resolves, InTree, SquashFlows.Names;
  }

  lemma NotOwnUid(root: Topology, obj: Object)
    requires Distinct(root) && SquashFlows.Names(root, |root.flows|, obj)
    ensures SquashFlows.UidOf(obj) != root.uid
  {
    SquashFlows.Root(root);
    var j, isSource := SquashFlows.NamedEnd(root, obj);
    IdOfInside(root, root, root.flows[j], isSource);
  }

  lemma TopObj(root: Topology, blocks: map<Uid, Object>, conns: seq<Conn>, f: Flow, isSource: bool)
    requires Distinct(root) && IsTop(root, blocks, conns) && f in root.flows
    ensures var id := IdOf(root, End(f, isSource));
      (id in blocks <==> !End(f, isSource).obj.Self?) && (id in blocks ==> blocks[id] == End(f, isSource).obj)
  {
    var obj := End(f, isSource).obj;
    SquashFlows.Root(root);
    IdOfInside(root, root, f, isSource);
    if !obj.Self? {
      SquashFlows.UidNamesOne(root, obj, blocks[SquashFlows.UidOf(obj)]);
    } else if root.uid in blocks {
      NotOwnUid(root, blocks[root.uid]);
    }
  }

  lemma TopPlain(root: Topology, blocks: map<Uid, Object>, conns: seq<Conn>)
    requires Distinct(root) && PlainPasses(root) && IsTop(root, blocks, conns)
    ensures PlainLevel(blocks, conns)
  {
    SquashFlows.Root(root);
    forall c | c in conns ensures PlainConn(blocks, c, true) && PlainConn(blocks, c, false) {
      var j :| 0 <= j < |root.flows| && c == ConnOf(root, root.flows[j]);
      assert PlainEnd(root.flows[j], true) && PlainEnd(root.flows[j], false);
      hide InTree, Distinct, PassPort, PlainPasses;
      TopObj(root, blocks, conns, root.flows[j], true);
      TopObj(root, blocks, conns, root.flows[j], false);
    }
  }

  lemma TopAcross(root: Topology, blocks: map<Uid, Object>, conns: seq<Conn>, p: FlatPort, q: FlatPort)
    requires Distinct(root) && IsTop(root, blocks, conns)
    ensures AcrossSome(blocks, conns, p, q) <==> SquashFlows.JoinedUpTo(root, |root.flows|, false, p, q)
  {
    hide InTree, IdResolves, EndResolves, Distinct;
    if SquashFlows.JoinedUpTo(root, |root.flows|, false, p, q) {
      var j :| 0 <= j < |root.flows| && SquashFlows.JoinedBy(root, root.flows[j], false, p, q);
      TopEnd(root, blocks, conns, root.flows[j], true, p);
      TopEnd(root, blocks, conns, root.flows[j], false, q);
      assert ConnOf(root, root.flows[j]) in conns && Across(blocks, ConnOf(root, root.flows[j]), p, q);
    }
    forall c | c in conns && Across(blocks, c, p, q) ensures SquashFlows.JoinedUpTo(root, |root.flows|, false, p, q) {
      var j :| 0 <= j < |root.flows| && c == ConnOf(root, root.flows[j]);
      TopEnd(root, blocks, conns, root.flows[j], true, p);
      TopEnd(root, blocks, conns, root.flows[j], false, q);
      assert SquashFlows.JoinedBy(root, root.flows[j], false, p, q);
    }
  }

  lemma ConnOfFlow(root: Topology, blocks: map<Uid, Object>, conns: seq<Conn>, f: Flow)
    requires IsTop(root, blocks, conns) && f in root.flows
    ensures ConnOf(root, f) in conns
  {
    var j :| 0 <= j < |root.flows| && root.flows[j] == f;
  }

  lemma FlowOfConn(root: Topology, blocks: map<Uid, Object>, conns: seq<Conn>, c: Conn) returns (f: Flow)
    requires IsTop(root, blocks, conns) && c in conns
    ensures f in root.flows && c == ConnOf(root, f)
  {
    var j :| 0 <= j < |root.flows| && c == ConnOf(root, root.flows[j]);
    f := root.flows[j];
  }

  lemma TopBridged(root: Topology, blocks: map<Uid, Object>, conns: seq<Conn>, x: FlatPort, y: FlatPort)
    requires Distinct(root) && IsTop(root, blocks, conns) && x.block && y.block
    ensures LevelBridged(blocks, conns, x, y) <==> BridgedIn(root, x, y)
  {
    hide InTree, Distinct, IsTop;
    if BridgedIn(root, x, y) {
      var u, a, b :| Bridges(root, x, y, u, a, b);
      var f, g := Flow(PortOf(x), Port(Sub(u), a)), Flow(Port(Sub(u), b), PortOf(y));
      ConnOfFlow(root, blocks, conns, f);
      ConnOfFlow(root, blocks, conns, g);
      TopObj(root, blocks, conns, f, true);
      TopObj(root, blocks, conns, f, false);
      TopObj(root, blocks, conns, g, false);
      assert IsLevelBridge(blocks, conns, x, y, u.uid, Flow(Port(Self, a), Port(Self, b)), ConnOf(root, f),
        ConnOf(root, g));
    }
    if LevelBridged(blocks, conns, x, y) {
      var id, f, head, tail :| IsLevelBridge(blocks, conns, x, y, id, f, head, tail);
      TopIsLevel(root, blocks, conns);
      LevelIds(root, blocks);
      PassIsSelf(root, blocks, id, f);
      var g := FlowOfConn(root, blocks, conns, head);
      var h := FlowOfConn(root, blocks, conns, tail);
      TopObj(root, blocks, conns, g, true);
      TopObj(root, blocks, conns, g, false);
      TopObj(root, blocks, conns, h, true);
      TopObj(root, blocks, conns, h, false);
      assert Bridges(root, x, y, blocks[id].top, f.src.name, f.dst.name);
    }
  }

  lemma PassIsSelf(root: Topology, blocks: map<Uid, Object>, id: Uid, f: Flow)
    requires Distinct(root) && Level(root, blocks) && id in blocks && blocks[id].Sub? && f in blocks[id].top.flows
    ensures ConnOf(blocks[id].top, f).srcId == id && ConnOf(blocks[id].top, f).dstId == id ==>
      f == Flow(Port(Self, f.src.name), Port(Self, f.dst.name))
  {
    LevelIds(root, blocks);
    InTreeOf(root, blocks, blocks[id].top);
    hide InTree, Distinct, Level;
    IdOfInside(root, blocks[id].top, f, true);
    IdOfInside(root, blocks[id].top, f, false);
  }

  /** What is bridged in a hierarchy is bridged in its root or below an object that the root names. */
  lemma BridgedUnder(root: Topology, x: FlatPort, y: FlatPort)
    ensures BridgedBelow(root, x, y) <==>
      || BridgedIn(root, x, y)
      || (exists obj: Object :: obj.Sub? && SquashFlows.Names(root, |root.flows|, obj) && BridgedBelow(obj.top, x, y))
  {
    hide BridgedIn;
    if BridgedBelow(root, x, y) {
      var t :| InTree(root, t) && BridgedIn(t, x, y);
      if t != root {
        var i, isSource :| 0 <= i < |root.flows| && End(root.flows[i], isSource).obj.Sub? &&
          InTree(End(root.flows[i], isSource).obj.top, t);
        var obj := End(root.flows[i], isSource).obj;
        assert SquashFlows.Names(root, |root.flows|, obj) && BridgedBelow(obj.top, x, y);
      }
    }
    if BridgedIn(root, x, y) {
      SquashFlows.Root(root);
    }
    forall obj: Object | obj.Sub? && SquashFlows.Names(root, |root.flows|, obj) && BridgedBelow(obj.top, x, y)
      ensures BridgedBelow(root, x, y)
    {
      var t :| InTree(obj.top, t) && BridgedIn(t, x, y);
      var j, isSource := SquashFlows.NamedEnd(root, obj);
      TreeTransitive(root, obj.top, t);
    }
  }

  /** The top level says what is to be dumped of the hierarchy. */
  lemma TopSays(root: Topology, blocks: map<Uid, Object>, conns: seq<Conn>, x: FlatPort, y: FlatPort)
    requires Distinct(root) && IsTop(root, blocks, conns) && x.block && y.block
    ensures Says(blocks, conns, x, y) <==> Dumped(root, x, y)
  {
    SquashFlows.FlatBelow(root, x, y);
    PassJoinsNull(root, x, y);
    hide Distinct, Flat, InTree, AcrossSome, LevelBridged, SquashFlows.JoinedUpTo, BridgedBelow, BridgedIn;
    TopAcross(root, blocks, conns, x, y);
    TopBridged(root, blocks, conns, x, y);
    BridgedUnder(root, x, y);
    TopBelow(root, blocks, conns, x, y);
  }

  lemma TopBelow(root: Topology, blocks: map<Uid, Object>, conns: seq<Conn>, x: FlatPort, y: FlatPort)
    requires Distinct(root) && IsTop(root, blocks, conns)
    ensures BelowSome(blocks, x, y) <==>
      exists obj: Object :: obj.Sub? && SquashFlows.Names(root, |root.flows|, obj) && Dumped(obj.top, x, y)
  {
    hide Distinct, Dumped;
    forall obj: Object | obj.Sub? && SquashFlows.Names(root, |root.flows|, obj) && Dumped(obj.top, x, y)
      ensures BelowSome(blocks, x, y) {
      SquashFlows.UidNamesOne(root, obj, blocks[SquashFlows.UidOf(obj)]);
    }
  }

  /** Heights of the objects on a level. */
  ghost predicate NoHigher(blocks: map<Uid, Object>, h: nat) {
    forall id :: id in blocks ==> Height(blocks[id]) <= h
  }

  lemma NextIsLower(blocks: map<Uid, Object>, next: map<Uid, Object>, h: nat)
    requires NoHigher(blocks, h) && IsNext(blocks, next)
    ensures NoHigher(next, if h > 0 then h - 1 else 0)
  {
    forall id | id in next ensures Height(next[id]) <= if h > 0 then h - 1 else 0 {
      var k :| k in blocks && Gives(blocks[k], next[id]);
      if blocks[k].Sub? {
        var j, isSource := SquashFlows.NamedEnd(blocks[k].top, next[id]);
        HeightBelow(blocks[k].top, |blocks[k].top.flows|, j, isSource);
      }
    }
  }

  lemma NextIsLevel(root: Topology, blocks: map<Uid, Object>, next: map<Uid, Object>)
    requires Level(root, blocks) && IsNext(blocks, next)
    ensures Level(root, next)
  {
    hide NextObject, Known;
    forall id | id in next ensures Known(root, next[id]) {
      NextKnown(root, blocks, next[id]);
    }
  }

  /** Nothing is left to dissolve, and every connection is between blocks of the dump. */
  ghost predicate IsFlat(blocks: map<Uid, Object>, conns: seq<Conn>) {
    && (forall id :: id in blocks ==> blocks[id] == Block(id))
    && (forall c :: c in conns ==> c.srcId in blocks && c.dstId in blocks)
  }

  lemma LastIsFlat(root: Topology, blocks: map<Uid, Object>, next: map<Uid, Object>, conns: seq<Conn>,
      nextConns: seq<Conn>)
    requires Level(root, blocks) && IsNext(blocks, next) && IsNextConns(blocks, conns, nextConns)
    requires forall id :: id in blocks ==> !blocks[id].Sub?
    ensures IsFlat(next, nextConns)
  {
    LevelIds(root, blocks);
    hide Known;
    forall id | id in next ensures next[id] == Block(id) {
      var k :| k in blocks && Gives(blocks[k], next[id]);
    }
    forall c | c in nextConns ensures c.srcId in next && c.dstId in next {
      assert NextConn(blocks, conns, c);
      assert Unfolded(blocks, conns, c);
      assert Gives(blocks[c.srcId], blocks[c.srcId]) && Gives(blocks[c.dstId], blocks[c.dstId]);
      assert NextObject(blocks, blocks[c.srcId]) && NextObject(blocks, blocks[c.dstId]);
    }
  }

  lemma FlatSays(blocks: map<Uid, Object>, conns: seq<Conn>, x: FlatPort, y: FlatPort)
    requires IsFlat(blocks, conns) && x.block && y.block
    ensures Says(blocks, conns, x, y) <==> Between(x, y) in conns
  {
    hide Dumped, IsBridge;
    forall c | c in conns ensures Across(blocks, c, x, y) <==> c == Between(x, y) {
    }
  }

  lemma {:induction false} NoPassNoNull(t: Topology, root: Topology, e: Port, isSource: bool, p: FlatPort)
    requires NoPasses(root) && !e.obj.Self? && (e.obj.Sub? ==> InTree(root, e.obj.top)) &&
      EndResolves(t, e, isSource, p)
    ensures p.block
    decreases e
  {
    if e.obj.Sub? {
      var s := e.obj.top;
      var i :| 0 <= i < |s.flows| && End(s.flows[i], !isSource) == Port(Self, e.name) &&
        EndResolves(s, End(s.flows[i], isSource), isSource, p);
      assert NoPass(s);
      assert s.flows[i] in s.flows;
      if End(s.flows[i], isSource).obj.Sub? {
        Below(root, s, s.flows[i], isSource);
      }
      NoPassNoNull(s, root, End(s.flows[i], isSource), isSource, p);
    }
  }

  lemma NoPassHypotheses(root: Topology)
    requires NoPasses(root)
    ensures NoChains(root) && AllPassesTile(root)
  {
    forall t | InTree(root, t) ensures NoChain(t) && PassesTile(t) {
      assert NoPass(t);
      forall i | 0 <= i < |t.flows| && !t.flows[i].src.obj.Self? && !t.flows[i].dst.obj.Self?
        ensures !ReachesPass(t, t.flows[i].src, true) {
        assert t.flows[i] in t.flows;
        if t.flows[i].src.obj.Sub? {
          Below(root, t, t.flows[i], true);
        }
        forall p | EndResolves(t, t.flows[i].src, true, p) ensures p.block {
          NoPassNoNull(t, root, t.flows[i].src, true, p);
        }
      }
      assert PassesTile(t) by { assert forall a, b :: !Pass(t, a, b); }
    }
  }

  lemma NoPassCompleted(root: Topology, x: FlatPort, y: FlatPort)
    requires Distinct(root) && NoPasses(root) && x.block && y.block
    ensures Flat(root, x, y) <==> Completed(root, x, y)
    ensures Completed(root, x, y) <==> Linked(root, BlockPort(x.uid, x.name, true), BlockPort(y.uid, y.name, false))
  {
    NoPassHypotheses(root);
    FlattenPreservesLinks(root, x, y);
    hide Linked, Distinct, Flat, NoPasses, AllPassesTile, NoChains, InTree;
    forall p, q | Flat(root, p, q) ensures p.block || q.block {
      NoNullFlat(root, p, q);
    }
  }

  lemma NoNullFlat(root: Topology, p: FlatPort, q: FlatPort)
    requires NoPasses(root) && NoChains(root) && Flat(root, p, q)
    ensures p.block || q.block
  {
    FlatCases(root, p, q);
    hide Flat, InTree, NoChains, NoPasses, Pass;
    if t :| InTree(root, t) && p.uid == q.uid == t.uid && Pass(t, p.name, q.name) {
      NoPassAt(root, t, p.name, q.name);
    }
  }

  lemma NoPassAt(root: Topology, t: Topology, a: string, b: string)
    requires NoPasses(root) && InTree(root, t)
    ensures !Pass(t, a, b)
  {
    hide InTree;
    assert NoPass(t);
  }

  /** Without pass-throughs, there is nothing to follow. */
  lemma NoPassIsPlain(root: Topology)
    requires NoPasses(root)
    ensures PlainPasses(root) && Unshared(root)
  {
    forall t, f | InTree(root, t) && f in t.flows ensures PlainEnd(f, true) && PlainEnd(f, false) {
      NoPassEnd(root, t, f, true);
      NoPassEnd(root, t, f, false);
    }
    forall t, s | InTree(root, t) && Connects(t, s) ensures !HasPass(s) {
      NoPassConnects(root, t, s);
    }
    hide InTree, HasPass, Connects;
  }

  lemma NoPassEnd(root: Topology, t: Topology, f: Flow, isSource: bool)
    requires NoPasses(root) && InTree(root, t) && f in t.flows
    ensures PlainEnd(f, isSource)
  {
    if End(f, isSource).obj.Sub? {
      Below(root, t, f, isSource);
      assert NoPass(End(f, isSource).obj.top);
    }
  }

  lemma NoPassConnects(root: Topology, t: Topology, s: Topology)
    requires NoPasses(root) && InTree(root, t) && Connects(t, s)
    ensures !HasPass(s)
  {
    var i :| 0 <= i < |t.flows| && (t.flows[i].src.obj == Sub(s) || t.flows[i].dst.obj == Sub(s));
    Below(root, t, t.flows[i], t.flows[i].src.obj == Sub(s));
    assert NoPass(s);
  }

  // ---------- the blocks of the dump ----------

  /** Some topology at or below t connects this block. */
  ghost predicate HasBlock(t: Topology, u: Uid) {
    exists s :: InTree(t, s) && SquashFlows.Names(s, |s.flows|, Block(u))
  }

  ghost predicate ObjectHas(obj: Object, u: Uid) {
    match obj
    case Self => false
    case Block(v) => v == u
    case Sub(t) => HasBlock(t, u)
  }

  ghost predicate Holds(blocks: map<Uid, Object>, u: Uid) {
    exists id :: id in blocks && ObjectHas(blocks[id], u)
  }

  /** A topology has the blocks that the objects it names have. */
  lemma NamedHave(t: Topology, u: Uid)
    ensures HasBlock(t, u) <==> exists obj :: SquashFlows.Names(t, |t.flows|, obj) && ObjectHas(obj, u)
  {
    if s :| InTree(t, s) && SquashFlows.Names(s, |s.flows|, Block(u)) {
      if s == t {
        assert ObjectHas(Block(u), u);
      } else {
        var i, isSource :| 0 <= i < |t.flows| && End(t.flows[i], isSource).obj.Sub? &&
          InTree(End(t.flows[i], isSource).obj.top, s);
        var obj := End(t.flows[i], isSource).obj;
        assert SquashFlows.Names(t, |t.flows|, obj) && ObjectHas(obj, u);
      }
    }
    if obj :| SquashFlows.Names(t, |t.flows|, obj) && ObjectHas(obj, u) {
      var j, isSource := SquashFlows.NamedEnd(t, obj);
      SquashFlows.Root(t);
      if obj.Sub? {
        var s :| InTree(obj.top, s) && SquashFlows.Names(s, |s.flows|, Block(u));
        TreeTransitive(t, obj.top, s);
      }
    }
  }

  lemma FlatHolds(blocks: map<Uid, Object>, conns: seq<Conn>, u: Uid)
    requires IsFlat(blocks, conns)
    ensures Holds(blocks, u) <==> u in blocks
  {
    if u in blocks {
      assert ObjectHas(blocks[u], u);
    }
  }

  lemma TopHolds(root: Topology, blocks: map<Uid, Object>, conns: seq<Conn>, u: Uid)
    requires Distinct(root) && IsTop(root, blocks, conns)
    ensures Holds(blocks, u) <==> HasBlock(root, u)
  {
    NamedHave(root, u);
    hide Distinct, HasBlock, ObjectHas;
    if obj :| SquashFlows.Names(root, |root.flows|, obj) && ObjectHas(obj, u) {
      SquashFlows.UidNamesOne(root, obj, blocks[SquashFlows.UidOf(obj)]);
    }
  }

  /** What an object has, the objects that it gives way to have. */
  lemma GivesHave(obj: Object, u: Uid)
    ensures ObjectHas(obj, u) <==> exists o :: Gives(obj, o) && ObjectHas(o, u)
  {
    if obj.Sub? {
      NamedHave(obj.top, u);
      hide HasBlock, SquashFlows.Names;
    } else {
      assert Gives(obj, obj);
    }
  }

  /** The next level has the same blocks. */
  lemma NextHasSame(root: Topology, blocks: map<Uid, Object>, next: map<Uid, Object>, u: Uid)
    requires Distinct(root) && Level(root, blocks) && IsNext(blocks, next)
    ensures Holds(next, u) <==> Holds(blocks, u)
  {
    hide Distinct, Level, ObjectHas, Gives;
    if id :| id in next && ObjectHas(next[id], u) {
      var k :| k in blocks && Gives(blocks[k], next[id]);
      GivesHave(blocks[k], u);
    }
    if k :| k in blocks && ObjectHas(blocks[k], u) {
      GivesHave(blocks[k], u);
      var o :| Gives(blocks[k], o) && ObjectHas(o, u);
      assert NextObject(blocks, o);
      hide IsNext, NextObject;
      NextHolds(root, blocks, next, o);
    }
  }

  /**
    The flat dump ends for every hierarchy with blocks alone. If pass-throughs are connected to blocks
    alone, each in one topology, its connections are exactly the paths between blocks; without
    pass-throughs they are also those of the flattened topology.
   */
  method DumpFlat(root: Topology) returns (blocks: map<Uid, Object>, conns: seq<Conn>)
    requires Distinct(root)
    ensures IsFlat(blocks, conns)
    ensures forall u :: u in blocks <==> HasBlock(root, u)
    ensures PlainPasses(root) && Unshared(root) ==> forall x: FlatPort, y: FlatPort :: x.block && y.block ==>
      (Between(x, y) in conns <==> Linked(root, BlockPort(x.uid, x.name, true), BlockPort(y.uid, y.name, false)))
    ensures NoPasses(root) ==> forall x: FlatPort, y: FlatPort :: x.block && y.block ==>
      (Between(x, y) in conns <==> Completed(root, x, y))
  {
    hide Distinct, Dumped, NoPasses, PlainPasses, Unshared, Known, IsNext, IsNextConns, IsFlat, Says, PlainLevel;
    hide SquashFlows.Names, Completed, Linked, Holds, HasBlock;
    blocks := SquashFlows.Objects(root);
    conns := ConnsOf(root);
    assert IsTop(root, blocks, conns);
    TopIsLevel(root, blocks, conns);
    ghost var h := TopHeight(root, blocks, conns);
    ghost var plain := PlainPasses(root) && Unshared(root);
    if plain {
      TopPlain(root, blocks, conns);
      forall x: FlatPort, y: FlatPort | x.block && y.block ensures Says(blocks, conns, x, y) <==> Dumped(root, x, y) {
        TopSays(root, blocks, conns, x, y);
      }
    }
    forall u ensures Holds(blocks, u) <==> HasBlock(root, u) {
      TopHolds(root, blocks, conns, u);
    }
    hide IsTop;
    var hierFound := true;
    while hierFound
      invariant Level(root, blocks) && NoHigher(blocks, h)
      invariant forall u :: Holds(blocks, u) <==> HasBlock(root, u)
      invariant plain ==> PlainLevel(blocks, conns)
      invariant plain ==> forall x: FlatPort, y: FlatPort :: x.block && y.block ==>
        (Says(blocks, conns, x, y) <==> Dumped(root, x, y))
      invariant !hierFound ==> IsFlat(blocks, conns)
      decreases hierFound, h
    {
      var flatBlocks, flatConns;
      assert forall id :: id in blocks ==>
        !blocks[id].Self? && SquashFlows.UidOf(blocks[id]) == id by { LevelIds(root, blocks); }
      hierFound, flatBlocks, flatConns := FlattenDump(blocks, conns);
      NextIsLower(blocks, flatBlocks, h);
      NextIsLevel(root, blocks, flatBlocks);
      forall u ensures Holds(flatBlocks, u) <==> Holds(blocks, u) {
        NextHasSame(root, blocks, flatBlocks, u);
      }
      if plain {
        NextPlain(root, blocks, flatBlocks, conns, flatConns);
        forall x: FlatPort, y: FlatPort | x.block && y.block
          ensures Says(blocks, conns, x, y) <==> Says(flatBlocks, flatConns, x, y)
        {
          NextSays(root, blocks, flatBlocks, conns, flatConns, x, y);
        }
      }
      if !hierFound {
        LastIsFlat(root, blocks, flatBlocks, conns, flatConns);
      }
      h := if h > 0 then h - 1 else 0;
      blocks, conns := flatBlocks, flatConns;
    }
    forall u ensures u in blocks <==> HasBlock(root, u) {
      FlatHolds(blocks, conns, u);
    }
    if plain {
      forall x: FlatPort, y: FlatPort | x.block && y.block
        ensures Between(x, y) in conns <==>
          Linked(root, BlockPort(x.uid, x.name, true), BlockPort(y.uid, y.name, false))
      {
        FlatSays(blocks, conns, x, y);
        DumpedExactly(root, x, y);
      }
    }
    if NoPasses(root) {
      NoPassIsPlain(root);
      forall x: FlatPort, y: FlatPort | x.block && y.block ensures Between(x, y) in conns <==> Completed(root, x, y) {
        NoPassCompleted(root, x, y);
      }
    }
  }

  lemma TopHeight(root: Topology, blocks: map<Uid, Object>, conns: seq<Conn>) returns (h: nat)
    requires IsTop(root, blocks, conns)
    ensures NoHigher(blocks, h)
  {
    h := FlowsHeight(root, |root.flows|);
    forall id | id in blocks ensures Height(blocks[id]) <= h {
      var j, isSource := SquashFlows.NamedEnd(root, blocks[id]);
      HeightBelow(root, |root.flows|, j, isSource);
    }
  }

  lemma LevelIds(root: Topology, blocks: map<Uid, Object>)
    requires Level(root, blocks)
    ensures forall id :: id in blocks ==> !blocks[id].Self? && SquashFlows.UidOf(blocks[id]) == id
  {
  }
}
