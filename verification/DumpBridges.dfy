/**
  Hierarchies whose pass-throughs are connected to blocks alone, each within one topology: what a path
  between two blocks looks like in them. This is what the flat dump can follow
  (lib/Framework/TopologyDumpJSON.cpp), whether or not the pass-throughs share ports.
 */
module DumpBridges {
  import opened Flatten

  /** Is this port of s the near port of a pass-through: an output when isSource? */
  predicate PassPort(s: Topology, name: string, isSource: bool) {
    exists i :: 0 <= i < |s.flows| && End(s.flows[i], !isSource) == Port(Self, name) &&
      End(s.flows[i], isSource).obj.Self?
  }

  predicate HasPass(s: Topology) {
    exists i :: 0 <= i < |s.flows| && s.flows[i].src.obj.Self? && s.flows[i].dst.obj.Self?
  }

  /** An end at a pass-through has a block at the other end. */
  predicate PlainEnd(f: Flow, isSource: bool) {
    End(f, isSource).obj.Sub? && PassPort(End(f, isSource).obj.top, End(f, isSource).name, isSource) ==>
      End(f, !isSource).obj.Block?
  }

  ghost predicate PlainPasses(root: Topology) {
    forall t, f :: InTree(root, t) && f in t.flows ==> PlainEnd(f, true) && PlainEnd(f, false)
  }

  predicate Connects(t: Topology, s: Topology) {
    exists i :: 0 <= i < |t.flows| && (t.flows[i].src.obj == Sub(s) || t.flows[i].dst.obj == Sub(s))
  }

  /** A topology with pass-throughs is connected in one other topology only. */
  ghost predicate Unshared(root: Topology) {
    forall t, u, s :: InTree(root, t) && InTree(root, u) && HasPass(s) && Connects(t, s) && Connects(u, s) ==> t == u
  }

  function PortOf(x: FlatPort): Port {
    Port(Block(x.uid), x.name)
  }

  /** In t, x feeds input a of s, which passes to b, which feeds y. */
  predicate Bridges(t: Topology, x: FlatPort, y: FlatPort, s: Topology, a: string, b: string) {
    Flow(PortOf(x), Port(Sub(s), a)) in t.flows && Pass(s, a, b) && Flow(Port(Sub(s), b), PortOf(y)) in t.flows
  }

  ghost predicate BridgedIn(t: Topology, x: FlatPort, y: FlatPort) {
    exists s, a, b :: Bridges(t, x, y, s, a, b)
  }

  ghost predicate BridgedBelow(root: Topology, x: FlatPort, y: FlatPort) {
    exists t :: InTree(root, t) && BridgedIn(t, x, y)
  }

  /** What the dump of a hierarchy says: flows between blocks, and bridges over one pass-through. */
  ghost predicate Dumped(root: Topology, x: FlatPort, y: FlatPort) {
    Flat(root, x, y) || BridgedBelow(root, x, y)
  }

  // ---------- pass-throughs ----------

  lemma PassHasPort(s: Topology, a: string, b: string)
    requires Pass(s, a, b)
    ensures PassPort(s, a, false) && PassPort(s, b, true) && HasPass(s)
  {
    var i :| 0 <= i < |s.flows| && s.flows[i] == Flow(Port(Self, a), Port(Self, b));
    assert End(s.flows[i], true) == Port(Self, a) && End(s.flows[i], false) == Port(Self, b);
  }

  lemma NamesIt(t: Topology, f: Flow, isSource: bool, s: Topology)
    requires f in t.flows && End(f, isSource).obj == Sub(s)
    ensures Connects(t, s)
  {
    var i :| 0 <= i < |t.flows| && t.flows[i] == f;
  }

  // ---------- dumped is linked ----------

  lemma BridgeIsPath(root: Topology, t: Topology, x: FlatPort, y: FlatPort, s: Topology, a: string, b: string)
    requires InTree(root, t) && Bridges(t, x, y, s, a, b)
    ensures Linked(root, BlockPort(x.uid, x.name, true), BlockPort(y.uid, y.name, false))
  {
    var f, g := Flow(PortOf(x), Port(Sub(s), a)), Flow(Port(Sub(s), b), PortOf(y));
    Below(root, t, f, false);
    PassEdge(root, s, a, b);
    var i :| 0 <= i < |t.flows| && t.flows[i] == f;
    var j :| 0 <= j < |t.flows| && t.flows[j] == g;
    FlowEdge(root, t, i);
    FlowEdge(root, t, j);
    hide Edge, Linked, InTree;
    var v := BlockPort(x.uid, x.name, true);
    OneEdge(root, v, TopPort(s.uid, a, false));
    Extend(root, v, TopPort(s.uid, a, false), TopPort(s.uid, b, true));
    Extend(root, v, TopPort(s.uid, b, true), BlockPort(y.uid, y.name, false));
  }

  lemma DumpedIsLinked(root: Topology, x: FlatPort, y: FlatPort)
    requires x.block && y.block && Dumped(root, x, y)
    ensures Linked(root, BlockPort(x.uid, x.name, true), BlockPort(y.uid, y.name, false))
  {
    hide Flat, Linked, InTree, Bridges;
    if Flat(root, x, y) {
      CrossIsPath(root, x, y);
    } else {
      var t :| InTree(root, t) && BridgedIn(t, x, y);
      var s, a, b :| Bridges(t, x, y, s, a, b);
      BridgeIsPath(root, t, x, y, s, a, b);
    }
  }

  // ---------- linked is dumped ----------

  /** x feeds this input. */
  ghost predicate FedBy(root: Topology, x: FlatPort, s: Topology, a: string) {
    exists t :: InTree(root, t) && Flow(PortOf(x), Port(Sub(s), a)) in t.flows
  }

  /** The stream of x has come to this end, on its way in. */
  ghost predicate HereIn(root: Topology, x: FlatPort, t: Topology, e: Port) {
    && (forall q: FlatPort :: q.block && EndResolves(t, e, false, q) ==> Dumped(root, x, q))
    && (e.obj.Sub? && PassPort(e.obj.top, e.name, false) ==> FedBy(root, x, e.obj.top, e.name))
  }

  /** The stream of x has come through the pass-through from a to this output. */
  ghost predicate CameBy(root: Topology, x: FlatPort, e: Port, a: string) {
    e.obj.Sub? && Pass(e.obj.top, a, e.name) && FedBy(root, x, e.obj.top, a)
  }

  /** The stream of x leaves by this end, from below it or through one pass-through. */
  ghost predicate HereOut(root: Topology, x: FlatPort, t: Topology, e: Port) {
    EndResolves(t, e, true, x) || exists a :: CameBy(root, x, e, a)
  }

  ghost predicate Here(root: Topology, x: FlatPort, v: Vertex) {
    match v
    case BlockPort(uid, name, true) => x == FlatPort(true, uid, name)
    case BlockPort(uid, name, false) => Dumped(root, x, FlatPort(true, uid, name))
    case TopPort(uid, name, true) =>
      exists s: Topology :: InTree(root, s) && s.uid == uid && HereOut(root, x, s, Port(Sub(s), name))
    case TopPort(uid, name, false) =>
      exists s: Topology :: InTree(root, s) && s.uid == uid && HereIn(root, x, s, Port(Sub(s), name))
  }

  lemma SourceOf(root: Topology, x: FlatPort, t: Topology, f: Flow)
    requires Distinct(root) && InTree(root, t) && f in t.flows && Here(root, x, EndVertex(t, f.src, true))
    ensures if f.src.obj.Self? then HereIn(root, x, t, Port(Sub(t), f.src.name)) else HereOut(root, x, t, f.src)
  {
    if f.src.obj.Sub? {
      Below(root, t, f, true);
      var s: Topology :| InTree(root, s) && s.uid == f.src.obj.top.uid && HereOut(root, x, s, Port(Sub(s), f.src.name));
      assert s == f.src.obj.top;
      SameEnd(s, t, f.src);
    } else if f.src.obj.Block? {
      assert EndResolves(t, f.src, true, x);
    }
  }

  /** Leaving a topology: not out of a pass-through, unless the flow is one. */
  lemma LeaveBy(root: Topology, x: FlatPort, t: Topology, f: Flow)
    requires PlainPasses(root) && InTree(root, t) && f in t.flows && f.dst.obj.Self?
    requires if f.src.obj.Self? then HereIn(root, x, t, Port(Sub(t), f.src.name)) else HereOut(root, x, t, f.src)
    ensures HereOut(root, x, t, Port(Sub(t), f.dst.name))
  {
    hide Dumped, InTree, Resolves, FedBy;
    var out := Port(Sub(t), f.dst.name);
    if f.src.obj.Self? {
      assert f == Flow(Port(Self, f.src.name), Port(Self, f.dst.name));
      PassHasPort(t, f.src.name, f.dst.name);
      assert CameBy(root, x, out, f.src.name);
    } else if EndResolves(t, f.src, true, x) {
      hide EndResolves;
      ResolvesBy(t, f, true, f.dst.name, x);
    } else {
      NotThrough(root, x, t, f);
    }
  }

  /** A stream that came through a pass-through goes on to a block. */
  lemma NotThrough(root: Topology, x: FlatPort, t: Topology, f: Flow)
    requires PlainPasses(root) && InTree(root, t) && f in t.flows && exists a :: CameBy(root, x, f.src, a)
    ensures f.dst.obj.Block?
  {
    hide InTree, FedBy;
    var a :| CameBy(root, x, f.src, a);
    PassHasPort(f.src.obj.top, a, f.src.name);
    assert PlainEnd(f, true);
  }

  lemma EnterBy(root: Topology, x: FlatPort, t: Topology, f: Flow)
    requires PlainPasses(root) && Unshared(root) && x.block && InTree(root, t) && f in t.flows && !f.dst.obj.Self?
    requires if f.src.obj.Self? then HereIn(root, x, t, Port(Sub(t), f.src.name)) else HereOut(root, x, t, f.src)
    requires f.src.obj.Block? ==> f.src == PortOf(x)
    ensures HereIn(root, x, t, f.dst)
  {
    if f.dst.obj.Sub? && PassPort(f.dst.obj.top, f.dst.name, false) {
      assert PlainEnd(f, false);
      assert f == Flow(PortOf(x), f.dst);
    }
    hide Flat, InTree, Resolves, EndResolves, PlainPasses, PassPort;
    forall q: FlatPort | q.block && EndResolves(t, f.dst, false, q) ensures Dumped(root, x, q) {
      if f.src.obj.Self? {
        ResolvesBy(t, f, false, f.src.name, q);
      } else if EndResolves(t, f.src, true, x) {
        FlatFrom(root, t, f, x, q);
      } else {
        NotThrough(root, x, t, f);
        OverBridge(root, x, t, f, q);
      }
    }
  }

  lemma OverBridge(root: Topology, x: FlatPort, t: Topology, f: Flow, q: FlatPort)
    requires Unshared(root) && InTree(root, t) && f in t.flows && exists a :: CameBy(root, x, f.src, a)
    requires f.dst.obj.Block? && EndResolves(t, f.dst, false, q)
    ensures BridgedBelow(root, x, q)
  {
    var a :| CameBy(root, x, f.src, a);
    var s := f.src.obj.top;
    var u :| InTree(root, u) && Flow(PortOf(x), Port(Sub(s), a)) in u.flows;
    hide InTree;
    PassHasPort(s, a, f.src.name);
    NamesIt(u, Flow(PortOf(x), Port(Sub(s), a)), false, s);
    NamesIt(t, f, true, s);
    assert u == t;
    assert f == Flow(Port(Sub(s), f.src.name), PortOf(q));
    assert Bridges(t, x, q, s, a, f.src.name);
  }

  lemma HereStep(root: Topology, x: FlatPort, v: Vertex, w: Vertex)
    requires Distinct(root) && PlainPasses(root) && Unshared(root) && x.block && Edge(root, v, w) && Here(root, x, v)
    ensures Here(root, x, w)
  {
    var t, f :| InTree(root, t) && f in t.flows && v == EndVertex(t, f.src, true) && w == EndVertex(t, f.dst, false);
    SourceOf(root, x, t, f);
    hide InTree, Distinct, PlainPasses, Unshared, Dumped, PassPort;
    if f.dst.obj.Self? {
      hide HereIn, HereOut;
      LeaveBy(root, x, t, f);
    } else {
      EnterBy(root, x, t, f);
      if f.dst.obj.Sub? {
        Below(root, t, f, false);
        SameEnd(t, f.dst.obj.top, f.dst);
        assert HereIn(root, x, f.dst.obj.top, f.dst);
      } else {
        assert EndResolves(t, f.dst, false, FlatPort(true, f.dst.obj.uid, f.dst.name));
      }
    }
  }

  lemma {:induction false} HereAll(root: Topology, x: FlatPort, p: seq<Vertex>, n: nat)
    requires Distinct(root) && PlainPasses(root) && Unshared(root) && x.block && IsPath(root, p) && n < |p|
    requires p[0] == BlockPort(x.uid, x.name, true)
    ensures Here(root, x, p[n])
  {
    if n > 0 {
      HereAll(root, x, p, n - 1);
      hide Here, Edge, Distinct, PlainPasses, Unshared;
      assert Edge(root, p[n - 1], p[n]);
      HereStep(root, x, p[n - 1], p[n]);
    }
  }

  /** In such a hierarchy two blocks are linked exactly if the dump of it says so. */
  lemma DumpedExactly(root: Topology, x: FlatPort, y: FlatPort)
    requires Distinct(root) && PlainPasses(root) && Unshared(root) && x.block && y.block
    ensures Dumped(root, x, y) <==> Linked(root, BlockPort(x.uid, x.name, true), BlockPort(y.uid, y.name, false))
  {
    if Dumped(root, x, y) {
      hide Dumped, Linked;
      DumpedIsLinked(root, x, y);
    }
    if Linked(root, BlockPort(x.uid, x.name, true), BlockPort(y.uid, y.name, false)) {
      hide Dumped, Distinct, PlainPasses, Unshared, IsPath;
      var p :| IsPath(root, p) && p[0] == BlockPort(x.uid, x.name, true) &&
        p[|p| - 1] == BlockPort(y.uid, y.name, false);
      HereAll(root, x, p, |p| - 1);
    }
  }
}
