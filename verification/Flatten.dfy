/**
  Flattening a hierarchy of topologies (lib/Framework/TopologySquashFlows.cpp and
  completePassThroughFlows in lib/Framework/TopologyCommit.cpp), against the paths through its ports.
 */
module Flatten {

  type Uid = string

  /** What a port belongs to: the topology that holds the flow (a null obj), a block, or a sub-topology. */
  datatype Object = Self | Block(uid: Uid) | Sub(top: Topology)
  datatype Port = Port(obj: Object, name: string)
  datatype Flow = Flow(src: Port, dst: Port)
  datatype Topology = Topology(uid: Uid, flows: seq<Flow>)

  /** A port after flattening; block is false when its obj is null. */
  datatype FlatPort = FlatPort(block: bool, uid: Uid, name: string)
  datatype FlatFlow = FlatFlow(src: FlatPort, dst: FlatPort)

  /** Ports compare by uid and name alone. */
  predicate SamePort(p: FlatPort, q: FlatPort) {
    p.uid == q.uid && p.name == q.name
  }

  function End(f: Flow, isSource: bool): Port {
    if isSource then f.src else f.dst
  }

  // ---------- what the resolvers compute ----------

  /** Is p one of the ports behind port name of t: its sources, or its destinations? */
  ghost predicate Resolves(t: Topology, name: string, isSource: bool, p: FlatPort)
    decreases t
  {
    exists i :: 0 <= i < |t.flows| && End(t.flows[i], !isSource) == Port(Self, name) &&
      EndResolves(t, End(t.flows[i], isSource), isSource, p)
  }

  /** Is p one of the ports behind this end of a flow of t? */
  ghost predicate EndResolves(t: Topology, e: Port, isSource: bool, p: FlatPort)
    decreases e
  {
    match e.obj
    case Self => p == FlatPort(false, t.uid, e.name)
    case Block(uid) => p == FlatPort(true, uid, e.name)
    case Sub(s) => Resolves(s, e.name, isSource, p)
  }

  /** A flow between two objects, or one that passes through. */
  predicate Joins(f: Flow) {
    f.src.obj.Self? <==> f.dst.obj.Self?
  }

  /** Is t the root, or somewhere below it? */
  ghost predicate InTree(root: Topology, t: Topology)
    decreases root
  {
    || t == root
    || exists i, isSource ::
         && 0 <= i < |root.flows| && End(root.flows[i], isSource).obj.Sub?
         && InTree(End(root.flows[i], isSource).obj.top, t)
  }

  ghost predicate LocalFlat(t: Topology, p: FlatPort, q: FlatPort) {
    exists i :: 0 <= i < |t.flows| && Joins(t.flows[i]) && EndResolves(t, t.flows[i].src, true, p) &&
      EndResolves(t, t.flows[i].dst, false, q)
  }

  /** The squashed flows of the whole hierarchy. */
  ghost predicate Flat(root: Topology, p: FlatPort, q: FlatPort) {
    exists t :: InTree(root, t) && LocalFlat(t, p, q)
  }

  /** A pass-through with a destination for its input and a source for its output. */
  ghost predicate Bridged(root: Topology, x: FlatPort, y: FlatPort, p: FlatPort, q: FlatPort, u: FlatPort,
      v: FlatPort) {
    && Flat(root, p, q) && !p.block && !q.block
    && Flat(root, u, y) && Flat(root, x, v)
    && SamePort(p, u) && SamePort(q, v)
  }

  /** The flows that remain after pass-throughs are completed. */
  ghost predicate Completed(root: Topology, x: FlatPort, y: FlatPort) {
    && x.block && y.block
    && (Flat(root, x, y) || exists p, q, u, v :: Bridged(root, x, y, p, q, u, v))
  }

  // ---------- the graph of ports ----------

  /** A port of a block, as source or destination; or a topology's output (isSource) or input. */
  datatype Vertex = BlockPort(uid: Uid, name: string, isSource: bool) | TopPort(uid: Uid, name: string, isSource: bool)

  function EndVertex(t: Topology, e: Port, isSource: bool): Vertex {
    match e.obj
    case Self => TopPort(t.uid, e.name, !isSource)
    case Block(uid) => BlockPort(uid, e.name, isSource)
    case Sub(s) => TopPort(s.uid, e.name, isSource)
  }

  ghost predicate Edge(root: Topology, a: Vertex, b: Vertex) {
    exists t, f :: InTree(root, t) && f in t.flows && a == EndVertex(t, f.src, true) && b == EndVertex(t, f.dst, false)
  }

  ghost predicate IsPath(root: Topology, p: seq<Vertex>) {
    |p| > 0 && forall i {:trigger p[i]} :: 0 < i < |p| ==> Edge(root, p[i - 1], p[i])
  }

  /** A path leads from a to b along the connections of all topologies. */
  ghost predicate Linked(root: Topology, a: Vertex, b: Vertex) {
    exists p :: IsPath(root, p) && p[0] == a && p[|p| - 1] == b
  }

  // ---------- hypotheses ----------

  /** Distinct topologies have distinct uids, and none is the uid of a block. */
  ghost predicate Distinct(root: Topology) {
    && (forall t, u :: InTree(root, t) && InTree(root, u) && t.uid == u.uid ==> t == u)
    && (forall t, u, i, isSource ::
          InTree(root, t) && InTree(root, u) && 0 <= i < |t.flows| && End(t.flows[i], isSource).obj.Block? ==>
            End(t.flows[i], isSource).obj.uid != u.uid)
  }

  predicate Pass(t: Topology, a: string, b: string) {
    Flow(Port(Self, a), Port(Self, b)) in t.flows
  }

  /** Two pass-throughs of one topology that share a port have the same ports on the other side. */
  ghost predicate PassesTile(t: Topology) {
    forall a, b, c, d :: Pass(t, a, b) && Pass(t, c, b) && Pass(t, c, d) ==> Pass(t, a, d)
  }

  /** Does this end of a flow lead to a pass-through? */
  ghost predicate ReachesPass(t: Topology, e: Port, isSource: bool) {
    exists p :: EndResolves(t, e, isSource, p) && !p.block
  }

  /** No connection of t joins two pass-throughs. */
  ghost predicate NoChain(t: Topology) {
    forall i :: 0 <= i < |t.flows| && !t.flows[i].src.obj.Self? && !t.flows[i].dst.obj.Self? ==>
      !(ReachesPass(t, t.flows[i].src, true) && ReachesPass(t, t.flows[i].dst, false))
  }

  ghost predicate NoChains(root: Topology) {
    forall t :: InTree(root, t) ==> NoChain(t)
  }

  ghost predicate AllPassesTile(root: Topology) {
    forall t :: InTree(root, t) ==> PassesTile(t)
  }

  // ---------- paths ----------

  lemma Extend(root: Topology, a: Vertex, b: Vertex, c: Vertex)
    requires Linked(root, a, b) && Edge(root, b, c)
    ensures Linked(root, a, c)
  {
    hide Edge;
    var p :| IsPath(root, p) && p[0] == a && p[|p| - 1] == b;
    var q := p + [c];
    assert IsPath(root, q);
    assert q[0] == a && q[|q| - 1] == c;
  }

  lemma {:induction false} Chained(root: Topology, a: Vertex, p: seq<Vertex>, n: nat)
    requires IsPath(root, p) && n < |p| && Linked(root, a, p[0])
    ensures Linked(root, a, p[n])
  {
    hide Linked, Edge;
    if n > 0 {
      assert Edge(root, p[n - 1], p[n]);
      Chained(root, a, p, n - 1);
      hide IsPath;
      Extend(root, a, p[n - 1], p[n]);
    }
  }

  lemma Transitive(root: Topology, a: Vertex, b: Vertex, c: Vertex)
    requires Linked(root, a, b) && Linked(root, b, c)
    ensures Linked(root, a, c)
  {
    var p :| IsPath(root, p) && p[0] == b && p[|p| - 1] == c;
    Chained(root, a, p, |p| - 1);
  }

  lemma Reflexive(root: Topology, a: Vertex)
    ensures Linked(root, a, a)
  {
    assert IsPath(root, [a]) && [a][0] == a && [a][|[a]| - 1] == a;
  }

  lemma OneEdge(root: Topology, a: Vertex, b: Vertex)
    requires Edge(root, a, b)
    ensures Linked(root, a, b)
  {
    Reflexive(root, a);
    Extend(root, a, a, b);
  }

  lemma FlowEdge(root: Topology, t: Topology, i: nat)
    requires InTree(root, t) && i < |t.flows|
    ensures Edge(root, EndVertex(t, t.flows[i].src, true), EndVertex(t, t.flows[i].dst, false))
  {
    hide InTree, EndVertex;
    assert t.flows[i] in t.flows;
  }

  // ---------- the tree ----------

  lemma Child(root: Topology, i: nat, isSource: bool)
    requires i < |root.flows| && End(root.flows[i], isSource).obj.Sub?
    ensures InTree(root, End(root.flows[i], isSource).obj.top)
  {
    assert InTree(End(root.flows[i], isSource).obj.top, End(root.flows[i], isSource).obj.top);
  }

  lemma {:induction false} TreeTransitive(root: Topology, t: Topology, u: Topology)
    requires InTree(root, t) && InTree(t, u)
    ensures InTree(root, u)
    decreases root
  {
    if t != root {
      var i, isSource :| 0 <= i < |root.flows| && End(root.flows[i], isSource).obj.Sub? &&
        InTree(End(root.flows[i], isSource).obj.top, t);
      TreeTransitive(End(root.flows[i], isSource).obj.top, t, u);
    }
  }

  /** A sub-topology named by a flow of t is in the tree. */
  lemma Below(root: Topology, t: Topology, f: Flow, isSource: bool)
    requires InTree(root, t) && f in t.flows && End(f, isSource).obj.Sub?
    ensures InTree(root, End(f, isSource).obj.top)
  {
    hide InTree;
    var i :| 0 <= i < |t.flows| && t.flows[i] == f;
    Child(t, i, isSource);
    TreeTransitive(root, t, End(f, isSource).obj.top);
  }

  // ---------- every completed flow is a path ----------

  /** Linked in the direction of the stream: towards b when isSource, from it otherwise. */
  ghost predicate Leads(root: Topology, isSource: bool, a: Vertex, b: Vertex) {
    if isSource then Linked(root, a, b) else Linked(root, b, a)
  }

  /** A pass-through whose far port (an input when isSource) is a. */
  predicate PassAt(t: Topology, isSource: bool, a: string, b: string) {
    if isSource then Pass(t, a, b) else Pass(t, b, a)
  }

  /** p is a topology's far pass-through port, and its near one leads to v. */
  ghost predicate PassLeads(root: Topology, isSource: bool, p: FlatPort, v: Vertex, u: Topology, b: string) {
    InTree(root, u) && u.uid == p.uid && PassAt(u, isSource, p.name, b) &&
      Leads(root, isSource, TopPort(u.uid, b, isSource), v)
  }

  ghost predicate ResolvedLeads(root: Topology, isSource: bool, p: FlatPort, v: Vertex) {
    if p.block then Leads(root, isSource, BlockPort(p.uid, p.name, isSource), v)
    else exists u, b :: PassLeads(root, isSource, p, v, u, b)
  }

  lemma StepOn(root: Topology, t: Topology, f: Flow, isSource: bool, p: FlatPort)
    requires InTree(root, t) && f in t.flows
    requires ResolvedLeads(root, isSource, p, EndVertex(t, End(f, isSource), isSource))
    ensures ResolvedLeads(root, isSource, p, EndVertex(t, End(f, !isSource), !isSource))
  {
    var v, w := EndVertex(t, End(f, isSource), isSource), EndVertex(t, End(f, !isSource), !isSource);
    assert if isSource then Edge(root, v, w) else Edge(root, w, v);
    hide InTree, Linked, Edge;
    if isSource { OneEdge(root, v, w); } else { OneEdge(root, w, v); }
    if p.block {
      LeadsOn(root, isSource, BlockPort(p.uid, p.name, isSource), v, w);
    } else {
      var u, b :| PassLeads(root, isSource, p, v, u, b);
      LeadsOn(root, isSource, TopPort(u.uid, b, isSource), v, w);
      assert PassLeads(root, isSource, p, w, u, b);
    }
  }

  lemma LeadsOn(root: Topology, isSource: bool, a: Vertex, b: Vertex, c: Vertex)
    requires Leads(root, isSource, a, b) && Leads(root, isSource, b, c)
    ensures Leads(root, isSource, a, c)
  {
    hide Linked;
    if isSource { Transitive(root, a, b, c); } else { Transitive(root, c, b, a); }
  }

  lemma {:induction false} ResolvedIsLinked(root: Topology, t: Topology, f: Flow, isSource: bool, p: FlatPort)
    requires InTree(root, t) && f in t.flows && !End(f, isSource).obj.Self?
    requires EndResolves(t, End(f, isSource), isSource, p)
    ensures ResolvedLeads(root, isSource, p, EndVertex(t, End(f, isSource), isSource))
    decreases End(f, isSource)
  {
    var e := End(f, isSource);
    match e.obj
    case Block(_) => Reflexive(root, EndVertex(t, e, isSource));
    case Sub(s) =>
      Below(root, t, f, isSource);
      var i :| 0 <= i < |s.flows| && End(s.flows[i], !isSource) == Port(Self, e.name) &&
        EndResolves(s, End(s.flows[i], isSource), isSource, p);
      var g := s.flows[i];
      assert g in s.flows;
      if End(g, isSource).obj.Self? {
        Reflexive(root, TopPort(s.uid, e.name, isSource));
        hide InTree, Linked;
        assert PassLeads(root, isSource, p, EndVertex(t, e, isSource), s, e.name);
      } else {
        ResolvedIsLinked(root, s, g, isSource, p);
        hide InTree, ResolvedLeads;
        StepOn(root, s, g, isSource, p);
      }
  }

  /** A squashed flow between two objects: what each end stands for is on either side of one connection. */
  ghost predicate CrossLeads(root: Topology, p: FlatPort, q: FlatPort, v: Vertex, w: Vertex) {
    ResolvedLeads(root, true, p, v) && Edge(root, v, w) && ResolvedLeads(root, false, q, w)
  }

  lemma FlatCases(root: Topology, p: FlatPort, q: FlatPort)
    requires Flat(root, p, q)
    ensures (exists v, w :: CrossLeads(root, p, q, v, w)) ||
      (exists t :: InTree(root, t) && !p.block && !q.block && p.uid == q.uid == t.uid && Pass(t, p.name, q.name))
    ensures !p.block && !q.block && NoChains(root) ==>
      exists t :: InTree(root, t) && p.uid == q.uid == t.uid && Pass(t, p.name, q.name)
  {
    var t :| InTree(root, t) && LocalFlat(t, p, q);
    var i :| 0 <= i < |t.flows| && Joins(t.flows[i]) && EndResolves(t, t.flows[i].src, true, p) &&
      EndResolves(t, t.flows[i].dst, false, q);
    var f := t.flows[i];
    assert f in t.flows;
    if f.src.obj.Self? {
      assert Pass(t, p.name, q.name);
    } else {
      ResolvedIsLinked(root, t, f, true, p);
      ResolvedIsLinked(root, t, f, false, q);
      var v, w := EndVertex(t, f.src, true), EndVertex(t, f.dst, false);
      assert Edge(root, v, w);
      assert CrossLeads(root, p, q, v, w);
      if NoChains(root) {
        OneEndIsBlock(t, f, p, q);
      }
    }
  }

  /** The two directions in which a block port leads across one connection. */
  lemma CrossIsPath(root: Topology, x: FlatPort, y: FlatPort)
    requires x.block && y.block && Flat(root, x, y)
    ensures Linked(root, BlockPort(x.uid, x.name, true), BlockPort(y.uid, y.name, false))
  {
    FlatCases(root, x, y);
    hide Flat, InTree, Linked, Edge;
    var v, w :| CrossLeads(root, x, y, v, w);
    OneEdge(root, v, w);
    Transitive(root, BlockPort(x.uid, x.name, true), v, w);
    Transitive(root, BlockPort(x.uid, x.name, true), w, BlockPort(y.uid, y.name, false));
  }

  /** A squashed flow that ends at a pass-through's output port: its block leads to an input of a pass-through there. */
  lemma HeadIsPath(root: Topology, x: FlatPort, v: FlatPort) returns (u: Topology, a: string)
    requires x.block && !v.block && Flat(root, x, v)
    ensures InTree(root, u) && u.uid == v.uid && Pass(u, a, v.name)
    ensures Linked(root, BlockPort(x.uid, x.name, true), TopPort(u.uid, a, false))
  {
    FlatCases(root, x, v);
    hide Flat, InTree, Linked, Edge;
    var m, w :| CrossLeads(root, x, v, m, w);
    u, a :| PassLeads(root, false, v, w, u, a);
    OneEdge(root, m, w);
    Transitive(root, BlockPort(x.uid, x.name, true), m, w);
    Transitive(root, BlockPort(x.uid, x.name, true), w, TopPort(u.uid, a, false));
  }

  lemma TailIsPath(root: Topology, u: FlatPort, y: FlatPort) returns (t: Topology, b: string)
    requires !u.block && y.block && Flat(root, u, y)
    ensures InTree(root, t) && t.uid == u.uid && Pass(t, u.name, b)
    ensures Linked(root, TopPort(t.uid, b, true), BlockPort(y.uid, y.name, false))
  {
    FlatCases(root, u, y);
    hide Flat, InTree, Linked, Edge;
    var m, w :| CrossLeads(root, u, y, m, w);
    t, b :| PassLeads(root, true, u, m, t, b);
    OneEdge(root, m, w);
    Transitive(root, TopPort(t.uid, b, true), m, w);
    Transitive(root, TopPort(t.uid, b, true), w, BlockPort(y.uid, y.name, false));
  }

  lemma PassEdge(root: Topology, t: Topology, a: string, b: string)
    requires InTree(root, t) && Pass(t, a, b)
    ensures Edge(root, TopPort(t.uid, a, false), TopPort(t.uid, b, true))
  {
    hide InTree;
    var f := Flow(Port(Self, a), Port(Self, b));
    assert f in t.flows && EndVertex(t, f.src, true) == TopPort(t.uid, a, false) &&
      EndVertex(t, f.dst, false) == TopPort(t.uid, b, true);
  }

  /** p is a port of s, or of a block that s connects. */
  ghost predicate Owns(root: Topology, s: Topology, isSource: bool, p: FlatPort) {
    && InTree(root, s)
    && if p.block
       then exists j :: 0 <= j < |s.flows| && End(s.flows[j], isSource).obj == Block(p.uid)
       else p.uid == s.uid
  }

  /** The blocks named by resolved ports are blocks of the hierarchy. */
  lemma {:induction false} ResolvedBlock(root: Topology, t: Topology, e: Port, i: nat, isSource: bool, p: FlatPort)
    requires InTree(root, t) && i < |t.flows| && e == End(t.flows[i], isSource) && EndResolves(t, e, isSource, p)
    ensures exists s :: Owns(root, s, isSource, p)
    decreases e
  {
    if e.obj.Sub? {
      var s := e.obj.top;
      Below(root, t, t.flows[i], isSource);
      var j :| 0 <= j < |s.flows| && End(s.flows[j], !isSource) == Port(Self, e.name) &&
        EndResolves(s, End(s.flows[j], isSource), isSource, p);
      ResolvedBlock(root, s, End(s.flows[j], isSource), j, isSource, p);
    } else {
      assert Owns(root, t, isSource, p);
    }
  }

  /** A block port and a topology port are never the same port. */
  lemma KindsDiffer(root: Topology, p: FlatPort, q: FlatPort, u: FlatPort, y: FlatPort)
    requires Distinct(root) && Flat(root, p, q) && Flat(root, u, y)
    ensures p.uid == u.uid ==> p.block == u.block
    ensures q.uid == y.uid ==> q.block == y.block
  {
    var t :| InTree(root, t) && LocalFlat(t, p, q);
    var i :| 0 <= i < |t.flows| && Joins(t.flows[i]) && EndResolves(t, t.flows[i].src, true, p) &&
      EndResolves(t, t.flows[i].dst, false, q);
    var s :| InTree(root, s) && LocalFlat(s, u, y);
    var j :| 0 <= j < |s.flows| && Joins(s.flows[j]) && EndResolves(s, s.flows[j].src, true, u) &&
      EndResolves(s, s.flows[j].dst, false, y);
    hide Flat, InTree, EndResolves;
    ResolvedBlock(root, t, t.flows[i].src, i, true, p);
    ResolvedBlock(root, t, t.flows[i].dst, i, false, q);
    ResolvedBlock(root, s, s.flows[j].src, j, true, u);
    ResolvedBlock(root, s, s.flows[j].dst, j, false, y);
  }

  lemma BridgedIsPath(root: Topology, x: FlatPort, y: FlatPort, p: FlatPort, q: FlatPort, u: FlatPort, v: FlatPort)
    requires Distinct(root) && NoChains(root) && AllPassesTile(root)
    requires x.block && y.block && Bridged(root, x, y, p, q, u, v)
    ensures Linked(root, BlockPort(x.uid, x.name, true), BlockPort(y.uid, y.name, false))
  {
    KindsDiffer(root, p, q, u, y);
    KindsDiffer(root, p, q, x, v);
    FlatCases(root, p, q);
    hide Flat, InTree, Linked, Edge, CrossLeads, NoChains, PassesTile, Pass;
    var t :| InTree(root, t) && p.uid == q.uid == t.uid && Pass(t, p.name, q.name);
    var h, a := HeadIsPath(root, x, v);
    var g, b := TailIsPath(root, u, y);
    assert h == t && g == t;
    assert PassesTile(t);
    assert Pass(t, a, b) by { hide AllPassesTile, Distinct; TilesThrough(t, a, q.name, p.name, b); }
    PassEdge(root, t, a, b);
    OneEdge(root, TopPort(t.uid, a, false), TopPort(t.uid, b, true));
    Transitive(root, BlockPort(x.uid, x.name, true), TopPort(t.uid, a, false), TopPort(t.uid, b, true));
    Transitive(root, BlockPort(x.uid, x.name, true), TopPort(t.uid, b, true), BlockPort(y.uid, y.name, false));
  }

  lemma TilesThrough(t: Topology, a: string, b: string, c: string, d: string)
    requires PassesTile(t) && Pass(t, a, b) && Pass(t, c, b) && Pass(t, c, d)
    ensures Pass(t, a, d)
  {
    hide Pass;
  }

  /** Every flow that remains joins two blocks that a path links. */
  lemma CompletedIsLinked(root: Topology, x: FlatPort, y: FlatPort)
    requires Distinct(root) && NoChains(root) && AllPassesTile(root)
    requires Completed(root, x, y)
    ensures Linked(root, BlockPort(x.uid, x.name, true), BlockPort(y.uid, y.name, false))
  {
    hide Flat, InTree, Linked, Distinct, NoChains, AllPassesTile, Bridged;
    if Flat(root, x, y) {
      CrossIsPath(root, x, y);
    } else {
      var p: FlatPort, q: FlatPort, u: FlatPort, v: FlatPort :| Bridged(root, x, y, p, q, u, v);
      BridgedIsPath(root, x, y, p, q, u, v);
    }
  }

  // ---------- every path becomes a flow ----------

  /** The stream of x has come to input name of t. */
  ghost predicate ArrivesIn(root: Topology, x: FlatPort, t: Topology, e: Port) {
    forall q :: EndResolves(t, e, false, q) ==> if q.block then Completed(root, x, q) else Flat(root, x, q)
  }

  /** x is at the output port of a pass-through whose input is p. */
  ghost predicate Passed(root: Topology, x: FlatPort, p: FlatPort) {
    !p.block && exists q: FlatPort :: !q.block && Flat(root, p, q) && Flat(root, x, q)
  }

  /** The stream of x leaves by this end, directly or out of a pass-through. */
  ghost predicate ArrivesOut(root: Topology, x: FlatPort, t: Topology, e: Port) {
    exists p :: EndResolves(t, e, true, p) && (p == x || Passed(root, x, p))
  }

  /** The stream of x is at this end of a flow of t. */
  ghost predicate At(root: Topology, x: FlatPort, v: Vertex) {
    match v
    case BlockPort(uid, name, true) => x == FlatPort(true, uid, name)
    case BlockPort(uid, name, false) => Completed(root, x, FlatPort(true, uid, name))
    case TopPort(uid, name, true) =>
      exists s: Topology :: InTree(root, s) && s.uid == uid && ArrivesOut(root, x, s, Port(Sub(s), name))
    case TopPort(uid, name, false) =>
      exists s: Topology :: InTree(root, s) && s.uid == uid && ArrivesIn(root, x, s, Port(Sub(s), name))
  }

  lemma FlatFrom(root: Topology, t: Topology, f: Flow, p: FlatPort, q: FlatPort)
    requires InTree(root, t) && f in t.flows && Joins(f) && EndResolves(t, f.src, true, p) &&
      EndResolves(t, f.dst, false, q)
    ensures Flat(root, p, q)
  {
    hide EndResolves, InTree;
    var i :| 0 <= i < |t.flows| && t.flows[i] == f;
    assert LocalFlat(t, p, q);
  }

  lemma ResolvesBy(t: Topology, f: Flow, isSource: bool, name: string, p: FlatPort)
    requires f in t.flows && End(f, !isSource) == Port(Self, name) && EndResolves(t, End(f, isSource), isSource, p)
    ensures EndResolves(t, Port(Sub(t), name), isSource, p)
  {
    var i :| 0 <= i < |t.flows| && t.flows[i] == f;
  }

  /** What it means for the stream to be at the source end of a flow of t. */
  lemma AtSource(root: Topology, x: FlatPort, t: Topology, f: Flow)
    requires Distinct(root) && InTree(root, t) && f in t.flows && At(root, x, EndVertex(t, f.src, true))
    ensures if f.src.obj.Self? then ArrivesIn(root, x, t, Port(Sub(t), f.src.name)) else ArrivesOut(root, x, t, f.src)
  {
    if f.src.obj.Sub? {
      Below(root, t, f, true);
      var s :| InTree(root, s) && s.uid == f.src.obj.top.uid && ArrivesOut(root, x, s, Port(Sub(s), f.src.name));
      assert s == f.src.obj.top;
      SameEnd(s, t, f.src);
    } else if f.src.obj.Block? {
      assert EndResolves(t, f.src, true, x);
    }
  }

  /** What is behind an end at a sub-topology depends on the sub-topology alone. */
  lemma SameEnd(s: Topology, t: Topology, e: Port)
    requires e.obj.Sub?
    ensures forall isSource, p :: EndResolves(s, e, isSource, p) <==> EndResolves(t, e, isSource, p)
  {
    hide Resolves;
  }

  /** Leaving a topology. */
  lemma GoOut(root: Topology, x: FlatPort, t: Topology, f: Flow)
    requires InTree(root, t) && f in t.flows && f.dst.obj.Self?
    requires if f.src.obj.Self? then ArrivesIn(root, x, t, Port(Sub(t), f.src.name)) else ArrivesOut(root, x, t, f.src)
    ensures ArrivesOut(root, x, t, Port(Sub(t), f.dst.name))
  {
    hide Flat, Completed, InTree, Resolves;
    if f.src.obj.Self? {
      var p, q := FlatPort(false, t.uid, f.src.name), FlatPort(false, t.uid, f.dst.name);
      FlatFrom(root, t, f, p, q);
      ResolvesBy(t, f, true, f.dst.name, p);
      ResolvesBy(t, f, false, f.src.name, q);
      assert Passed(root, x, p);
    } else {
      hide EndResolves;
      var p :| EndResolves(t, f.src, true, p) && (p == x || Passed(root, x, p));
      ResolvesBy(t, f, true, f.dst.name, p);
    }
  }

  lemma OneEndIsBlock(t: Topology, f: Flow, p: FlatPort, q: FlatPort)
    requires NoChain(t) && f in t.flows && !f.src.obj.Self? && !f.dst.obj.Self?
    requires EndResolves(t, f.src, true, p) && EndResolves(t, f.dst, false, q)
    ensures p.block || q.block
  {
    hide EndResolves;
    assert !p.block ==> ReachesPass(t, f.src, true);
    assert !q.block ==> ReachesPass(t, f.dst, false);
  }

  /** Going across, or down into a topology. */
  lemma GoIn(root: Topology, x: FlatPort, t: Topology, f: Flow)
    requires NoChains(root) && x.block && InTree(root, t) && f in t.flows && !f.dst.obj.Self?
    requires if f.src.obj.Self? then ArrivesIn(root, x, t, Port(Sub(t), f.src.name)) else ArrivesOut(root, x, t, f.src)
    ensures ArrivesIn(root, x, t, f.dst)
  {
    assert NoChain(t);
    hide Flat, InTree, Resolves, EndResolves, NoChains;
    forall q | EndResolves(t, f.dst, false, q) ensures if q.block then Completed(root, x, q) else Flat(root, x, q) {
      if f.src.obj.Self? {
        ResolvesBy(t, f, false, f.src.name, q);
      } else {
        var p :| EndResolves(t, f.src, true, p) && (p == x || Passed(root, x, p));
        FlatFrom(root, t, f, p, q);
        if p != x {
          OneEndIsBlock(t, f, p, q);
          var v: FlatPort :| !v.block && Flat(root, p, v) && Flat(root, x, v);
          assert Bridged(root, x, q, p, v, p, v);
        }
      }
    }
  }

  lemma AtStep(root: Topology, x: FlatPort, a: Vertex, b: Vertex)
    requires Distinct(root) && NoChains(root) && x.block && Edge(root, a, b) && At(root, x, a)
    ensures At(root, x, b)
  {
    var t, f :| InTree(root, t) && f in t.flows && a == EndVertex(t, f.src, true) && b == EndVertex(t, f.dst, false);
    AtSource(root, x, t, f);
    hide InTree, Distinct, NoChains, Flat, Completed;
    if f.dst.obj.Self? {
      hide ArrivesIn, ArrivesOut;
      GoOut(root, x, t, f);
    } else {
      GoIn(root, x, t, f);
      if f.dst.obj.Sub? {
        Below(root, t, f, false);
        SameEnd(t, f.dst.obj.top, f.dst);
        assert ArrivesIn(root, x, f.dst.obj.top, f.dst);
      } else {
        assert EndResolves(t, f.dst, false, FlatPort(true, f.dst.obj.uid, f.dst.name));
      }
    }
  }

  lemma {:induction false} AtAll(root: Topology, x: FlatPort, p: seq<Vertex>, n: nat)
    requires Distinct(root) && NoChains(root) && x.block && IsPath(root, p) && n < |p|
    requires p[0] == BlockPort(x.uid, x.name, true)
    ensures At(root, x, p[n])
  {
    if n > 0 {
      AtAll(root, x, p, n - 1);
      hide At, Edge, Distinct, NoChains;
      assert Edge(root, p[n - 1], p[n]);
      AtStep(root, x, p[n - 1], p[n]);
    }
  }

  lemma LinkedIsCompleted(root: Topology, x: FlatPort, y: FlatPort)
    requires Distinct(root) && NoChains(root) && x.block && y.block
    requires Linked(root, BlockPort(x.uid, x.name, true), BlockPort(y.uid, y.name, false))
    ensures Completed(root, x, y)
  {
    var p :| IsPath(root, p) && p[0] == BlockPort(x.uid, x.name, true) && p[|p| - 1] == BlockPort(y.uid, y.name, false);
    hide Distinct, NoChains, IsPath;
    AtAll(root, x, p, |p| - 1);
  }

  /**
    Squashing and completing keep exactly who feeds whom, if no connection joins two pass-throughs
    and the pass-throughs of a topology that share a port have the same ports on the other side.
   */
  lemma FlattenPreservesLinks(root: Topology, x: FlatPort, y: FlatPort)
    requires Distinct(root) && NoChains(root) && AllPassesTile(root) && x.block && y.block
    ensures Completed(root, x, y) <==> Linked(root, BlockPort(x.uid, x.name, true), BlockPort(y.uid, y.name, false))
  {
    hide Distinct, NoChains, AllPassesTile, Completed, Linked;
    if Completed(root, x, y) {
      CompletedIsLinked(root, x, y);
    }
    if Linked(root, BlockPort(x.uid, x.name, true), BlockPort(y.uid, y.name, false)) {
      LinkedIsCompleted(root, x, y);
    }
  }
}
