/**
  Connections between two pass-throughs, for any two topologies of pass-throughs: the path along such a
  connection is always lost, and a flow that no path has appears whenever the two are fed and drained there.
 */
module FlattenChains {
  import opened Flatten
  import opened FlattenLimits

  const FEED2 := "feed2"
  const SINK2 := "sink2"
  const FROM2 := FlatPort(true, FEED2, PORT)
  const TO2 := FlatPort(true, SINK2, PORT)

  // ---------- roots that connect blocks and boxes ----------

  predicate PanelPort(e: Port) {
    e.obj.Block? || (e.obj.Sub? && IsBox(e.obj.top))
  }

  /** Every flow of the root is between blocks and topologies of pass-throughs. */
  predicate IsPanel(root: Topology) {
    forall i :: 0 <= i < |root.flows| ==> PanelPort(root.flows[i].src) && PanelPort(root.flows[i].dst)
  }

  /** One of the topologies that the root connects. */
  predicate OnPanel(root: Topology, t: Topology) {
    exists i :: 0 <= i < |root.flows| && (root.flows[i].src.obj == Sub(t) || root.flows[i].dst.obj == Sub(t))
  }

  lemma PanelTree(root: Topology, t: Topology)
    requires IsPanel(root)
    ensures InTree(root, t) <==> t == root || OnPanel(root, t)
  {
    forall s | IsBox(s) ensures InTree(s, t) <==> s == t {
      assert forall i, isSource :: 0 <= i < |s.flows| ==> !End(s.flows[i], isSource).obj.Sub?;
    }
    if OnPanel(root, t) {
      var i :| 0 <= i < |root.flows| && (root.flows[i].src.obj == Sub(t) || root.flows[i].dst.obj == Sub(t));
      Child(root, i, root.flows[i].src.obj == Sub(t));
    }
    if InTree(root, t) && t != root {
      var i, isSource :| 0 <= i < |root.flows| && End(root.flows[i], isSource).obj.Sub?
                         && InTree(End(root.flows[i], isSource).obj.top, t);
      assert PanelPort(root.flows[i].src) && PanelPort(root.flows[i].dst);
    }
  }

  /** The ports behind an end on a panel. */
  predicate PanelEnd(e: Port, isSource: bool, p: FlatPort) {
    match e.obj
    case Self => false
    case Block(uid) => p == FlatPort(true, uid, e.name)
    case Sub(s) => p == FlatPort(false, s.uid, p.name) && PassAt(s, isSource, p.name, e.name)
  }

  lemma PanelResolves(root: Topology, e: Port, isSource: bool, p: FlatPort)
    requires PanelPort(e)
    ensures EndResolves(root, e, isSource, p) <==> PanelEnd(e, isSource, p)
  {
    if e.obj.Sub? {
      BoxResolves(e.obj.top, e.name, isSource, p);
    }
  }

  predicate JoinedAt(root: Topology, i: nat, p: FlatPort, q: FlatPort) {
    i < |root.flows| && PanelEnd(root.flows[i].src, true, p) && PanelEnd(root.flows[i].dst, false, q)
  }

  predicate PassesIn(t: Topology, p: FlatPort, q: FlatPort) {
    p == FlatPort(false, t.uid, p.name) && q == FlatPort(false, t.uid, q.name) && Pass(t, p.name, q.name)
  }

  /** The squashed flows of a panel. */
  lemma PanelFlat(root: Topology, p: FlatPort, q: FlatPort)
    requires IsPanel(root)
    ensures Flat(root, p, q) <==>
      (exists i: nat :: JoinedAt(root, i, p, q)) || (exists t :: OnPanel(root, t) && PassesIn(t, p, q))
  {
    PanelLocal(root, p, q);
    forall t | OnPanel(root, t) ensures InTree(root, t) && (LocalFlat(t, p, q) <==> PassesIn(t, p, q)) {
      PanelTree(root, t);
      PanelBox(root, t);
      LocalBox(t, p, q);
    }
    PanelTree(root, root);
    hide LocalFlat, OnPanel, JoinedAt, PassesIn, IsPanel, InTree;
    if Flat(root, p, q) {
      var t :| InTree(root, t) && LocalFlat(t, p, q);
      PanelTree(root, t);
    }
  }

  lemma PanelBox(root: Topology, t: Topology)
    requires IsPanel(root) && OnPanel(root, t)
    ensures IsBox(t)
  {
    var i :| 0 <= i < |root.flows| && (root.flows[i].src.obj == Sub(t) || root.flows[i].dst.obj == Sub(t));
    assert PanelPort(root.flows[i].src) && PanelPort(root.flows[i].dst);
  }

  lemma PanelLocal(root: Topology, p: FlatPort, q: FlatPort)
    requires IsPanel(root)
    ensures LocalFlat(root, p, q) <==> exists i: nat :: JoinedAt(root, i, p, q)
  {
    hide EndResolves, PanelEnd;
    forall i | 0 <= i < |root.flows|
      ensures EndResolves(root, root.flows[i].src, true, p) <==> PanelEnd(root.flows[i].src, true, p)
      ensures EndResolves(root, root.flows[i].dst, false, q) <==> PanelEnd(root.flows[i].dst, false, q)
      ensures Joins(root.flows[i])
    {
      assert PanelPort(root.flows[i].src) && PanelPort(root.flows[i].dst);
      PanelResolves(root, root.flows[i].src, true, p);
      PanelResolves(root, root.flows[i].dst, false, q);
    }
    if i: nat :| JoinedAt(root, i, p, q) {
      assert Joins(root.flows[i]) && EndResolves(root, root.flows[i].src, true, p)
             && EndResolves(root, root.flows[i].dst, false, q);
    }
    if LocalFlat(root, p, q) {
      var i :| 0 <= i < |root.flows| && Joins(root.flows[i]) && EndResolves(root, root.flows[i].src, true, p)
               && EndResolves(root, root.flows[i].dst, false, q);
      assert JoinedAt(root, i, p, q);
    }
  }

  /** The edges of a panel. */
  lemma PanelEdge(root: Topology, x: Vertex, y: Vertex)
    requires IsPanel(root) && Edge(root, x, y)
    ensures (exists i :: 0 <= i < |root.flows| && x == EndVertex(root, root.flows[i].src, true)
                         && y == EndVertex(root, root.flows[i].dst, false))
            || (exists t :: OnPanel(root, t) && x == TopPort(t.uid, x.name, false) && y == TopPort(t.uid, y.name, true)
                            && Pass(t, x.name, y.name))
  {
    var t, f :| InTree(root, t) && f in t.flows && x == EndVertex(t, f.src, true) && y == EndVertex(t, f.dst, false);
    PanelTree(root, t);
    if t != root {
      PanelBox(root, t);
      var i :| 0 <= i < |t.flows| && t.flows[i] == f;
      assert f == Flow(Port(Self, f.src.name), Port(Self, f.dst.name));
    }
  }

  // ---------- two boxes in a row ----------

  /** Two boxes: u with ports a and b, v with ports c and d. */
  datatype Row = Row(u: Topology, a: string, b: string, v: Topology, c: string, d: string)

  predicate RowOk(r: Row) {
    && IsBox(r.u) && IsBox(r.v) && r.u.uid != r.v.uid
    && r.u.uid !in {FEED2, SINK2} && r.v.uid !in {FEED2, SINK2}
  }

  /**
    One block feeds input a of u, output b of u feeds input c of v, and output d of v feeds another block;
    if crossed, a third block feeds c as well, and b feeds a fourth.
   */
  function Wired(r: Row, crossed: bool): Topology {
    Topology(CONTEXT,
      [Flow(Port(Block(FEED), PORT), Port(Sub(r.u), r.a)),
       Flow(Port(Sub(r.u), r.b), Port(Sub(r.v), r.c)),
       Flow(Port(Sub(r.v), r.d), Port(Block(SINK), PORT))] +
      if crossed then
        [Flow(Port(Block(FEED2), PORT), Port(Sub(r.v), r.c)),
         Flow(Port(Sub(r.u), r.b), Port(Block(SINK2), PORT))]
      else [])
  }

  lemma WiredIsPanel(r: Row, crossed: bool)
    requires RowOk(r)
    ensures IsPanel(Wired(r, crossed))
    ensures forall t :: OnPanel(Wired(r, crossed), t) <==> t == r.u || t == r.v
  {
    var root := Wired(r, crossed);
    assert root.flows[0].dst.obj == Sub(r.u) && root.flows[2].src.obj == Sub(r.v);
  }

  predicate At(p: FlatPort, t: Topology) {
    p == FlatPort(false, t.uid, p.name)
  }

  /** The squashed flows around the two boxes. */
  predicate RowFlat(r: Row, crossed: bool, p: FlatPort, q: FlatPort) {
    || (p == FROM && At(q, r.u) && Pass(r.u, r.a, q.name))
    || (At(p, r.u) && Pass(r.u, p.name, r.b) && At(q, r.v) && Pass(r.v, r.c, q.name))
    || (At(p, r.v) && Pass(r.v, p.name, r.d) && q == TO)
    || (crossed && p == FROM2 && At(q, r.v) && Pass(r.v, r.c, q.name))
    || (crossed && At(p, r.u) && Pass(r.u, p.name, r.b) && q == TO2)
    || PassesIn(r.u, p, q) || PassesIn(r.v, p, q)
  }

  lemma WiredFlat(r: Row, crossed: bool, p: FlatPort, q: FlatPort)
    requires RowOk(r)
    ensures Flat(Wired(r, crossed), p, q) <==> RowFlat(r, crossed, p, q)
  {
    var root := Wired(r, crossed);
    WiredIsPanel(r, crossed);
    PanelFlat(root, p, q);
    JoinedInRow(r, crossed, p, q);
    hide Flat, IsPanel, OnPanel, JoinedAt, Pass, Wired;
  }

  lemma JoinedInRow(r: Row, crossed: bool, p: FlatPort, q: FlatPort)
    ensures (exists i: nat :: JoinedAt(Wired(r, crossed), i, p, q)) <==>
      || (p == FROM && At(q, r.u) && Pass(r.u, r.a, q.name))
      || (At(p, r.u) && Pass(r.u, p.name, r.b) && At(q, r.v) && Pass(r.v, r.c, q.name))
      || (At(p, r.v) && Pass(r.v, p.name, r.d) && q == TO)
      || (crossed && p == FROM2 && At(q, r.v) && Pass(r.v, r.c, q.name))
      || (crossed && At(p, r.u) && Pass(r.u, p.name, r.b) && q == TO2)
  {
    hide Pass;
    var root := Wired(r, crossed);
    assert JoinedAt(root, 0, p, q) <==> p == FROM && At(q, r.u) && Pass(r.u, r.a, q.name);
    assert JoinedAt(root, 1, p, q) <==> At(p, r.u) && Pass(r.u, p.name, r.b) && At(q, r.v) && Pass(r.v, r.c, q.name);
    assert JoinedAt(root, 2, p, q) <==> At(p, r.v) && Pass(r.v, p.name, r.d) && q == TO;
    assert JoinedAt(root, 3, p, q) <==> crossed && p == FROM2 && At(q, r.v) && Pass(r.v, r.c, q.name);
    assert JoinedAt(root, 4, p, q) <==> crossed && At(p, r.u) && Pass(r.u, p.name, r.b) && q == TO2;
    assert forall i: nat :: JoinedAt(root, i, p, q) ==> i in {0, 1, 2, 3, 4};
    hide JoinedAt, Wired;
  }

  /** What completion makes of a row: nothing from its start to its end, and a flow across it. */
  lemma RowCompleted(r: Row, crossed: bool)
    requires RowOk(r)
    ensures !Completed(Wired(r, crossed), FROM, TO)
    ensures Completed(Wired(r, crossed), FROM2, TO2) <==>
      crossed && exists x, y :: Pass(r.u, x, r.b) && Pass(r.v, r.c, y)
  {
    var root := Wired(r, crossed);
    forall p, q ensures Flat(root, p, q) <==> RowFlat(r, crossed, p, q) {
      WiredFlat(r, crossed, p, q);
    }
    hide Flat, Wired, Pass;
    if crossed && exists x, y :: Pass(r.u, x, r.b) && Pass(r.v, r.c, y) {
      var x, y :| Pass(r.u, x, r.b) && Pass(r.v, r.c, y);
      var p, q := FlatPort(false, r.u.uid, x), FlatPort(false, r.v.uid, y);
      assert Bridged(root, FROM2, TO2, p, q, p, q);
    }
    forall p, q, x, y | Bridged(root, FROM2, TO2, p, q, x, y)
      ensures crossed && Pass(r.u, p.name, r.b) && Pass(r.v, r.c, q.name)
    {
      BridgedAcross(r, crossed, p, q, x, y);
    }
    forall p, q, x, y ensures !Bridged(root, FROM, TO, p, q, x, y) {
      NotBridged(r, crossed, p, q, x, y);
    }
  }

  lemma BridgedAcross(r: Row, crossed: bool, p: FlatPort, q: FlatPort, x: FlatPort, y: FlatPort)
    requires RowOk(r) && Bridged(Wired(r, crossed), FROM2, TO2, p, q, x, y)
    ensures crossed && Pass(r.u, p.name, r.b) && Pass(r.v, r.c, q.name)
  {
    WiredFlat(r, crossed, p, q);
    WiredFlat(r, crossed, x, TO2);
    WiredFlat(r, crossed, FROM2, y);
    hide Flat, Wired, Pass;
  }

  lemma NotBridged(r: Row, crossed: bool, p: FlatPort, q: FlatPort, x: FlatPort, y: FlatPort)
    requires RowOk(r)
    ensures !Bridged(Wired(r, crossed), FROM, TO, p, q, x, y)
  {
    WiredFlat(r, crossed, p, q);
    WiredFlat(r, crossed, x, TO);
    WiredFlat(r, crossed, FROM, y);
    hide Flat, Wired, Pass;
  }

  // ---------- the paths along a row ----------

  function In(t: Topology, name: string): Vertex {
    TopPort(t.uid, name, false)
  }

  predicate IsOut(x: Vertex, t: Topology) {
    x == TopPort(t.uid, x.name, true)
  }

  /** Where the stream of the first block can be. */
  predicate Reached(r: Row, crossed: bool, x: Vertex) {
    || x == BlockPort(FEED, PORT, true) || x == In(r.u, r.a)
    || (IsOut(x, r.u) && Pass(r.u, r.a, x.name))
    || (Pass(r.u, r.a, r.b) && x == In(r.v, r.c))
    || (Pass(r.u, r.a, r.b) && IsOut(x, r.v) && Pass(r.v, r.c, x.name))
    || (Pass(r.u, r.a, r.b) && Pass(r.v, r.c, r.d) && x == BlockPort(SINK, PORT, false))
    || (crossed && Pass(r.u, r.a, r.b) && x == BlockPort(SINK2, PORT, false))
  }

  /** Where the stream of the block that was added can be. */
  predicate Reached2(r: Row, x: Vertex) {
    || x == BlockPort(FEED2, PORT, true) || x == In(r.v, r.c)
    || (IsOut(x, r.v) && Pass(r.v, r.c, x.name))
    || (Pass(r.v, r.c, r.d) && x == BlockPort(SINK, PORT, false))
  }

  lemma ReachedStep(r: Row, crossed: bool, x: Vertex, y: Vertex)
    requires RowOk(r) && Edge(Wired(r, crossed), x, y)
    ensures Reached(r, crossed, x) ==> Reached(r, crossed, y)
    ensures Reached2(r, x) ==> Reached2(r, y)
  {
    var root := Wired(r, crossed);
    WiredIsPanel(r, crossed);
    PanelEdge(root, x, y);
    hide Edge, Pass, IsPanel, OnPanel;
    if i :| 0 <= i < |root.flows| && x == EndVertex(root, root.flows[i].src, true)
            && y == EndVertex(root, root.flows[i].dst, false) {
      assert i in {0, 1, 2, 3, 4};
    }
  }

  lemma {:induction false} ReachedAll(r: Row, crossed: bool, path: seq<Vertex>, n: nat)
    requires RowOk(r) && IsPath(Wired(r, crossed), path) && n < |path|
    ensures Reached(r, crossed, path[0]) ==> Reached(r, crossed, path[n])
    ensures Reached2(r, path[0]) ==> Reached2(r, path[n])
  {
    hide Reached, Reached2, Edge, RowOk;
    if n > 0 {
      assert Edge(Wired(r, crossed), path[n - 1], path[n]);
      ReachedAll(r, crossed, path, n - 1);
      hide IsPath;
      ReachedStep(r, crossed, path[n - 1], path[n]);
    }
  }

  lemma RowEdges(r: Row, crossed: bool)
    requires RowOk(r)
    ensures var root := Wired(r, crossed);
      && Edge(root, BlockPort(FEED, PORT, true), In(r.u, r.a))
      && Edge(root, TopPort(r.u.uid, r.b, true), In(r.v, r.c))
      && Edge(root, TopPort(r.v.uid, r.d, true), BlockPort(SINK, PORT, false))
      && InTree(root, r.u) && InTree(root, r.v)
  {
    var root := Wired(r, crossed);
    WiredIsPanel(r, crossed);
    PanelTree(root, root);
    PanelTree(root, r.u);
    PanelTree(root, r.v);
    hide InTree, IsPanel, OnPanel;
    hide Edge;
    FlowEdge(root, root, 0);
    FlowEdge(root, root, 1);
    FlowEdge(root, root, 2);
  }

  lemma RowLinked(r: Row, crossed: bool)
    requires RowOk(r)
    ensures Linked(Wired(r, crossed), BlockPort(FEED, PORT, true), BlockPort(SINK, PORT, false)) <==>
      Pass(r.u, r.a, r.b) && Pass(r.v, r.c, r.d)
    ensures !Linked(Wired(r, crossed), BlockPort(FEED2, PORT, true), BlockPort(SINK2, PORT, false))
  {
    var root := Wired(r, crossed);
    var x, y := BlockPort(FEED, PORT, true), BlockPort(SINK, PORT, false);
    hide Wired, Edge, Pass, InTree;
    forall path | IsPath(root, path) && path[0] == x && path[|path| - 1] == y
      ensures Pass(r.u, r.a, r.b) && Pass(r.v, r.c, r.d)
    {
      ReachedAll(r, crossed, path, |path| - 1);
    }
    forall path | IsPath(root, path) && path[0] == BlockPort(FEED2, PORT, true)
      ensures path[|path| - 1] != BlockPort(SINK2, PORT, false)
    {
      ReachedAll(r, crossed, path, |path| - 1);
    }
    if Pass(r.u, r.a, r.b) && Pass(r.v, r.c, r.d) {
      RowPath(r, crossed);
    }
  }

  lemma RowPath(r: Row, crossed: bool)
    requires RowOk(r) && Pass(r.u, r.a, r.b) && Pass(r.v, r.c, r.d)
    ensures Linked(Wired(r, crossed), BlockPort(FEED, PORT, true), BlockPort(SINK, PORT, false))
  {
    var root := Wired(r, crossed);
    var x, y := BlockPort(FEED, PORT, true), BlockPort(SINK, PORT, false);
    RowEdges(r, crossed);
    hide Wired, Edge, Linked, InTree;
    PassEdge(root, r.u, r.a, r.b);
    PassEdge(root, r.v, r.c, r.d);
    OneEdge(root, x, In(r.u, r.a));
    Extend(root, x, In(r.u, r.a), TopPort(r.u.uid, r.b, true));
    Extend(root, x, TopPort(r.u.uid, r.b, true), In(r.v, r.c));
    Extend(root, x, In(r.v, r.c), TopPort(r.v.uid, r.d, true));
    Extend(root, x, TopPort(r.v.uid, r.d, true), y);
  }

  /** Two pass-throughs in a row are flattened right exactly if they do not lead through. */
  lemma RowExact(r: Row, crossed: bool)
    requires RowOk(r)
    ensures (Completed(Wired(r, crossed), FROM, TO) <==>
             Linked(Wired(r, crossed), BlockPort(FEED, PORT, true), BlockPort(SINK, PORT, false)))
            <==> !(Pass(r.u, r.a, r.b) && Pass(r.v, r.c, r.d))
  {
    hide Completed, Linked, Pass, Wired, RowOk;
    RowCompleted(r, crossed);
    RowLinked(r, crossed);
  }

  /** The connection between them is taken for a pass-through, backwards: a flow that no path has. */
  lemma CrossedExact(r: Row)
    requires RowOk(r)
    ensures Completed(Wired(r, true), FROM2, TO2) <==> exists x, y :: Pass(r.u, x, r.b) && Pass(r.v, r.c, y)
    ensures !Linked(Wired(r, true), BlockPort(FEED2, PORT, true), BlockPort(SINK2, PORT, false))
  {
    hide Completed, Linked, Pass, Wired, RowOk;
    RowCompleted(r, true);
    RowLinked(r, true);
  }

  /**
    A row is flattened right about every pair of its blocks, wherever it is fed, exactly if nothing passes
    at its joint.
   */
  lemma JointExact(u: Topology, b: string, v: Topology, c: string)
    requires RowOk(Row(u, PORT, b, v, c, PORT))
    ensures (forall a, d :: RowRight(Row(u, a, b, v, c, d))) <==> !exists x, y :: Pass(u, x, b) && Pass(v, c, y)
  {
    forall a, d
      ensures RowRight(Row(u, a, b, v, c, d)) <==> !exists x, y :: Pass(u, x, b) && Pass(v, c, y)
    {
      var r := Row(u, a, b, v, c, d);
      hide Completed, Linked, Pass, Wired;
      RowExact(r, true);
      CrossedExact(r);
    }
    hide RowRight, Pass;
    assert RowRight(Row(u, PORT, b, v, c, PORT)) <==> !exists x, y :: Pass(u, x, b) && Pass(v, c, y);
  }

  /** Flattening agrees with the paths on both pairs of blocks. */
  ghost predicate RowRight(r: Row) {
    var root := Wired(r, true);
    && (Completed(root, FROM, TO) <==> Linked(root, BlockPort(FEED, PORT, true), BlockPort(SINK, PORT, false)))
    && (Completed(root, FROM2, TO2) <==> Linked(root, BlockPort(FEED2, PORT, true), BlockPort(SINK2, PORT, false)))
  }
}
