/**
  Where flattening stops being exact: a box of pass-throughs is right in every context exactly when
  its pass-throughs tile, and two boxes in a row lose their connection.
 */
module FlattenLimits {
  import opened Flatten

  const FEED := "feed"
  const SINK := "sink"
  const CONTEXT := "context"
  const PORT := "0"

  /** A topology of pass-throughs alone. */
  predicate IsBox(u: Topology) {
    (forall i :: 0 <= i < |u.flows| ==> u.flows[i].src.obj.Self? && u.flows[i].dst.obj.Self?) &&
      u.uid !in {FEED, SINK, CONTEXT}
  }

  /** One block feeds input a of u, and output b of u feeds another. */
  function Around(u: Topology, a: string, b: string): Topology {
    Topology(CONTEXT, [Flow(Port(Block(FEED), PORT), Port(Sub(u), a)), Flow(Port(Sub(u), b), Port(Block(SINK), PORT))])
  }

  const FROM := FlatPort(true, FEED, PORT)
  const TO := FlatPort(true, SINK, PORT)

  lemma TwoTopologies(u: Topology, a: string, b: string, t: Topology)
    requires IsBox(u)
    ensures InTree(Around(u, a, b), t) <==> t == Around(u, a, b) || t == u
  {
    var root := Around(u, a, b);
    assert InTree(u, t) <==> t == u by {
      assert forall i, isSource :: 0 <= i < |u.flows| ==> !End(u.flows[i], isSource).obj.Sub?;
    }
    assert End(root.flows[0], true).obj.Block? && End(root.flows[1], false).obj.Block?;
    assert End(root.flows[0], false).obj == Sub(u) && End(root.flows[1], true).obj == Sub(u);
    if InTree(u, t) {
      assert InTree(End(root.flows[0], false).obj.top, t);
    }
  }

  lemma BoxResolves(u: Topology, name: string, isSource: bool, p: FlatPort)
    requires IsBox(u)
    ensures Resolves(u, name, isSource, p) <==> p == FlatPort(false, u.uid, p.name) && PassAt(u, isSource, p.name, name)
  {
    if p == FlatPort(false, u.uid, p.name) && PassAt(u, isSource, p.name, name) {
      var f := if isSource then Flow(Port(Self, p.name), Port(Self, name)) else Flow(Port(Self, name),
        Port(Self, p.name));
      var i :| 0 <= i < |u.flows| && u.flows[i] == f;
      assert End(u.flows[i], !isSource) == Port(Self, name) && EndResolves(u, End(u.flows[i], isSource), isSource, p);
    }
  }

  /** The squashed flows around a box. */
  lemma BoxFlat(u: Topology, a: string, b: string, p: FlatPort, q: FlatPort)
    requires IsBox(u)
    ensures Flat(Around(u, a, b), p, q) <==>
      || (p == FROM && q == FlatPort(false, u.uid, q.name) && Pass(u, a, q.name))
      || (q == TO && p == FlatPort(false, u.uid, p.name) && Pass(u, p.name, b))
      || (p == FlatPort(false, u.uid, p.name) && q == FlatPort(false, u.uid, q.name) && Pass(u, p.name, q.name))
  {
    var root := Around(u, a, b);
    TwoTopologies(u, a, b, root);
    TwoTopologies(u, a, b, u);
    BoxResolves(u, a, false, q);
    BoxResolves(u, b, true, p);
    assert EndResolves(root, root.flows[0].src, true, p) <==> p == FROM;
    assert EndResolves(root, root.flows[1].dst, false, q) <==> q == TO;
    assert EndResolves(root, root.flows[0].dst, false, q) <==> Resolves(u, a, false, q);
    assert EndResolves(root, root.flows[1].src, true, p) <==> Resolves(u, b, true, p);
    RootFlat(u, a, b, p, q);
    LocalBox(u, p, q);
    hide Resolves, InTree, LocalFlat, EndResolves;
    if Flat(root, p, q) {
      var t :| InTree(root, t) && LocalFlat(t, p, q);
      TwoTopologies(u, a, b, t);
    }
  }

  lemma RootFlat(u: Topology, a: string, b: string, p: FlatPort, q: FlatPort)
    ensures var root := Around(u, a, b); LocalFlat(root, p, q) <==>
      || (EndResolves(root, root.flows[0].src, true, p) && EndResolves(root, root.flows[0].dst, false, q))
      || (EndResolves(root, root.flows[1].src, true, p) && EndResolves(root, root.flows[1].dst, false, q))
  {
    hide EndResolves;
    var root := Around(u, a, b);
    assert Joins(root.flows[0]) && Joins(root.flows[1]);
  }

  lemma LocalBox(u: Topology, p: FlatPort, q: FlatPort)
    requires IsBox(u)
    ensures LocalFlat(u, p, q) <==>
      p == FlatPort(false, u.uid, p.name) && q == FlatPort(false, u.uid, q.name) && Pass(u, p.name, q.name)
  {
    if p == FlatPort(false, u.uid, p.name) && q == FlatPort(false, u.uid, q.name) && Pass(u, p.name, q.name) {
      var i :| 0 <= i < |u.flows| && u.flows[i] == Flow(Port(Self, p.name), Port(Self, q.name));
      assert Joins(u.flows[i]) && EndResolves(u, u.flows[i].src, true, p) && EndResolves(u, u.flows[i].dst, false, q);
    }
  }

  /** a and b are joined by three pass-throughs, the middle one backwards. */
  predicate Zigzag(u: Topology, a: string, b: string, c: string, d: string) {
    Pass(u, a, d) && Pass(u, c, d) && Pass(u, c, b)
  }

  lemma BoxCompleted(u: Topology, a: string, b: string)
    requires IsBox(u)
    ensures Completed(Around(u, a, b), FROM, TO) <==> exists c, d :: Zigzag(u, a, b, c, d)
  {
    var root := Around(u, a, b);
    forall p, q ensures Flat(root, p, q) <==>
      || (p == FROM && q == FlatPort(false, u.uid, q.name) && Pass(u, a, q.name))
      || (q == TO && p == FlatPort(false, u.uid, p.name) && Pass(u, p.name, b))
      || (p == FlatPort(false, u.uid, p.name) && q == FlatPort(false, u.uid, q.name) && Pass(u, p.name, q.name))
    {
      BoxFlat(u, a, b, p, q);
    }
    hide Flat, Pass;
    forall c, d | Zigzag(u, a, b, c, d) ensures Completed(root, FROM, TO) {
      var p, q := FlatPort(false, u.uid, c), FlatPort(false, u.uid, d);
      assert Bridged(root, FROM, TO, p, q, p, q);
    }
    forall p, q, x, y | Bridged(root, FROM, TO, p, q, x, y) ensures Zigzag(u, a, b, p.name, q.name) {
    }
  }

  /** Where the stream of the feeding block can be. */
  predicate Fed(u: Topology, a: string, b: string, v: Vertex) {
    || v == BlockPort(FEED, PORT, true)
    || v == TopPort(u.uid, a, false)
    || (v.TopPort? && v.uid == u.uid && v.isSource && Pass(u, a, v.name))
    || (v == BlockPort(SINK, PORT, false) && Pass(u, a, b))
  }

  lemma FedStep(u: Topology, a: string, b: string, v: Vertex, w: Vertex)
    requires IsBox(u) && Fed(u, a, b, v) && Edge(Around(u, a, b), v, w)
    ensures Fed(u, a, b, w)
  {
    var root := Around(u, a, b);
    var t, f :| InTree(root, t) && f in t.flows && v == EndVertex(t, f.src, true) && w == EndVertex(t, f.dst, false);
    TwoTopologies(u, a, b, t);
    if t == u {
      assert f == Flow(Port(Self, f.src.name), Port(Self, f.dst.name));
    }
  }

  lemma {:induction false} FedAll(u: Topology, a: string, b: string, p: seq<Vertex>, n: nat)
    requires IsBox(u) && IsPath(Around(u, a, b), p) && p[0] == BlockPort(FEED, PORT, true) && n < |p|
    ensures Fed(u, a, b, p[n])
  {
    hide Fed, Edge, IsBox;
    if n > 0 {
      assert Edge(Around(u, a, b), p[n - 1], p[n]);
      FedAll(u, a, b, p, n - 1);
      hide IsPath;
      FedStep(u, a, b, p[n - 1], p[n]);
    } else {
      assert Fed(u, a, b, p[0]) by { FedStart(u, a, b); }
    }
  }

  lemma FedStart(u: Topology, a: string, b: string)
    ensures Fed(u, a, b, BlockPort(FEED, PORT, true))
  {
  }

  lemma BoxLinked(u: Topology, a: string, b: string)
    requires IsBox(u)
    ensures Linked(Around(u, a, b), BlockPort(FEED, PORT, true), BlockPort(SINK, PORT, false)) <==> Pass(u, a, b)
  {
    var root := Around(u, a, b);
    var x, y := BlockPort(FEED, PORT, true), BlockPort(SINK, PORT, false);
    if Linked(root, x, y) {
      var p :| IsPath(root, p) && p[0] == x && p[|p| - 1] == y;
      FedAll(u, a, b, p, |p| - 1);
    }
    if Pass(u, a, b) {
      TwoTopologies(u, a, b, root);
      TwoTopologies(u, a, b, u);
      var i, o := TopPort(u.uid, a, false), TopPort(u.uid, b, true);
      assert root.flows[0] in root.flows && root.flows[1] in root.flows;
      assert Edge(root, x, i) by { assert x == EndVertex(root, root.flows[0].src, true) &&
        i == EndVertex(root, root.flows[0].dst, false); }
      assert Edge(root, o, y) by { assert o == EndVertex(root, root.flows[1].src, true) &&
        y == EndVertex(root, root.flows[1].dst, false); }
      PassEdge(root, u, a, b);
      hide Edge, Linked, Around;
      OneEdge(root, x, i);
      Extend(root, x, i, o);
      Extend(root, x, o, y);
    }
  }

  /** Does flattening agree with the paths on whether input a of the box feeds output b? */
  ghost predicate RightAbout(u: Topology, a: string, b: string) {
    Completed(Around(u, a, b), FROM, TO) <==>
      Linked(Around(u, a, b), BlockPort(FEED, PORT, true), BlockPort(SINK, PORT, false))
  }

  lemma RightUnlessZigzag(u: Topology, a: string, b: string)
    requires IsBox(u)
    ensures RightAbout(u, a, b) <==> ((exists c, d :: Zigzag(u, a, b, c, d)) <==> Pass(u, a, b))
  {
    hide Completed, Linked, Zigzag, Pass, Around;
    BoxCompleted(u, a, b);
    BoxLinked(u, a, b);
  }

  lemma TilesIsRight(u: Topology, a: string, b: string)
    requires IsBox(u) && PassesTile(u)
    ensures RightAbout(u, a, b)
  {
    hide RightAbout, Pass;
    RightUnlessZigzag(u, a, b);
    if Pass(u, a, b) {
      assert Zigzag(u, a, b, a, b);
    }
    forall c, d | Zigzag(u, a, b, c, d) ensures Pass(u, a, b) {
      TilesThrough(u, a, d, c, b);
    }
  }

  /** Flattening is right about every pair of ports of a box exactly when the box's pass-throughs tile. */
  lemma BoxExact(u: Topology)
    requires IsBox(u)
    ensures PassesTile(u) <==> forall a, b :: RightAbout(u, a, b)
  {
    hide RightAbout, Pass, IsBox;
    if PassesTile(u) {
      forall a, b ensures RightAbout(u, a, b) {
        TilesIsRight(u, a, b);
      }
    } else {
      var a, d, c, b :| Pass(u, a, d) && Pass(u, c, d) && Pass(u, c, b) && !Pass(u, a, b);
      assert Zigzag(u, a, b, c, d);
      RightUnlessZigzag(u, a, b);
    }
  }

  // ---------- two boxes in a row ----------

  const BOX1 := Topology("box1", [Flow(Port(Self, PORT), Port(Self, PORT))])
  const BOX2 := Topology("box2", [Flow(Port(Self, PORT), Port(Self, PORT))])
  const CHAIN := Topology(CONTEXT,
    [Flow(Port(Block(FEED), PORT), Port(Sub(BOX1), PORT)), Flow(Port(Sub(BOX1), PORT), Port(Sub(BOX2), PORT)),
    Flow(Port(Sub(BOX2), PORT), Port(Block(SINK), PORT))])
  const IN1 := FlatPort(false, "box1", PORT)
  const IN2 := FlatPort(false, "box2", PORT)

  lemma ChainTree(t: Topology)
    ensures InTree(CHAIN, t) <==> t in {CHAIN, BOX1, BOX2}
  {
    BoxTree(BOX1, t);
    BoxTree(BOX2, t);
    hide IsBox;
    if t == BOX1 { assert InTree(End(CHAIN.flows[0], false).obj.top, t); }
    if t == BOX2 { assert InTree(End(CHAIN.flows[2], true).obj.top, t); }
    if InTree(CHAIN, t) && t != CHAIN {
      var i, isSource :| 0 <= i < |CHAIN.flows| && End(CHAIN.flows[i], isSource).obj.Sub? &&
        InTree(End(CHAIN.flows[i], isSource).obj.top, t);
      assert i in {0, 1, 2};
    }
  }

  lemma BoxTree(u: Topology, t: Topology)
    requires u in {BOX1, BOX2}
    ensures InTree(u, t) <==> t == u
  {
    assert forall i, isSource :: 0 <= i < |u.flows| ==> !End(u.flows[i], isSource).obj.Sub?;
  }

  lemma ChainFlat(p: FlatPort, q: FlatPort)
    requires Flat(CHAIN, p, q)
    ensures FlatFlow(p, q) in {FlatFlow(FROM, IN1), FlatFlow(IN1, IN2), FlatFlow(IN2, TO), FlatFlow(IN1, IN1),
      FlatFlow(IN2, IN2)}
  {
    var t :| InTree(CHAIN, t) && LocalFlat(t, p, q);
    ChainTree(t);
    var i :| 0 <= i < |t.flows| && Joins(t.flows[i]) && EndResolves(t, t.flows[i].src, true, p) &&
      EndResolves(t, t.flows[i].dst, false, q);
    assert IsBox(BOX1) && IsBox(BOX2);
    BoxResolves(BOX1, PORT, true, p);
    BoxResolves(BOX1, PORT, false, q);
    BoxResolves(BOX2, PORT, true, p);
    BoxResolves(BOX2, PORT, false, q);
    hide Resolves, InTree;
    assert t == CHAIN ==> i in {0, 1, 2};
  }

  /** Two pass-throughs in a row: the path is there, the flow is not. */
  lemma ChainIsLost()
    ensures Linked(CHAIN, BlockPort(FEED, PORT, true), BlockPort(SINK, PORT, false))
    ensures !Completed(CHAIN, FROM, TO)
  {
    forall p, q | Flat(CHAIN, p, q)
      ensures FlatFlow(p, q) in {FlatFlow(FROM, IN1), FlatFlow(IN1, IN2), FlatFlow(IN2, TO), FlatFlow(IN1, IN1),
        FlatFlow(IN2, IN2)}
    {
      ChainFlat(p, q);
    }
    hide Flat;
    ChainLinked();
  }

  lemma ChainLinked()
    ensures Linked(CHAIN, BlockPort(FEED, PORT, true), BlockPort(SINK, PORT, false))
  {
    ChainTree(CHAIN);
    ChainTree(BOX1);
    ChainTree(BOX2);
    hide InTree, Edge, Linked;
    var x, in1, out1 := BlockPort(FEED, PORT, true), TopPort("box1", PORT, false), TopPort("box1", PORT, true);
    var in2, out2, y := TopPort("box2", PORT, false), TopPort("box2", PORT, true), BlockPort(SINK, PORT, false);
    FlowEdge(CHAIN, CHAIN, 0);
    OneEdge(CHAIN, x, in1);
    FlowEdge(CHAIN, BOX1, 0);
    Extend(CHAIN, x, in1, out1);
    FlowEdge(CHAIN, CHAIN, 1);
    Extend(CHAIN, x, out1, in2);
    FlowEdge(CHAIN, BOX2, 0);
    Extend(CHAIN, x, in2, out2);
    FlowEdge(CHAIN, CHAIN, 2);
    Extend(CHAIN, x, out2, y);
  }
}
