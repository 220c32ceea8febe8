/**
  The loops of lib/Framework/TopologySquashFlows.cpp and completePassThroughFlows, proved against the
  relations of module Flatten. The order in which futures deliver is left open where the source
  iterates over a map.
 */
module SquashFlows {
  import opened Flatten
  import opened Values

  ghost predicate HitBy(t: Topology, f: Flow, name: string, isSource: bool, p: FlatPort) {
    End(f, !isSource) == Port(Self, name) && EndResolves(t, End(f, isSource), isSource, p)
  }

  ghost predicate HitUpTo(t: Topology, n: nat, name: string, isSource: bool, p: FlatPort)
    requires n <= |t.flows|
  {
    exists j :: 0 <= j < n && HitBy(t, t.flows[j], name, isSource, p)
  }

  lemma AllHits(t: Topology, name: string, isSource: bool, p: FlatPort)
    ensures HitUpTo(t, |t.flows|, name, isSource, p) <==> Resolves(t, name, isSource, p)
  {
    hide EndResolves;
    if HitUpTo(t, |t.flows|, name, isSource, p) {
      var j :| 0 <= j < |t.flows| && HitBy(t, t.flows[j], name, isSource, p);
      assert End(t.flows[j], !isSource) == Port(Self, name) && EndResolves(t, End(t.flows[j], isSource), isSource, p);
    }
    if Resolves(t, name, isSource, p) {
      var j :| 0 <= j < |t.flows| && End(t.flows[j], !isSource) == Port(Self, name) &&
        EndResolves(t, End(t.flows[j], isSource), isSource, p);
      assert HitBy(t, t.flows[j], name, isSource, p);
    }
  }

  /** The blocks behind a topology's port, and the far ports of its pass-throughs. */
  method ResolvePortsFromTopology(t: Topology, portName: string, isSource: bool) returns (ports: seq<FlatPort>)
    ensures forall p :: p in ports <==> Resolves(t, portName, isSource, p)
    decreases t
  {
    ports := [];
    var i := 0;
    while i < |t.flows|
      invariant 0 <= i <= |t.flows|
      invariant forall p :: p in ports <==> HitUpTo(t, i, portName, isSource, p)
    {
      var flow := t.flows[i];
      var more := [];
      if End(flow, !isSource) == Port(Self, portName) {
        more := ResolvePorts(t, End(flow, isSource), isSource);
      }
      assert forall p :: p in more <==> HitBy(t, flow, portName, isSource, p);
      ports := ports + more;
      i := i + 1;
    }
    forall p ensures p in ports <==> Resolves(t, portName, isSource, p) {
      AllHits(t, portName, isSource, p);
    }
  }

  method ResolvePorts(t: Topology, port: Port, isSource: bool) returns (ports: seq<FlatPort>)
    ensures forall p :: p in ports <==> EndResolves(t, port, isSource, p)
    decreases port
  {
    match port.obj
    case Self => ports := [FlatPort(false, t.uid, port.name)];
    case Block(uid) => ports := [FlatPort(true, uid, port.name)];
    case Sub(s) => ports := ResolvePortsFromTopology(s, port.name, isSource);
  }

  /** All combinations of sources and destinations. */
  method CombinePorts(srcs: seq<FlatPort>, dsts: seq<FlatPort>) returns (flows: seq<FlatFlow>)
    ensures forall f :: f in flows <==> f.src in srcs && f.dst in dsts
  {
    flows := Combine(srcs, dsts, (src, dst) => FlatFlow(src, dst));
    forall f: FlatFlow | f.src in srcs && f.dst in dsts ensures f in flows {
      var i :| 0 <= i < |srcs| && srcs[i] == f.src;
      var j :| 0 <= j < |dsts| && dsts[j] == f.dst;
      assert f == FlatFlow(srcs[i], dsts[j]);
    }
  }

  ghost predicate JoinedBy(t: Topology, f: Flow, passes: bool, p: FlatPort, q: FlatPort) {
    f.src.obj.Self? == passes && f.dst.obj.Self? == passes && EndResolves(t, f.src, true, p) &&
      EndResolves(t, f.dst, false, q)
  }

  ghost predicate JoinedUpTo(t: Topology, n: nat, passes: bool, p: FlatPort, q: FlatPort)
    requires n <= |t.flows|
  {
    exists j :: 0 <= j < n && JoinedBy(t, t.flows[j], passes, p, q)
  }

  /** The flows between two objects, when not passes; the pass-throughs otherwise. */
  method LocalFlows(t: Topology, passes: bool) returns (flat: seq<FlatFlow>)
    ensures forall f :: f in flat <==> JoinedUpTo(t, |t.flows|, passes, f.src, f.dst)
  {
    flat := [];
    var i := 0;
    while i < |t.flows|
      invariant 0 <= i <= |t.flows|
      invariant forall f :: f in flat <==> JoinedUpTo(t, i, passes, f.src, f.dst)
    {
      var flow := t.flows[i];
      var more := [];
      if flow.src.obj.Self? == passes && flow.dst.obj.Self? == passes {
        var srcs := ResolvePorts(t, flow.src, true);
        var dsts := ResolvePorts(t, flow.dst, false);
        more := CombinePorts(srcs, dsts);
      }
      assert forall f :: f in more <==> JoinedBy(t, flow, passes, f.src, f.dst);
      flat := flat + more;
      i := i + 1;
    }
  }

  /** Does one of the first n flows name this object? */
  predicate Names(t: Topology, n: nat, obj: Object)
    requires n <= |t.flows|
  {
    !obj.Self? && exists j :: 0 <= j < n && (t.flows[j].src.obj == obj || t.flows[j].dst.obj == obj)
  }

  function UidOf(obj: Object): Uid
    requires !obj.Self?
  {
    if obj.Block? then obj.uid else obj.top.uid
  }

  lemma NamedEnd(t: Topology, obj: Object) returns (j: nat, isSource: bool)
    requires Names(t, |t.flows|, obj)
    ensures j < |t.flows| && End(t.flows[j], isSource).obj == obj
    ensures obj.Sub? ==> InTree(t, obj.top)
  {
    j :| 0 <= j < |t.flows| && (t.flows[j].src.obj == obj || t.flows[j].dst.obj == obj);
    isSource := t.flows[j].src.obj == obj;
    if obj.Sub? {
      Child(t, j, isSource);
    }
  }

  lemma UidNamesOne(t: Topology, a: Object, b: Object)
    requires Distinct(t) && Names(t, |t.flows|, a) && Names(t, |t.flows|, b) && UidOf(a) == UidOf(b)
    ensures a == b
  {
    var i, x := NamedEnd(t, a);
    var j, y := NamedEnd(t, b);
    Root(t);
    hide InTree;
  }

  lemma Root(t: Topology)
    ensures InTree(t, t)
  {
  }

  /** The objects that the flows name, by uid. */
  method Objects(t: Topology) returns (objs: map<Uid, Object>)
    ensures forall k :: k in objs ==> Names(t, |t.flows|, objs[k]) && UidOf(objs[k]) == k
    ensures forall obj :: Names(t, |t.flows|, obj) ==> UidOf(obj) in objs
  {
    objs := map[];
    var i := 0;
    while i < |t.flows|
      invariant 0 <= i <= |t.flows|
      invariant forall k :: k in objs ==> Names(t, i, objs[k]) && UidOf(objs[k]) == k
      invariant forall obj :: Names(t, i, obj) ==> UidOf(obj) in objs
    {
      var flow := t.flows[i];
      if !flow.src.obj.Self? { objs := objs[UidOf(flow.src.obj) := flow.src.obj]; }
      if !flow.dst.obj.Self? { objs := objs[UidOf(flow.dst.obj) := flow.dst.obj]; }
      i := i + 1;
    }
  }

  /** The flows of a hierarchy are those of its root and those below the objects that the root names. */
  lemma FlatBelow(t: Topology, p: FlatPort, q: FlatPort)
    ensures Flat(t, p, q) <==> JoinedUpTo(t, |t.flows|, false, p, q) || JoinedUpTo(t, |t.flows|, true, p, q)
                               || exists obj: Object :: obj.Sub? && Names(t, |t.flows|, obj) && Flat(obj.top, p, q)
  {
    hide EndResolves;
    if Flat(t, p, q) {
      var s :| InTree(t, s) && LocalFlat(s, p, q);
      if s == t {
        var i :| 0 <= i < |t.flows| && Joins(t.flows[i]) && EndResolves(t, t.flows[i].src, true, p) &&
          EndResolves(t, t.flows[i].dst, false, q);
        assert JoinedBy(t, t.flows[i], t.flows[i].src.obj.Self?, p, q);
      } else {
        var i, isSource :| 0 <= i < |t.flows| && End(t.flows[i], isSource).obj.Sub? &&
          InTree(End(t.flows[i], isSource).obj.top, s);
        var obj := End(t.flows[i], isSource).obj;
        assert Names(t, |t.flows|, obj) && Flat(obj.top, p, q);
      }
    }
    forall passes | JoinedUpTo(t, |t.flows|, passes, p, q) ensures Flat(t, p, q) {
      var j :| 0 <= j < |t.flows| && JoinedBy(t, t.flows[j], passes, p, q);
      FlatFrom(t, t, t.flows[j], p, q);
    }
    forall obj: Object | obj.Sub? && Names(t, |t.flows|, obj) && Flat(obj.top, p, q) ensures Flat(t, p, q) {
      FlatFromBelow(t, obj, p, q);
    }
  }

  lemma FlatFromBelow(t: Topology, obj: Object, p: FlatPort, q: FlatPort)
    requires obj.Sub? && Names(t, |t.flows|, obj) && Flat(obj.top, p, q)
    ensures Flat(t, p, q)
  {
    hide InTree, LocalFlat;
    var s :| InTree(obj.top, s) && LocalFlat(s, p, q);
    var j, isSource := NamedEnd(t, obj);
    TreeTransitive(t, obj.top, s);
  }

  lemma DistinctBelow(t: Topology, s: Topology)
    requires Distinct(t) && InTree(t, s)
    ensures Distinct(s)
  {
    hide InTree;
    forall u | InTree(s, u) ensures InTree(t, u) {
      TreeTransitive(t, s, u);
    }
  }

  ghost predicate FlatBy(objs: map<Uid, Object>, keys: set<Uid>, f: FlatFlow) {
    exists k :: k in keys && k in objs && objs[k].Sub? && Flat(objs[k].top, f.src, f.dst)
  }

  /** squashFlows: the flows of t and of everything below it, with the pass-throughs kept. */
  method Squash(t: Topology) returns (flat: seq<FlatFlow>)
    requires Distinct(t)
    ensures forall f :: f in flat <==> Flat(t, f.src, f.dst)
    decreases t
  {
    hide Distinct, InTree, Flat;
    var cross := LocalFlows(t, false);
    var objs := Objects(t);
    flat := [];
    ghost var done := {};
    var keys := objs.Keys;
    while keys != {}
      invariant keys <= objs.Keys && done == objs.Keys - keys
      invariant forall f :: f in flat <==> FlatBy(objs, done, f)
      decreases |keys|
    {
      var k :| k in keys;
      var more := [];
      if objs[k].Sub? {
        ghost var j, isSource := NamedEnd(t, objs[k]);
        DistinctBelow(t, objs[k].top);
        more := Squash(objs[k].top);
      }
      assert forall f :: f in more <==> FlatBy(objs, {k}, f);
      flat := flat + more;
      keys := keys - {k};
      done := done + {k};
    }
    var passes := LocalFlows(t, true);
    ghost var below := flat;
    flat := cross + flat + passes;
    forall f ensures f in flat <==> Flat(t, f.src, f.dst) {
      FlatBelow(t, f.src, f.dst);
      ByUidOrByName(t, objs, f);
    }
  }

  lemma ByUidOrByName(t: Topology, objs: map<Uid, Object>, f: FlatFlow)
    requires Distinct(t)
    requires forall k :: k in objs ==> Names(t, |t.flows|, objs[k]) && UidOf(objs[k]) == k
    requires forall obj :: Names(t, |t.flows|, obj) ==> UidOf(obj) in objs
    ensures FlatBy(objs, objs.Keys, f) <==>
      exists obj: Object :: obj.Sub? && Names(t, |t.flows|, obj) && Flat(obj.top, f.src, f.dst)
  {
    hide Distinct, Flat;
    forall obj: Object | obj.Sub? && Names(t, |t.flows|, obj) && Flat(obj.top, f.src, f.dst)
      ensures FlatBy(objs, objs.Keys, f) {
      UidNamesOne(t, obj, objs[UidOf(obj)]);
    }
  }

  /** A completed flow, made of a pass-through, a flow out of its input and a flow into its output. */
  predicate Completes(flows: seq<FlatFlow>, pass: FlatFlow, tail: FlatFlow, head: FlatFlow, f: FlatFlow) {
    && pass in flows && tail in flows && head in flows
    && !pass.src.block && !pass.dst.block && tail.dst.block && head.src.block
    && SamePort(pass.src, tail.src) && SamePort(pass.dst, head.dst)
    && f == FlatFlow(head.src, tail.dst)
  }

  ghost predicate CompletedIn(flows: seq<FlatFlow>, f: FlatFlow) {
    (f in flows && f.src.block && f.dst.block) || exists pass, tail, head :: Completes(flows, pass, tail, head, f)
  }

  /** The innermost loop: the flows that one pass-through and one of its tails complete. */
  method CompleteTail(flows: seq<FlatFlow>, pass: FlatFlow, tail: FlatFlow) returns (out: seq<FlatFlow>)
    requires pass in flows && !pass.src.block && !pass.dst.block && tail in flows && tail.dst.block
    ensures forall f :: f in out <==> exists head :: Completes(flows, pass, tail, head, f)
  {
    out := [];
    var i := 0;
    while i < |flows|
      invariant 0 <= i <= |flows|
      invariant forall f :: f in out <==> exists head :: head in flows[..i] && Completes(flows, pass, tail, head, f)
    {
      ghost var before := out;
      var head := flows[i];
      assert flows[..i + 1] == flows[..i] + [head];
      if head.src.block && SamePort(pass.src, tail.src) && SamePort(pass.dst, head.dst) {
        assert Completes(flows, pass, tail, head, FlatFlow(head.src, tail.dst));
        out := out + [FlatFlow(head.src, tail.dst)];
      }
      i := i + 1;
    }
  }

  method CompletePass(flows: seq<FlatFlow>, pass: FlatFlow) returns (out: seq<FlatFlow>)
    requires pass in flows && !pass.src.block && !pass.dst.block
    ensures forall f :: f in out <==> exists tail, head :: Completes(flows, pass, tail, head, f)
  {
    out := [];
    var i := 0;
    while i < |flows|
      invariant 0 <= i <= |flows|
      invariant forall f :: f in out <==>
        exists tail, head :: tail in flows[..i] && Completes(flows, pass, tail, head, f)
    {
      var tail := flows[i];
      assert flows[..i + 1] == flows[..i] + [tail];
      var more := [];
      if tail.dst.block {
        more := CompleteTail(flows, pass, tail);
      }
      hide Completes;
      out := out + more;
      i := i + 1;
    }
  }

  method CompletePassThroughFlows(flows: seq<FlatFlow>) returns (out: seq<FlatFlow>)
    ensures forall f :: f in out <==> CompletedIn(flows, f)
  {
    out := [];
    var i := 0;
    while i < |flows|
      invariant 0 <= i <= |flows|
      invariant forall f :: f in out <==>
        exists pass, tail, head :: pass in flows[..i] && Completes(flows, pass, tail, head, f)
    {
      var pass := flows[i];
      assert flows[..i + 1] == flows[..i] + [pass];
      var more := [];
      if !pass.src.block && !pass.dst.block {
        more := CompletePass(flows, pass);
      }
      out := out + more;
      i := i + 1;
    }
    ghost var completed := out;
    i := 0;
    while i < |flows|
      invariant 0 <= i <= |flows|
      invariant forall f :: f in out <==> f in completed || (f in flows[..i] && f.src.block && f.dst.block)
    {
      if flows[i].src.block && flows[i].dst.block {
        out := out + [flows[i]];
      }
      i := i + 1;
    }
  }

  /** Completing squashed flows is the relation of module Flatten. */
  lemma CompletedSquash(t: Topology, flat: seq<FlatFlow>, x: FlatPort, y: FlatPort)
    requires forall f :: f in flat <==> Flat(t, f.src, f.dst)
    ensures CompletedIn(flat, FlatFlow(x, y)) <==> Completed(t, x, y)
  {
    hide Flat;
    forall pass, tail, head | Completes(flat, pass, tail, head, FlatFlow(x, y)) ensures Completed(t, x, y) {
      assert Bridged(t, x, y, pass.src, pass.dst, tail.src, head.dst);
    }
    forall p, q, u, v | x.block && y.block && Bridged(t, x, y, p, q, u, v) ensures CompletedIn(flat, FlatFlow(x, y)) {
      assert FlatFlow(p, q) in flat && FlatFlow(u, y) in flat && FlatFlow(x, v) in flat;
      assert Completes(flat, FlatFlow(p, q), FlatFlow(u, y), FlatFlow(x, v), FlatFlow(x, y));
    }
    assert FlatFlow(x, y) in flat <==> Flat(t, x, y);
  }

  /** The first two passes of commit: exactly the pairs of block ports that a path links. */
  method FlattenFlows(t: Topology) returns (flows: seq<FlatFlow>)
    requires Distinct(t)
    ensures forall f :: f in flows ==> f.src.block && f.dst.block
    ensures NoChains(t) && AllPassesTile(t) ==>
      forall x: FlatPort, y: FlatPort :: x.block && y.block ==>
        (FlatFlow(x, y) in flows <==> Linked(t, BlockPort(x.uid, x.name, true), BlockPort(y.uid, y.name, false)))
  {
    hide Distinct, NoChains, AllPassesTile, Linked, Flat, Completed;
    var squashed := Squash(t);
    flows := CompletePassThroughFlows(squashed);
    if NoChains(t) && AllPassesTile(t) {
      forall x: FlatPort, y: FlatPort | x.block && y.block
        ensures FlatFlow(x, y) in flows <==> Linked(t, BlockPort(x.uid, x.name, true), BlockPort(y.uid, y.name, false))
      {
        CompletedSquash(t, squashed, x, y);
        FlattenPreservesLinks(t, x, y);
      }
    }
  }
}
