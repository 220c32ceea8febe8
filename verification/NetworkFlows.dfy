/**
  Network crossings (lib/Framework/TopologyNetworkFlows.cpp, the cache pruning in
  lib/Framework/TopologyCommit.cpp and envTagPort in lib/Framework/TopologyImpl.hpp).
  What the environment of an object answers is the map where, from uid to process.
 */
module NetworkFlows {
  import opened Values

  type Uid = nat
  type Pid = string
  type Node = string
  datatype Port = Port(uid: Uid, name: string)
  datatype Flow = Flow(src: Port, dst: Port)
  datatype Kind = NetworkSink | NetworkSource
  /** A cache entry: the block on the far side, and the one on the near side. */
  datatype NetPair = NetPair(source: Uid, sink: Uid)

  const PORT := "0"

  // ---------- keys ----------

  /** envTagPort */
  function Tag(port: Port, pid: Pid): Port {
    Port(port.uid, port.name + "->" + pid)
  }

  predicate NoArrow(pid: Pid) {
    '>' !in pid
  }

  /** A tagged port names one port and one process. */
  lemma TagInjective(p: Port, a: Pid, q: Port, b: Pid)
    requires NoArrow(a) && NoArrow(b) && Tag(p, a) == Tag(q, b)
    ensures p == q && a == b
  {
    var s, t := p.name + "->" + a, q.name + "->" + b;
    assert s == t && s[|p.name| + 1] == '>' && t[|q.name| + 1] == '>';
    assert |a| == |b|;
    assert p.name == s[..|p.name|] == q.name;
    assert a == s[|p.name| + 2..] == b;
  }

  /** a is b behind another arrow. */
  ghost predicate EndsInTag(a: Pid, b: Pid) {
    exists s: string :: a == s + "->" + b
  }

  lemma SplitTag(p: Port, a: Pid, q: Port, b: Pid)
    requires Tag(p, a) == Tag(q, b) && |a| > |b|
    ensures EndsInTag(a, b)
  {
    var t, u := p.name + "->" + a, q.name + "->" + b;
    assert t == u;
    var k := |a| - |b|;
    assert u[|q.name|] == '-' && u[|q.name| + 1] == '>';
    assert t[|p.name| + 1] == '>';
    assert k != 1;
    assert a[k - 2] == t[|q.name|] && a[k - 1] == t[|q.name| + 1];
    assert a[k..] == t[|p.name| + 2 + k..] == u[|q.name| + 2..] == b;
    assert a == a[..k - 2] + "->" + b;
  }

  lemma TagsEndInPid(p: Port, a: Pid, q: Port, b: Pid)
    requires Tag(p, a) == Tag(q, b)
    ensures |a| == |b| ==> a == b
  {
    var t, u := p.name + "->" + a, q.name + "->" + b;
    assert t[|t| - |a|..] == a && u[|u| - |b|..] == b;
  }

  /** Two process ids can be told apart in every tag exactly if neither is the other behind an arrow. */
  lemma TagExact(a: Pid, b: Pid)
    requires a != b
    ensures (forall p: Port, q: Port :: Tag(p, a) != Tag(q, b)) <==> !EndsInTag(a, b) && !EndsInTag(b, a)
  {
    if EndsInTag(a, b) {
      TagsCollide(a, b);
    }
    if EndsInTag(b, a) {
      TagsCollide(b, a);
    }
    forall p: Port, q: Port | Tag(p, a) == Tag(q, b) ensures EndsInTag(a, b) || EndsInTag(b, a) {
      TagsEndInPid(p, a, q, b);
      if |a| > |b| {
        SplitTag(p, a, q, b);
      } else if |b| > |a| {
        SplitTag(q, b, p, a);
      }
    }
  }

  lemma TagsCollide(a: Pid, b: Pid)
    requires EndsInTag(a, b)
    ensures exists p: Port, q: Port :: Tag(p, a) == Tag(q, b)
    ensures exists p: Port, q: Port :: Tag(p, b) == Tag(q, a)
  {
    var s: string :| a == s + "->" + b;
    var p, q := Port(0, PORT), Port(0, PORT + "->" + s);
    assert PORT + "->" + (s + "->" + b) == (PORT + "->" + s) + "->" + b;
    assert Tag(p, a) == Tag(q, b);
  }

  // ---------- the meaning of the output ----------

  predicate Located(where: map<Uid, Pid>, flows: seq<Flow>) {
    forall f :: f in flows ==> f.src.uid in where && f.dst.uid in where && NoArrow(where[f.dst.uid])
  }

  predicate Crosses(where: map<Uid, Pid>, f: Flow) {
    f.src.uid in where && f.dst.uid in where && where[f.src.uid] != where[f.dst.uid]
  }

  function Key(where: map<Uid, Pid>, f: Flow): Port
    requires f.dst.uid in where
  {
    Tag(f.src, where[f.dst.uid])
  }

  /** Two flows share a key exactly if they come from one port and go to one process. */
  lemma KeyExact(where: map<Uid, Pid>, f: Flow, g: Flow)
    requires f.dst.uid in where && g.dst.uid in where && NoArrow(where[f.dst.uid]) && NoArrow(where[g.dst.uid])
    ensures Key(where, f) == Key(where, g) <==> f.src == g.src && where[f.dst.uid] == where[g.dst.uid]
  {
    if Key(where, f) == Key(where, g) {
      TagInjective(f.src, where[f.dst.uid], g.src, where[g.dst.uid]);
    }
  }

  function ToSink(f: Flow, pair: NetPair): Flow {
    Flow(f.src, Port(pair.sink, PORT))
  }

  function FromSource(f: Flow, pair: NetPair): Flow {
    Flow(Port(pair.source, PORT), f.dst)
  }

  /** f is what becomes of g. */
  predicate Becomes(where: map<Uid, Pid>, cache: map<Port, NetPair>, g: Flow, f: Flow) {
    if !Crosses(where, g) then f == g
    else Key(where, g) in cache && f in {ToSink(g, cache[Key(where, g)]), FromSource(g, cache[Key(where, g)])}
  }

  ghost predicate IsNetworked(where: map<Uid, Pid>, cache: map<Port, NetPair>, flows: seq<Flow>, out: seq<Flow>) {
    && (forall f :: f in out <==> exists g :: g in flows && Becomes(where, cache, g, f))
    && (forall g :: g in flows && Crosses(where, g) ==> Key(where, g) in cache)
  }

  /** Every cached pair bridges from the port's process to the process in its key. */
  ghost predicate Placed(where: map<Uid, Pid>, cache: map<Port, NetPair>) {
    forall p: Port, pid {:trigger Tag(p, pid)} :: NoArrow(pid) && Tag(p, pid) in cache && p.uid in where ==>
      var pair := cache[Tag(p, pid)];
      pair.sink in where && pair.source in where && where[pair.sink] == where[p.uid] && where[pair.source] == pid
  }

  predicate IsNet(cache: map<Port, NetPair>, uid: Uid) {
    exists k :: k in cache && uid in {cache[k].sink, cache[k].source}
  }

  predicate SameProcess(where: map<Uid, Pid>, f: Flow) {
    f.src.uid in where && f.dst.uid in where && where[f.src.uid] == where[f.dst.uid]
  }

  /** The flow goes into a sink beside its source, and out of the source block beside its destination. */
  ghost predicate Bridged(where: map<Uid, Pid>, cache: map<Port, NetPair>, out: seq<Flow>, f: Flow)
    requires f.src.uid in where && f.dst.uid in where
  {
    exists k ::
      && k in cache && cache[k].sink in where && cache[k].source in where
      && where[cache[k].sink] == where[f.src.uid] && where[cache[k].source] == where[f.dst.uid]
      && Flow(f.src, Port(cache[k].sink, PORT)) in out && Flow(Port(cache[k].source, PORT), f.dst) in out
  }

  /** Flows within a process are kept and the others bridged, and nothing else comes out. */
  ghost predicate BridgedWhereNeeded(where: map<Uid, Pid>, cache: map<Port, NetPair>, flows: seq<Flow>,
      out: seq<Flow>)
    requires Located(where, flows)
  {
    && (forall f :: f in flows ==> if SameProcess(where, f) then f in out else Bridged(where, cache, out, f))
    && (forall f :: f in out ==> (f in flows && SameProcess(where, f)) || LegOf(where, cache, flows, f))
  }

  /** f leads into a sink, or out of a source block, for some flow between processes. */
  ghost predicate LegOf(where: map<Uid, Pid>, cache: map<Port, NetPair>, flows: seq<Flow>, f: Flow) {
    exists g, k ::
      && g in flows && !SameProcess(where, g) && k in cache
      && f in {Flow(g.src, Port(cache[k].sink, PORT)), Flow(Port(cache[k].source, PORT), g.dst)}
  }

  lemma BridgesWhereNeeded(where: map<Uid, Pid>, cache: map<Port, NetPair>, flows: seq<Flow>, out: seq<Flow>)
    requires IsNetworked(where, cache, flows, out) && Placed(where, cache) && Located(where, flows)
    ensures BridgedWhereNeeded(where, cache, flows, out)
  {
    forall f | f in flows ensures if SameProcess(where, f) then f in out else Bridged(where, cache, out, f) {
      if SameProcess(where, f) {
        assert Becomes(where, cache, f, f);
      } else {
        assert Key(where, f) == Tag(f.src, where[f.dst.uid]);
        var pair := cache[Key(where, f)];
        assert Becomes(where, cache, f, ToSink(f, pair)) && Becomes(where, cache, f, FromSource(f, pair));
      }
    }
    forall f | f in out ensures (f in flows && SameProcess(where, f)) || LegOf(where, cache, flows, f) {
      var g :| g in flows && Becomes(where, cache, g, f);
    }
  }

  lemma PairsAreNet(cache: map<Port, NetPair>, k: Port)
    requires k in cache
    ensures IsNet(cache, cache[k].sink) && IsNet(cache, cache[k].source)
  {
  }

  /** No block is in two cached pairs, or on both sides of one. */
  predicate Separate(cache: map<Port, NetPair>) {
    && (forall k :: k in cache ==> cache[k].sink != cache[k].source)
    && (forall k, l :: k in cache && l in cache && k != l ==>
      {cache[k].sink, cache[k].source} !! {cache[l].sink, cache[l].source})
  }

  /** The blocks of the flows are not network blocks. */
  ghost predicate Apart(cache: map<Port, NetPair>, flows: seq<Flow>) {
    forall f :: f in flows ==> !IsNet(cache, f.src.uid) && !IsNet(cache, f.dst.uid)
  }

  /** s feeds d in out, directly or over one network pair. */
  ghost predicate Carries(cache: map<Port, NetPair>, out: seq<Flow>, s: Port, d: Port) {
    || Flow(s, d) in out
    || exists k ::
         k in cache && Flow(s, Port(cache[k].sink, PORT)) in out && Flow(Port(cache[k].source, PORT), d) in out
  }

  /** Contracting every network pair of out gives back exactly the flows. */
  ghost predicate NetworkKeeps(cache: map<Port, NetPair>, flows: seq<Flow>, out: seq<Flow>) {
    forall s: Port, d: Port :: !IsNet(cache, s.uid) && !IsNet(cache, d.uid) ==>
      (Carries(cache, out, s, d) <==> Flow(s, d) in flows)
  }

  /** Every flow has both ends in one process. */
  predicate Local(where: map<Uid, Pid>, flows: seq<Flow>) {
    forall f :: f in flows ==> f.src.uid in where && f.dst.uid in where && where[f.src.uid] == where[f.dst.uid]
  }

  predicate Below(where: map<Uid, Pid>, limit: Uid) {
    forall u :: u in where ==> u < limit
  }

  predicate PairsBelow(cache: map<Port, NetPair>, limit: Uid) {
    forall k :: k in cache ==> cache[k].sink < limit && cache[k].source < limit
  }

  lemma KeyOfSink(where: map<Uid, Pid>, cache: map<Port, NetPair>, flows: seq<Flow>, out: seq<Flow>, k: Port, s: Port)
    returns (g: Flow)
    requires IsNetworked(where, cache, flows, out) && Separate(cache) && Apart(cache, flows) && Located(where, flows)
    requires k in cache && Flow(s, Port(cache[k].sink, PORT)) in out && !IsNet(cache, s.uid)
    ensures g in flows && Crosses(where, g) && g.src == s && Key(where, g) == k
  {
    var f := Flow(s, Port(cache[k].sink, PORT));
    g :| g in flows && Becomes(where, cache, g, f);
    assert IsNet(cache, f.dst.uid);
  }

  lemma KeyOfSource(where: map<Uid, Pid>, cache: map<Port, NetPair>, flows: seq<Flow>, out: seq<Flow>, k: Port, d: Port)
    returns (g: Flow)
    requires IsNetworked(where, cache, flows, out) && Separate(cache) && Apart(cache, flows) && Located(where, flows)
    requires k in cache && Flow(Port(cache[k].source, PORT), d) in out && !IsNet(cache, d.uid)
    ensures g in flows && Crosses(where, g) && g.dst == d && Key(where, g) == k
  {
    var f := Flow(Port(cache[k].source, PORT), d);
    g :| g in flows && Becomes(where, cache, g, f);
    assert IsNet(cache, f.src.uid);
  }

  lemma Untouched(where: map<Uid, Pid>, cache: map<Port, NetPair>, g: Flow, f: Flow)
    requires Becomes(where, cache, g, f) && !IsNet(cache, f.src.uid) && !IsNet(cache, f.dst.uid)
    ensures g == f
  {
  }

  /** Contracting every network pair gives back exactly the flows. */
  lemma NetworkPreserves(where: map<Uid, Pid>, cache: map<Port, NetPair>, flows: seq<Flow>, out: seq<Flow>, s: Port,
      d: Port)
    requires IsNetworked(where, cache, flows, out) && Separate(cache) && Apart(cache, flows) && Located(where, flows)
    requires !IsNet(cache, s.uid) && !IsNet(cache, d.uid)
    ensures Carries(cache, out, s, d) <==> Flow(s, d) in flows
  {
    var f := Flow(s, d);
    if f in flows {
      if Crosses(where, f) {
        var pair := cache[Key(where, f)];
        assert Becomes(where, cache, f, ToSink(f, pair)) && Becomes(where, cache, f, FromSource(f, pair));
      } else {
        assert Becomes(where, cache, f, f);
      }
    }
    if f in out {
      var g :| g in flows && Becomes(where, cache, g, f);
      Untouched(where, cache, g, f);
    }
    if k :| k in cache && Flow(s, Port(cache[k].sink, PORT)) in out && Flow(Port(cache[k].source, PORT), d) in out {
      var g := KeyOfSink(where, cache, flows, out, k, s);
      var h := KeyOfSource(where, cache, flows, out, k, d);
      TagInjective(g.src, where[g.dst.uid], h.src, where[h.dst.uid]);
      assert h == f;
    }
  }

  /** Every flow that comes out has both ends in one process. */
  lemma NetworkedIsLocal(where: map<Uid, Pid>, cache: map<Port, NetPair>, flows: seq<Flow>, out: seq<Flow>, f: Flow)
    requires IsNetworked(where, cache, flows, out) && Placed(where, cache) && Located(where, flows) && f in out
    ensures f.src.uid in where && f.dst.uid in where && where[f.src.uid] == where[f.dst.uid]
  {
    var g :| g in flows && Becomes(where, cache, g, f);
    if Crosses(where, g) {
      assert Key(where, g) == Tag(g.src, where[g.dst.uid]);
    }
  }

  // ---------- grouping ----------

  /** The crossing flows, by key. */
  predicate Grouped(where: map<Uid, Pid>, flows: seq<Flow>, groups: map<Port, seq<Flow>>) {
    && (forall f :: f in flows && Crosses(where, f) ==> Key(where, f) in groups && f in groups[Key(where, f)])
    && (forall k :: k in groups ==> |groups[k]| > 0)
    && (forall k, f :: k in groups && f in groups[k] ==> f in flows && Crosses(where, f) && Key(where, f) == k)
  }

  lemma GroupedNext(where: map<Uid, Pid>, flows: seq<Flow>, groups: map<Port, seq<Flow>>, flow: Flow)
    requires Grouped(where, flows, groups) && flow.src.uid in where && flow.dst.uid in where
    ensures !Crosses(where, flow) ==> Grouped(where, flows + [flow], groups)
    ensures var k := Key(where, flow);
      Crosses(where, flow) ==>
        Grouped(where, flows + [flow], groups[k := (if k in groups then groups[k] else []) + [flow]])
  {
  }

  /** The first loop of createNetworkFlows. */
  method Group(where: map<Uid, Pid>, flows: seq<Flow>) returns (kept: seq<Flow>, groups: map<Port, seq<Flow>>)
    requires Located(where, flows)
    ensures forall f :: f in kept <==> f in flows && !Crosses(where, f)
    ensures Grouped(where, flows, groups)
    ensures (forall f :: f in flows ==> SameProcess(where, f)) ==> kept == flows && groups == map[]
    ensures NoRepeats(flows) ==> NoRepeats(kept) && forall k :: k in groups ==> NoRepeats(groups[k])
  {
    kept, groups := [], map[];
    var i := 0;
    while i < |flows|
      invariant 0 <= i <= |flows|
      invariant forall f :: f in kept <==> f in flows[..i] && !Crosses(where, f)
      invariant Grouped(where, flows[..i], groups)
      invariant (forall f :: f in flows ==> SameProcess(where, f)) ==> kept == flows[..i] && groups == map[]
      invariant NoRepeats(flows) ==> NoRepeats(kept) && forall k :: k in groups ==> NoRepeats(groups[k])
    {
      var flow := flows[i];
      assert flow in flows && (NoRepeats(flows) ==> flow !in flows[..i]);
      assert flows[..i + 1] == flows[..i] + [flow];
      GroupedNext(where, flows[..i], groups, flow);
      if where[flow.src.uid] == where[flow.dst.uid] {
        kept := kept + [flow];
      } else {
        var k := Key(where, flow);
        assert k in groups && flow in groups[k] ==> flow in flows[..i];
        hide Grouped;
        groups := groups[k := (if k in groups then groups[k] else []) + [flow]];
      }
      i := i + 1;
    }
    assert flows[..i] == flows;
  }

  /** The flows of one group: one into the sink, and one out of the source for each destination. */
  method EmitGroup(group: seq<Flow>, pair: NetPair) returns (out: seq<Flow>)
    requires |group| > 0 && forall f :: f in group ==> f.src == group[0].src
    ensures forall f :: f in out <==> exists g :: g in group && f in {ToSink(g, pair), FromSource(g, pair)}
    ensures |out| == 1 + |group| && out[0] == Flow(group[0].src, Port(pair.sink, PORT))
    ensures forall i :: 0 <= i < |group| ==> out[i + 1] == Flow(Port(pair.source, PORT), group[i].dst)
  {
    out := [ToSink(group[0], pair)];
    var i := 0;
    while i < |group|
      invariant 0 <= i <= |group|
      invariant forall f :: f in out <==>
        f == ToSink(group[0], pair) || exists j :: 0 <= j < i && f == FromSource(group[j], pair)
      invariant |out| == 1 + i && out[0] == ToSink(group[0], pair)
      invariant forall j :: 0 <= j < i ==> out[j + 1] == FromSource(group[j], pair)
    {
      out := out + [FromSource(group[i], pair)];
      i := i + 1;
    }
    forall g | g in group ensures ToSink(g, pair) == ToSink(group[0], pair) {
    }
  }

  /** A group without repeats, not connected to network blocks, gives flows without repeats. */
  lemma EmittedOnce(group: seq<Flow>, pair: NetPair, out: seq<Flow>)
    requires |group| > 0 && NoRepeats(group) && |out| == 1 + |group| && out[0] == ToSink(group[0], pair)
    requires forall i :: 0 <= i < |group| ==> out[i + 1] == FromSource(group[i], pair)
    requires forall f :: f in group ==> f.src == group[0].src && f.dst.uid != pair.sink
    ensures NoRepeats(out)
  {
    forall i, j | 0 <= i < j < |out| ensures out[i] != out[j] {
      assert out[j] == out[j - 1 + 1] && group[j - 1] in group;
      if i > 0 {
        assert out[i] == out[i - 1 + 1] && group[i - 1] in group;
      }
    }
  }

  /** What two groups give has nothing in common. */
  lemma GroupsApart(groups: map<Port, seq<Flow>>, cache: map<Port, NetPair>, k: Port, l: Port, f: Flow)
    requires Separate(cache) && k != l && FromGroup(groups, cache, k, f)
    requires forall m, g :: m in groups && g in groups[m] ==> !IsNet(cache, g.src.uid) && !IsNet(cache, g.dst.uid)
    ensures !FromGroup(groups, cache, l, f)
  {
    assert l in cache ==> {cache[k].sink, cache[k].source} !! {cache[l].sink, cache[l].source};
    PairsAreNet(cache, k);
  }

  ghost predicate FromGroup(groups: map<Port, seq<Flow>>, cache: map<Port, NetPair>, k: Port, f: Flow) {
    k in groups && k in cache && exists g :: g in groups[k] && f in {ToSink(g, cache[k]), FromSource(g, cache[k])}
  }

  lemma OnceInBoth(groups: map<Port, seq<Flow>>, cache: map<Port, NetPair>, done: set<Port>, out: seq<Flow>, k: Port,
      more: seq<Flow>)
    requires Separate(cache) && k !in done
    requires forall m, g :: m in groups && g in groups[m] ==> !IsNet(cache, g.src.uid) && !IsNet(cache, g.dst.uid)
    requires forall f :: f in out ==> exists l :: l in done && FromGroup(groups, cache, l, f)
    requires forall f :: f in more ==> FromGroup(groups, cache, k, f)
    ensures NoRepeats(out) && NoRepeats(more) ==> NoRepeats(out + more)
  {
    hide FromGroup, Separate, IsNet;
    forall f | f in more ensures f !in out {
      if f in out {
        var l :| l in done && FromGroup(groups, cache, l, f);
        GroupsApart(groups, cache, k, l, f);
        assert false;
      }
    }
    if NoRepeats(out) && NoRepeats(more) {
      NoRepeatsConcat(out, more);
    }
  }

  /** The last loop of createNetworkFlows. */
  method Emit(groups: map<Port, seq<Flow>>, cache: map<Port, NetPair>) returns (out: seq<Flow>)
    requires forall k :: k in groups ==> k in cache
    requires forall k :: k in groups ==> |groups[k]| > 0 && forall f :: f in groups[k] ==> f.src == groups[k][0].src
    requires Separate(cache)
    requires forall k, g :: k in groups && g in groups[k] ==> !IsNet(cache, g.src.uid) && !IsNet(cache, g.dst.uid)
    ensures forall f :: f in out <==> exists k :: FromGroup(groups, cache, k, f)
    ensures groups == map[] ==> out == []
    ensures (forall k :: k in groups ==> NoRepeats(groups[k])) ==> NoRepeats(out)
  {
    out := [];
    assert NoRepeats(out);
    hide NoRepeats, Separate, IsNet;
    var keys := groups.Keys;
    ghost var done: set<Port> := {};
    while keys != {}
      invariant keys <= groups.Keys && done == groups.Keys - keys && (groups == map[] ==> out == [])
      invariant forall f :: f in out <==> exists k :: k in done && FromGroup(groups, cache, k, f)
      invariant (forall k :: k in groups ==> NoRepeats(groups[k])) ==> NoRepeats(out)
      decreases |keys|
    {
      var k :| k in keys;
      var more := EmitGroup(groups[k], cache[k]);
      assert forall f :: f in more <==> FromGroup(groups, cache, k, f);
      assert NoRepeats(groups[k]) ==> NoRepeats(more) by {
        if NoRepeats(groups[k]) {
          PairsAreNet(cache, k);
          EmittedOnce(groups[k], cache[k], more);
        }
      }
      OnceInBoth(groups, cache, done, out, k, more);
      hide FromGroup;
      out := out + more;
      keys := keys - {k};
      done := done + {k};
    }
    assert forall k, f :: FromGroup(groups, cache, k, f) ==> k in groups;
    hide FromGroup;
  }

  lemma GroupsHaveOneSource(where: map<Uid, Pid>, flows: seq<Flow>, groups: map<Port, seq<Flow>>, k: Port, f: Flow,
      g: Flow)
    requires Located(where, flows) && Grouped(where, flows, groups) && k in groups && f in groups[k] && g in groups[k]
    ensures f.src == g.src && where[f.dst.uid] == where[g.dst.uid]
  {
    assert f in flows && g in flows && Key(where, f) == Key(where, g);
    TagInjective(f.src, where[f.dst.uid], g.src, where[g.dst.uid]);
  }

  lemma EmittedIsNetworked(where: map<Uid, Pid>, cache: map<Port, NetPair>, flows: seq<Flow>, groups: map<Port,
      seq<Flow>>, kept: seq<Flow>, emitted: seq<Flow>)
    requires Located(where, flows) && Grouped(where, flows, groups) && forall k :: k in groups ==> k in cache
    requires forall f :: f in kept <==> f in flows && !Crosses(where, f)
    requires forall f :: f in emitted <==> exists k :: FromGroup(groups, cache, k, f)
    ensures IsNetworked(where, cache, flows, kept + emitted)
  {
    var out := kept + emitted;
    forall g, f | g in flows && Becomes(where, cache, g, f) ensures f in out {
      if Crosses(where, g) {
        assert FromGroup(groups, cache, Key(where, g), f);
      }
    }
    forall f | f in out ensures exists g :: g in flows && Becomes(where, cache, g, f) {
      if f in emitted {
        var k :| FromGroup(groups, cache, k, f);
        var g :| g in groups[k] && f in {ToSink(g, cache[k]), FromSource(g, cache[k])};
        assert Becomes(where, cache, g, f);
      } else {
        assert Becomes(where, cache, f, f);
      }
    }
  }

  // ---------- the topology's cache ----------

  /** Nothing that is in the first map changes in the second. */
  ghost predicate Extends<K, V>(a: map<K, V>, b: map<K, V>) {
    forall k :: k in a ==> k in b && b[k] == a[k]
  }

  lemma PlacedGrows(where: map<Uid, Pid>, cache: map<Port, NetPair>, flow: Flow, pair: NetPair, where': map<Uid, Pid>)
    requires Placed(where, cache) && (forall k :: k in cache ==> k.uid in where)
    requires flow.src.uid in where && flow.dst.uid in where && NoArrow(where[flow.dst.uid])
    requires pair.sink !in where && pair.source !in where && pair.sink != pair.source
    requires where' == where[pair.sink := where[flow.src.uid]][pair.source := where[flow.dst.uid]]
    ensures Placed(where', cache[Key(where, flow) := pair])
  {
    var cache' := cache[Key(where, flow) := pair];
    forall p: Port, pid | NoArrow(pid) && Tag(p, pid) in cache' && p.uid in where'
      ensures var q := cache'[Tag(p, pid)];
        q.sink in where' && q.source in where' && where'[q.sink] == where'[p.uid] && where'[q.source] == pid
    {
      if Tag(p, pid) == Key(where, flow) {
        TagInjective(p, pid, flow.src, where[flow.dst.uid]);
      } else {
        assert Tag(p, pid).uid in where;
      }
    }
  }

  lemma GroupsReady(where: map<Uid, Pid>, cache: map<Port, NetPair>, flows: seq<Flow>, groups: map<Port, seq<Flow>>)
    requires Located(where, flows) && Grouped(where, flows, groups) && Apart(cache, flows)
    ensures forall k :: k in groups ==> |groups[k]| > 0 && forall f :: f in groups[k] ==> f.src == groups[k][0].src
    ensures forall k, g :: k in groups && g in groups[k] ==> !IsNet(cache, g.src.uid) && !IsNet(cache, g.dst.uid)
  {
    forall k | k in groups ensures |groups[k]| > 0 && forall f :: f in groups[k] ==> f.src == groups[k][0].src {
      GroupNonEmpty(where, flows, groups, k);
    }
  }

  lemma OnceInAll(where: map<Uid, Pid>, cache: map<Port, NetPair>, flows: seq<Flow>, groups: map<Port, seq<Flow>>,
      kept: seq<Flow>, emitted: seq<Flow>)
    requires Apart(cache, flows) && (forall f :: f in kept ==> f in flows)
    requires forall f :: f in emitted <==> exists k :: FromGroup(groups, cache, k, f)
    ensures NoRepeats(kept) && NoRepeats(emitted) ==> NoRepeats(kept + emitted)
  {
    forall f | f in emitted ensures f !in kept {
      var k :| FromGroup(groups, cache, k, f);
      PairsAreNet(cache, k);
    }
    if NoRepeats(kept) && NoRepeats(emitted) {
      NoRepeatsConcat(kept, emitted);
    }
  }

  lemma AllLocal(where: map<Uid, Pid>, cache: map<Port, NetPair>, flows: seq<Flow>, out: seq<Flow>)
    requires IsNetworked(where, cache, flows, out) && Placed(where, cache) && Located(where, flows)
    ensures Local(where, out)
  {
    hide IsNetworked, Placed, Located;
    forall f | f in out ensures f.src.uid in where && f.dst.uid in where && where[f.src.uid] == where[f.dst.uid] {
      NetworkedIsLocal(where, cache, flows, out, f);
    }
  }

  lemma AllKept(where: map<Uid, Pid>, cache: map<Port, NetPair>, flows: seq<Flow>, out: seq<Flow>)
    requires IsNetworked(where, cache, flows, out) && Separate(cache) && Apart(cache, flows) && Located(where, flows)
    ensures NetworkKeeps(cache, flows, out)
  {
    hide IsNetworked, Separate, Apart, Located, IsNet, Carries;
    forall s: Port, d: Port | !IsNet(cache, s.uid) && !IsNet(cache, d.uid)
      ensures Carries(cache, out, s, d) <==> Flow(s, d) in flows
    {
      NetworkPreserves(where, cache, flows, out, s, d);
    }
  }

  lemma SeparateGrows(where: map<Uid, Pid>, cache: map<Port, NetPair>, k: Port, pair: NetPair)
    requires Separate(cache) && forall l :: l in cache ==> cache[l].sink in where && cache[l].source in where
    requires pair.sink !in where && pair.source !in where && pair.sink != pair.source
    ensures Separate(cache[k := pair])
  {
  }

  lemma SameKeys<K, V>(a: map<K, V>, b: map<K, V>)
    requires Extends(a, b)
    ensures (forall k :: k in b ==> k in a) ==> a == b
  {
  }

  lemma OneNewKey(first: set<Port>, before: set<Port>, after: set<Port>, k: Port)
    requires k !in before && k !in first && forall l :: l in after <==> l in before || l == k
    ensures |after - first| == |before - first| + 1
  {
    assert after - first == (before - first) + {k};
  }

  class Impl {
    /** The process of every block made so far. */
    var where: map<Uid, Pid>
    var kinds: map<Uid, Kind>
    var next: Uid
    var cache: map<Port, NetPair>
    const localNode: Node
    const nodeOf: Pid -> Node

    ghost predicate Valid()
      reads this
    {
      && Below(where, next)
      && (forall k :: k in cache ==> k.uid in where)
      && (forall k :: k in cache ==> cache[k].sink in where && cache[k].source in where)
      && Placed(where, cache) && Separate(cache)
      && (forall k :: k in cache ==> Kinds(cache[k]))
    }

    predicate Kinds(pair: NetPair)
      reads this
    {
      pair.sink in kinds && kinds[pair.sink] == NetworkSink && pair.source in kinds &&
        kinds[pair.source] == NetworkSource
    }

    constructor (where: map<Uid, Pid>, next: Uid, localNode: Node, nodeOf: Pid -> Node)
      requires forall u :: u in where ==> u < next
      ensures Valid() && this.where == where && cache == map[]
    {
      this.where, this.next, this.localNode, this.nodeOf := where, next, localNode, nodeOf;
      kinds, cache := map[], map[];
    }

    lemma ValidFacts()
      requires Valid()
      ensures Below(where, next) && PairsBelow(cache, next) && Separate(cache) && Placed(where, cache)
    {
    }

    /** The environment's registry makes a block of this kind. */
    method MakeBlock(pid: Pid, kind: Kind) returns (uid: Uid)
      modifies this`where, this`kinds, this`next
      requires forall u :: u in where ==> u < next
      ensures uid == old(next) && next == uid + 1 && uid !in old(where)
      ensures where == old(where)[uid := pid] && kinds == old(kinds)[uid := kind]
    {
      uid := next;
      where, kinds, next := where[uid := pid], kinds[uid := kind], next + 1;
    }

    /**
      createNetworkFlow: whichever side binds, the sink is beside the source of the flow and the source
      beside its destination. The side that binds is not on the local node, unless both are.
     */
    method CreateNetworkFlow(flow: Flow) returns (pair: NetPair, sinkBinds: bool)
      modifies this`where, this`kinds, this`next
      requires flow.src.uid in where && flow.dst.uid in where
      requires forall u :: u in where ==> u < next
      ensures next == old(next) + 2
      ensures forall u :: u in where ==> u < next
      ensures pair.sink != pair.source && pair.sink >= old(next) && pair.source >= old(next) && Kinds(pair)
      ensures where == old(where)[pair.sink := old(where)[flow.src.uid]][pair.source := old(where)[flow.dst.uid]]
      ensures sinkBinds <==> nodeOf(old(where)[flow.src.uid]) != localNode
      ensures var bound := if sinkBinds then pair.sink else pair.source;
        nodeOf(where[bound]) == localNode ==>
          nodeOf(old(where)[flow.src.uid]) == localNode && nodeOf(old(where)[flow.dst.uid]) == localNode
      ensures var bound := if sinkBinds then pair.sink else pair.source; bound == old(next)
      ensures forall u :: u < old(next) ==>
        (u in kinds <==> u in old(kinds)) && (u in kinds ==> kinds[u] == old(kinds)[u])
    {
      var bindEnv, connEnv := where[flow.src.uid], where[flow.dst.uid];
      var bindKind, connKind := NetworkSink, NetworkSource;
      sinkBinds := true;
      if localNode == nodeOf(bindEnv) {
        bindEnv, connEnv := connEnv, bindEnv;
        bindKind, connKind := connKind, bindKind;
        sinkBinds := false;
      }
      var netBind := MakeBlock(bindEnv, bindKind);
      var netConn := MakeBlock(connEnv, connKind);
      pair := if sinkBinds then NetPair(netConn, netBind) else NetPair(netBind, netConn);
    }

    /** A pair for a flow whose key is not in the cache. */
    method AddPair(flow: Flow, k: Port) returns (pair: NetPair)
      modifies this`where, this`kinds, this`next, this`cache
      requires Valid() && flow.src.uid in where && flow.dst.uid in where && NoArrow(where[flow.dst.uid])
      requires k == Key(where, flow) && k !in cache
      ensures Valid() && Extends(old(where), where) && cache == old(cache)[k := pair]
      ensures pair.sink >= old(next) && pair.source >= old(next) && next == old(next) + 2
    {
      hide Placed, Separate, NoArrow;
      var sinkBinds;
      pair, sinkBinds := CreateNetworkFlow(flow);
      PlacedGrows(old(where), cache, flow, pair, where);
      SeparateGrows(old(where), cache, k, pair);
      cache := cache[k := pair];
    }

    method AddGroup(ghost flows: seq<Flow>, groups: map<Port, seq<Flow>>, k: Port)
      modifies this`where, this`kinds, this`next, this`cache
      requires Valid() && Located(where, flows) && Grouped(where, flows, groups) && Apart(cache, flows)
      requires k in groups && k !in cache
      ensures next == old(next) + 2
      ensures Valid() && Extends(old(where), where) && Extends(old(cache), cache)
      ensures forall l :: l in cache <==> l in old(cache) || l == k
      ensures Apart(cache, flows)
    {
      var flow := groups[k][0];
      assert flow in groups[k];
      assert flow in flows && Key(where, flow) == k;
      ghost var limit := next;
      assert forall f :: f in flows ==> f.src.uid < limit && f.dst.uid < limit;
      hide Apart, IsNet, Located, Grouped, Valid;
      var pair := AddPair(flow, k);
    }

    /** Makes the pairs that are not in the cache yet. */
    method FillCache(flows: seq<Flow>, groups: map<Port, seq<Flow>>)
      modifies this`where, this`kinds, this`next, this`cache
      requires Valid() && Located(where, flows) && Grouped(where, flows, groups) && Apart(cache, flows)
      ensures next == old(next) + 2 * |cache.Keys - old(cache.Keys)|
      ensures Valid() && Extends(old(where), where) && Extends(old(cache), cache)
      ensures forall k :: k in cache <==> k in old(cache) || k in groups
      ensures Apart(cache, flows)
    {
      hide Valid, Located, Grouped, Apart, Extends;
      var keys := groups.Keys;
      ExtendsTransitive(where, where, where);
      ExtendsTransitive(cache, cache, cache);
      while keys != {}
        invariant keys <= groups.Keys && Valid() && Extends(old(where), where) && Extends(old(cache), cache)
        invariant forall k :: k in cache <==> k in old(cache) || (k in groups && k !in keys)
        invariant Apart(cache, flows) && next == old(next) + 2 * |cache.Keys - old(cache.Keys)|
        invariant Located(where, flows) && Grouped(where, flows, groups)
        decreases |keys|
      {
        var k :| k in keys;
        keys := keys - {k};
        ghost var w, c := where, cache;
        if k !in cache {
          AddGroup(flows, groups, k);
          OneNewKey(old(cache.Keys), c.Keys, cache.Keys, k);
          WhereGrows(w, where, flows, groups);
          ExtendsTransitive(old(where), w, where);
          ExtendsTransitive(old(cache), c, cache);
        }
      }
    }

    /** createNetworkFlows: the same connections, each within one process. */
    method CreateNetworkFlows(flows: seq<Flow>) returns (out: seq<Flow>)
      modifies this`where, this`kinds, this`next, this`cache
      requires Valid() && Located(where, flows) && Apart(cache, flows)
      ensures next == old(next) + 2 * |cache.Keys - old(cache.Keys)|
      ensures Valid() && Located(where, flows) && Extends(old(where), where) && Extends(old(cache), cache) &&
        Apart(cache, flows)
      ensures IsNetworked(where, cache, flows, out)
      ensures Local(where, out)
      ensures NetworkKeeps(cache, flows, out)
      ensures BridgedWhereNeeded(where, cache, flows, out)
      ensures (forall f :: f in flows ==> SameProcess(old(where), f)) ==> out == flows && cache == old(cache)
      ensures NoRepeats(flows) ==> NoRepeats(out)
    {
      hide Grouped, Extends, Placed, Separate, Apart, Located, IsNet, Crosses, Valid, NoRepeats, SameProcess,
        IsNetworked, BridgedWhereNeeded, Local, NetworkKeeps;
      var kept, groups := Group(where, flows);
      FillCache(flows, groups);
      WhereGrows(old(where), where, flows, groups);
      SameKeys(old(cache), cache);
      ValidFacts();
      GroupsReady(where, cache, flows, groups);
      var emitted := Emit(groups, cache);
      out := kept + emitted;
      EmittedIsNetworked(where, cache, flows, groups, kept, emitted);
      OnceInAll(where, cache, flows, groups, kept, emitted);
      BridgesWhereNeeded(where, cache, flows, out);
      AllLocal(where, cache, flows, out);
      AllKept(where, cache, flows, out);
    }

    /** Blocks made elsewhere join the known ones. */
    method Adopt(where': map<Uid, Pid>, next': Uid)
      modifies this`where, this`next
      requires Valid() && Extends(where, where') && Below(where', next')
      ensures Valid() && where == where' && next == next'
    {
      PlacedExtends(where, where', cache);
      hide Placed, Separate;
      where, next := where', next';
    }

    /** The end of commit: only the pairs of the current flows stay in the cache. */
    method Prune(flows: seq<Flow>)
      modifies this`cache
      requires Valid() && Located(where, flows)
      ensures Valid() && Extends(cache, old(cache))
      ensures IsPruned(where, old(cache), cache, flows)
    {
      var pruned: map<Port, NetPair> := map[];
      var i := 0;
      while i < |flows|
        invariant 0 <= i <= |flows|
        invariant Extends(pruned, cache)
        invariant forall k :: k in pruned <==>
          k in cache && exists j :: 0 <= j < i && flows[j].dst.uid in where && k == Key(where, flows[j])
      {
        assert flows[i] in flows;
        var k := Key(where, flows[i]);
        if k in cache {
          pruned := pruned[k := cache[k]];
        }
        i := i + 1;
      }
      hide Placed, Separate;
      cache := pruned;
    }
  }

  /** Pruning does not touch the pairs that the flows use. */
  lemma PrunedStillNetworked(where: map<Uid, Pid>, cache: map<Port, NetPair>, pruned: map<Port, NetPair>,
      flows: seq<Flow>, out: seq<Flow>)
    requires IsNetworked(where, cache, flows, out) && Extends(pruned, cache) && Located(where, flows)
    requires forall f :: f in flows && f.dst.uid in where && Key(where, f) in cache ==> Key(where, f) in pruned
    ensures IsNetworked(where, pruned, flows, out)
  {
    forall g, f | g in flows ensures Becomes(where, cache, g, f) <==> Becomes(where, pruned, g, f) {
    }
    hide Becomes;
  }

  lemma PlacedExtends(where: map<Uid, Pid>, where': map<Uid, Pid>, cache: map<Port, NetPair>)
    requires Placed(where, cache) && Extends(where, where') && forall k :: k in cache ==> k.uid in where
    ensures Placed(where', cache)
  {
    forall p: Port, pid | NoArrow(pid) && Tag(p, pid) in cache && p.uid in where'
      ensures var q := cache[Tag(p, pid)];
        q.sink in where' && q.source in where' && where'[q.sink] == where'[p.uid] && where'[q.source] == pid
    {
      assert Tag(p, pid).uid in where;
    }
  }

  /** Nothing about the flows changes when more blocks are known. */
  lemma NetworkedExtends(where: map<Uid, Pid>, where': map<Uid, Pid>, cache: map<Port, NetPair>, flows: seq<Flow>,
      out: seq<Flow>)
    requires IsNetworked(where, cache, flows, out) && Located(where, flows) && Extends(where, where')
    ensures IsNetworked(where', cache, flows, out) && Located(where', flows)
  {
    forall g, f | g in flows
      ensures (Becomes(where, cache, g, f) <==> Becomes(where', cache, g, f)) &&
        (Crosses(where, g) <==> Crosses(where', g)) && Key(where, g) == Key(where', g)
    {
    }
    hide Becomes, Crosses, Key;
  }

  /** The keys of the flows stay, and no other. */
  ghost predicate IsPruned(where: map<Uid, Pid>, cache: map<Port, NetPair>, pruned: map<Port, NetPair>,
      flows: seq<Flow>) {
    forall k :: k in pruned <==> k in cache && exists f: Flow :: f in flows && f.dst.uid in where && k == Key(where, f)
  }

  lemma KeepsPairs(where: map<Uid, Pid>, cache: map<Port, NetPair>, pruned: map<Port, NetPair>, flows: seq<Flow>)
    requires IsPruned(where, cache, pruned, flows)
    ensures forall f :: f in flows && f.dst.uid in where && Key(where, f) in cache ==> Key(where, f) in pruned
  {
  }

  lemma PrunedBelow(cache: map<Port, NetPair>, pruned: map<Port, NetPair>, flows: seq<Flow>, limit: Uid)
    requires Apart(cache, flows) && PairsBelow(cache, limit) && Extends(pruned, cache)
    ensures Apart(pruned, flows) && PairsBelow(pruned, limit)
  {
  }

  lemma ExtendsTransitive<K, V>(a: map<K, V>, b: map<K, V>, c: map<K, V>)
    ensures Extends(a, a)
    ensures Extends(a, b) && Extends(b, c) ==> Extends(a, c)
  {
  }

  lemma GroupNonEmpty(where: map<Uid, Pid>, flows: seq<Flow>, groups: map<Port, seq<Flow>>, k: Port)
    requires Located(where, flows) && Grouped(where, flows, groups) && k in groups
    ensures |groups[k]| > 0 && forall f :: f in groups[k] ==> f.src == groups[k][0].src
  {
    assert groups[k][0] in groups[k];
    forall f | f in groups[k] ensures f.src == groups[k][0].src {
      GroupsHaveOneSource(where, flows, groups, k, f, groups[k][0]);
    }
  }

  lemma WhereGrows(where: map<Uid, Pid>, where': map<Uid, Pid>, flows: seq<Flow>, groups: map<Port, seq<Flow>>)
    requires Located(where, flows) && Grouped(where, flows, groups) && Extends(where, where')
    ensures Located(where', flows) && Grouped(where', flows, groups)
    ensures forall f :: f in flows ==> (Crosses(where, f) <==> Crosses(where', f))
  {
    forall f | f in flows ensures (Crosses(where, f) <==> Crosses(where', f)) && Key(where, f) == Key(where', f) {
    }
  }
}
