/**
  Domain crossings (lib/Framework/TopologyDomainFlows.cpp): a copier block goes between ports whose
  buffer domains do not fit. What ports answer about domains and buffer modes is a parameter.
 */
module DomainFlows {
  import opened Values
  import opened NetworkFlows

  datatype Mode = Abdicate | Custom | Error

  /** getDomain and getBufferMode, as the ports' actors answer them. */
  datatype Answers = Answers(domain: (Port, bool) -> string, mode: (Port, string, bool) -> Mode)

  // ---------- the decision ----------

  predicate OneDomain(a: Answers, subPorts: seq<Port>, isInput: bool) {
    forall p, q :: p in subPorts && q in subPorts ==> a.domain(p, !isInput) == a.domain(q, !isInput)
  }

  predicate AllAbdicate(a: Answers, mainPort: Port, subPorts: seq<Port>, isInput: bool) {
    forall p :: p in subPorts ==> a.mode(p, a.domain(mainPort, isInput), !isInput) == Abdicate
  }

  /** The buffers of one side serve the other: one domain, and a custom buffer only against ports that abdicate. */
  predicate Acceptable(a: Answers, mainPort: Port, subPorts: seq<Port>, isInput: bool)
    requires |subPorts| > 0
  {
    && OneDomain(a, subPorts, isInput)
    && match a.mode(mainPort, a.domain(subPorts[0], !isInput), isInput)
       case Error => false
       case Abdicate => true
       case Custom => (isInput ==> |subPorts| == 1) && AllAbdicate(a, mainPort, subPorts, isInput)
  }

  /**
    Why peers p and q, which may be one, do not go with a port: they are in two domains, the port does not
    serve p's domain, or it brings its own buffers and is an input of two peers, or q brings its own as well.
   */
  predicate Clash(a: Answers, port: Port, isInput: bool, two: bool, p: Port, q: Port) {
    || a.domain(p, !isInput) != a.domain(q, !isInput)
    || a.mode(port, a.domain(p, !isInput), isInput) == Error
    || (a.mode(port, a.domain(p, !isInput), isInput) == Custom &&
         ((isInput && two) || a.mode(q, a.domain(port, isInput), !isInput) != Abdicate))
  }

  predicate Clashes(a: Answers, port: Port, peers: seq<Port>, isInput: bool) {
    exists i, j :: 0 <= i < |peers| && 0 <= j < |peers| && Clash(a, port, isInput, i != j, peers[i], peers[j])
  }

  /** A crossing is acceptable exactly if no two peers clash. */
  lemma AcceptableExact(a: Answers, port: Port, peers: seq<Port>, isInput: bool)
    requires |peers| > 0
    ensures Acceptable(a, port, peers, isInput) <==> !Clashes(a, port, peers, isInput)
  {
    if !Clashes(a, port, peers, isInput) {
      forall i | 0 <= i < |peers| ensures !Clash(a, port, isInput, i != 0, peers[0], peers[i]) {
        assert !Clash(a, port, isInput, 0 != i, peers[0], peers[i]);
      }
      if isInput && |peers| > 1 {
        assert !Clash(a, port, isInput, 0 != 1, peers[0], peers[1]);
      }
    } else {
      var i, j :| 0 <= i < |peers| && 0 <= j < |peers| && Clash(a, port, isInput, i != j, peers[i], peers[j]);
      assert peers[0] in peers && peers[i] in peers && peers[j] in peers;
    }
  }

  method IsDomainCrossingAcceptable(a: Answers, mainPort: Port, subPorts: seq<Port>, isInput: bool) returns (ok: bool)
    requires |subPorts| > 0
    ensures ok <==> Acceptable(a, mainPort, subPorts, isInput)
    ensures ok <==> !Clashes(a, mainPort, subPorts, isInput)
  {
    AcceptableExact(a, mainPort, subPorts, isInput);
    hide Clashes;
    var mainDomain := a.domain(mainPort, isInput);
    var allOthersAbdicate := true;
    var subDomains: set<string> := {};
    var i := 0;
    while i < |subPorts|
      invariant 0 <= i <= |subPorts|
      invariant forall d :: d in subDomains <==> exists j :: 0 <= j < i && d == a.domain(subPorts[j], !isInput)
      invariant allOthersAbdicate <==> forall j :: 0 <= j < i ==> a.mode(subPorts[j], mainDomain, !isInput) == Abdicate
    {
      subDomains := subDomains + {a.domain(subPorts[i], !isInput)};
      if a.mode(subPorts[i], mainDomain, !isInput) != Abdicate { allOthersAbdicate := false; }
      i := i + 1;
    }
    var first := a.domain(subPorts[0], !isInput);
    assert first in subDomains;
    Singleton(subDomains, first);
    assert forall j :: 0 <= j < |subPorts| ==> a.domain(subPorts[j], !isInput) in subDomains;
    if |subDomains| > 1 {
      ghost var d :| d in subDomains && d != first;
      ghost var j :| 0 <= j < |subPorts| && d == a.domain(subPorts[j], !isInput);
      assert subPorts[0] in subPorts && subPorts[j] in subPorts;
      return false;
    }
    assert forall p :: p in subPorts ==> a.domain(p, !isInput) == first;
    match a.mode(mainPort, first, isInput)
    case Error => return false;
    case Abdicate => return true;
    case Custom =>
      if isInput && |subPorts| > 1 { return false; }
      assert allOthersAbdicate <==> AllAbdicate(a, mainPort, subPorts, isInput) by {
        assert forall j :: 0 <= j < |subPorts| ==> subPorts[j] in subPorts;
      }
      return allOthersAbdicate;
  }

  lemma Singleton(s: set<string>, x: string)
    requires x in s
    ensures |s| <= 1 <==> forall d :: d in s ==> d == x
  {
    var rest := s - {x};
    assert |rest| == |s| - 1;
    if |s| > 1 {
      assert rest != {};
      var d :| d in rest;
    } else {
      assert rest == {};
    }
  }

  // ---------- peers ----------

  function End(f: Flow, isInput: bool): Port {
    if isInput then f.dst else f.src
  }

  /** The ports on the other side of this one, one for each flow. */
  function Peers(flows: seq<Flow>, port: Port, isInput: bool): seq<Port> {
    if flows == [] then []
    else
      var last := flows[|flows| - 1];
      Peers(flows[..|flows| - 1], port, isInput) + if End(last, isInput) == port then [End(last, !isInput)] else []
  }

  lemma {:induction false} PeersAre(flows: seq<Flow>, port: Port, isInput: bool, p: Port)
    ensures p in Peers(flows, port, isInput) <==>
      exists f :: f in flows && End(f, isInput) == port && End(f, !isInput) == p
  {
    if flows != [] {
      PeersAre(flows[..|flows| - 1], port, isInput, p);
      assert flows == flows[..|flows| - 1] + [flows[|flows| - 1]];
    }
  }

  lemma {:induction false} PeersPrefix(flows: seq<Flow>, n: nat, port: Port, isInput: bool)
    requires n <= |flows|
    ensures Peers(flows[..n], port, isInput) <= Peers(flows, port, isInput)
    decreases |flows| - n
  {
    if n == |flows| {
      assert flows[..n] == flows;
    } else {
      PeersNext(flows, n, port, isInput);
      PeersPrefix(flows, n + 1, port, isInput);
    }
  }

  /** The place of flow i among the peers of its port. */
  lemma PeerOfFlow(flows: seq<Flow>, i: nat, isInput: bool) returns (k: nat)
    requires i < |flows|
    ensures var peers := Peers(flows, End(flows[i], isInput), isInput);
      k == |Peers(flows[..i], End(flows[i], isInput), isInput)| < |peers| && peers[k] == End(flows[i], !isInput)
  {
    var port := End(flows[i], isInput);
    k := |Peers(flows[..i], port, isInput)|;
    PeersNext(flows, i, port, isInput);
    PeersPrefix(flows, i + 1, port, isInput);
  }

  lemma LaterPeer(flows: seq<Flow>, i: nat, j: nat, isInput: bool)
    requires i < j < |flows| && End(flows[i], isInput) == End(flows[j], isInput)
    ensures var port := End(flows[i], isInput);
      |Peers(flows[..i], port, isInput)| < |Peers(flows[..j], port, isInput)|
  {
    var port := End(flows[i], isInput);
    PeersNext(flows, i, port, isInput);
    PeersPrefix(flows[..j], i + 1, port, isInput);
    assert flows[..j][..i + 1] == flows[..i + 1];
  }

  lemma {:induction false} FlowOfPeer(flows: seq<Flow>, port: Port, isInput: bool, k: nat) returns (i: nat)
    requires k < |Peers(flows, port, isInput)|
    ensures i < |flows| && End(flows[i], isInput) == port && End(flows[i], !isInput) == Peers(flows, port, isInput)[k]
    ensures k == |Peers(flows[..i], port, isInput)|
  {
    var n := |flows| - 1;
    var before := Peers(flows[..n], port, isInput);
    if k < |before| {
      i := FlowOfPeer(flows[..n], port, isInput, k);
      assert flows[..n][..i] == flows[..i];
    } else {
      i := n;
    }
  }

  /** The port has two flows, which may be one, whose other ends do not go with it. */
  predicate Misfit(a: Answers, flows: seq<Flow>, port: Port, isInput: bool) {
    exists i, j :: 0 <= i < |flows| && 0 <= j < |flows| && Misfits(a, flows, port, isInput, i, j)
  }

  predicate Misfits(a: Answers, flows: seq<Flow>, port: Port, isInput: bool, i: nat, j: nat)
    requires i < |flows| && j < |flows|
  {
    && End(flows[i], isInput) == port && End(flows[j], isInput) == port
    && Clash(a, port, isInput, i != j, End(flows[i], !isInput), End(flows[j], !isInput))
  }

  /** Two flows out of the port, which may be one, have destinations that do not go with it. */
  predicate SourceClashes(a: Answers, flows: seq<Flow>, port: Port) {
    exists i, j :: 0 <= i < |flows| && 0 <= j < |flows| &&
      flows[i].src == port && flows[j].src == port && Clash(a, port, false, i != j, flows[i].dst, flows[j].dst)
  }

  /** Two flows into the port, which may be one, have sources that do not go with it. */
  predicate DestinationClashes(a: Answers, flows: seq<Flow>, port: Port) {
    exists i, j :: 0 <= i < |flows| && 0 <= j < |flows| &&
      flows[i].dst == port && flows[j].dst == port && Clash(a, port, true, i != j, flows[i].src, flows[j].src)
  }

  lemma MisfitBySide(a: Answers, flows: seq<Flow>, port: Port)
    ensures Misfit(a, flows, port, false) <==> SourceClashes(a, flows, port)
    ensures Misfit(a, flows, port, true) <==> DestinationClashes(a, flows, port)
  {
    hide Clash;
    if i, j :| 0 <= i < |flows| && 0 <= j < |flows| && Misfits(a, flows, port, false, i, j) {
      assert Clash(a, port, false, i != j, flows[i].dst, flows[j].dst);
    }
    if i, j :| 0 <= i < |flows| && 0 <= j < |flows| && Misfits(a, flows, port, true, i, j) {
      assert Clash(a, port, true, i != j, flows[i].src, flows[j].src);
    }
    forall i, j | 0 <= i < |flows| && 0 <= j < |flows|
      ensures Misfits(a, flows, port, false, i, j) <==>
        flows[i].src == port && flows[j].src == port && Clash(a, port, false, i != j, flows[i].dst, flows[j].dst)
      ensures Misfits(a, flows, port, true, i, j) <==>
        flows[i].dst == port && flows[j].dst == port && Clash(a, port, true, i != j, flows[i].src, flows[j].src)
    {
    }
  }

  lemma MisfitIsClash(a: Answers, flows: seq<Flow>, port: Port, isInput: bool)
    ensures Misfit(a, flows, port, isInput) <==> Clashes(a, port, Peers(flows, port, isInput), isInput)
  {
    var peers := Peers(flows, port, isInput);
    hide Peers, Clash;
    if i, j :| 0 <= i < |flows| && 0 <= j < |flows| && Misfits(a, flows, port, isInput, i, j) {
      var k := PeerOfFlow(flows, i, isInput);
      var l := PeerOfFlow(flows, j, isInput);
      if i < j { LaterPeer(flows, i, j, isInput); }
      if j < i { LaterPeer(flows, j, i, isInput); }
      assert Clash(a, port, isInput, k != l, peers[k], peers[l]);
    }
    if k, l :| 0 <= k < |peers| && 0 <= l < |peers| && Clash(a, port, isInput, k != l, peers[k], peers[l]) {
      var i := FlowOfPeer(flows, port, isInput, k);
      var j := FlowOfPeer(flows, port, isInput, l);
      assert k != l <==> i != j by {
        if i < j { LaterPeer(flows, i, j, isInput); }
        if j < i { LaterPeer(flows, j, i, isInput); }
      }
      assert Misfits(a, flows, port, isInput, i, j);
    }
  }

  /** Lists as the double loop fills them: every peer once for each flow of the port. */
  function Times(s: seq<Port>, n: nat): seq<Port> {
    if n == 0 then [] else Times(s, n - 1) + s
  }

  ghost predicate ListsUpTo(flows: seq<Flow>, n: nat, isInput: bool, lists: map<Port, seq<Port>>)
    requires n <= |flows|
  {
    forall p :: (p in lists <==> Peers(flows[..n], p, isInput) != []) &&
      (p in lists ==> lists[p] == Times(Peers(flows, p, isInput), |Peers(flows[..n], p, isInput)|))
  }

  lemma PeersNext(flows: seq<Flow>, n: nat, port: Port, isInput: bool)
    requires n < |flows|
    ensures Peers(flows[..n + 1], port, isInput) == Peers(flows[..n], port, isInput) + if End(flows[n],
      isInput) == port then [End(flows[n], !isInput)] else []
  {
    assert flows[..n + 1][..n] == flows[..n];
  }

  /** The inner loop: the peers of one flow's port. */
  method AppendPeers(flows: seq<Flow>, port: Port, isInput: bool, list: seq<Port>) returns (r: seq<Port>)
    ensures r == list + Peers(flows, port, isInput)
  {
    r := list;
    var j := 0;
    while j < |flows|
      invariant 0 <= j <= |flows|
      invariant r == list + Peers(flows[..j], port, isInput)
    {
      PeersNext(flows, j, port, isInput);
      if End(flows[j], isInput) == port {
        r := r + [End(flows[j], !isInput)];
      }
      j := j + 1;
    }
    assert flows[..j] == flows;
  }

  /** The double loop of rectifyDomainFlows, for one side. */
  method ListPeers(flows: seq<Flow>, isInput: bool) returns (lists: map<Port, seq<Port>>)
    ensures ListsUpTo(flows, |flows|, isInput, lists)
  {
    lists := map[];
    var i := 0;
    while i < |flows|
      invariant 0 <= i <= |flows|
      invariant ListsUpTo(flows, i, isInput, lists)
    {
      var port := End(flows[i], isInput);
      var list := AppendPeers(flows, port, isInput, if port in lists then lists[port] else []);
      ListsNext(flows, i, isInput, lists, list);
      lists := lists[port := list];
      i := i + 1;
    }
  }

  lemma TimesNext(s: seq<Port>, n: nat)
    ensures Times(s, n + 1) == Times(s, n) + s && Times(s, 0) == []
  {
  }

  lemma ListsNext(flows: seq<Flow>, i: nat, isInput: bool, lists: map<Port, seq<Port>>, list: seq<Port>)
    requires i < |flows| && ListsUpTo(flows, i, isInput, lists)
    requires var port := End(flows[i], isInput); list == (if port in lists then lists[port] else []) + Peers(flows,
      port, isInput)
    ensures ListsUpTo(flows, i + 1, isInput, lists[End(flows[i], isInput) := list])
  {
    hide Peers, Times;
    var next := lists[End(flows[i], isInput) := list];
    forall p
      ensures p in next <==> Peers(flows[..i + 1], p, isInput) != []
      ensures p in next ==> next[p] == Times(Peers(flows, p, isInput), |Peers(flows[..i + 1], p, isInput)|)
    {
      PeersNext(flows, i, p, isInput);
      TimesNext(Peers(flows, p, isInput), |Peers(flows[..i], p, isInput)|);
    }
  }

  lemma ListedPeers(flows: seq<Flow>, isInput: bool, lists: map<Port, seq<Port>>, port: Port)
    requires ListsUpTo(flows, |flows|, isInput, lists)
    ensures port in lists <==> exists f :: f in flows && End(f, isInput) == port
    ensures port in lists ==> |lists[port]| > 0 && forall p :: p in lists[port] <==>
      exists f :: f in flows && End(f, isInput) == port && End(f, !isInput) == p
  {
    assert flows[..|flows|] == flows;
    var peers := Peers(flows, port, isInput);
    forall p ensures p in peers <==> exists f :: f in flows && End(f, isInput) == port && End(f, !isInput) == p {
      PeersAre(flows, port, isInput, p);
    }
    if port in lists {
      TimesHas(peers, |peers|);
      assert peers[0] in peers;
    } else {
      assert peers == [];
      assert forall f :: f in flows && End(f, isInput) == port ==> End(f, !isInput) in peers;
    }
  }

  lemma {:induction false} TimesHas(s: seq<Port>, n: nat)
    ensures forall p :: p in Times(s, n) <==> n > 0 && p in s
    ensures |Times(s, n)| == n * |s|
  {
    if n > 0 {
      TimesHas(s, n - 1);
    }
  }

  /** A port that some flow connects and whose crossing to its peers is not acceptable. */
  predicate NeedsCopier(a: Answers, flows: seq<Flow>, port: Port, isInput: bool) {
    var peers := Peers(flows, port, isInput);
    peers != [] && !Acceptable(a, port, peers, isInput)
  }

  /** A port needs a copier exactly if flows of it clash. */
  lemma NeedsExact(a: Answers, flows: seq<Flow>, port: Port, isInput: bool)
    ensures NeedsCopier(a, flows, port, isInput) <==> Misfit(a, flows, port, isInput)
  {
    var peers := Peers(flows, port, isInput);
    MisfitIsClash(a, flows, port, isInput);
    if peers != [] {
      AcceptableExact(a, port, peers, isInput);
    }
  }

  /** That the double loop lists peers more than once does not change the decision. */
  lemma RepeatsDoNotMatter(a: Answers, port: Port, peers: seq<Port>, isInput: bool)
    requires peers != []
    ensures var list := Times(peers, |peers|);
      |list| > 0 && (Acceptable(a, port, list, isInput) <==> Acceptable(a, port, peers, isInput))
  {
    var list := Times(peers, |peers|);
    TimesHas(peers, |peers|);
    assert |list| == 1 <==> |peers| == 1;
    assert peers[0] in peers && list[0] in list;
    hide Times;
    assert OneDomain(a, list, isInput) <==> OneDomain(a, peers, isInput);
    assert AllAbdicate(a, port, list, isInput) <==> AllAbdicate(a, port, peers, isInput);
  }

  lemma ListedNeeds(a: Answers, flows: seq<Flow>, isInput: bool, lists: map<Port, seq<Port>>, port: Port)
    requires ListsUpTo(flows, |flows|, isInput, lists)
    ensures (port in lists && |lists[port]| > 0 && !Acceptable(a, port, lists[port], isInput)) <==>
      NeedsCopier(a, flows, port, isInput)
  {
    assert flows[..|flows|] == flows;
    var peers := Peers(flows, port, isInput);
    hide Peers, Acceptable;
    if peers != [] {
      RepeatsDoNotMatter(a, port, peers, isInput);
    }
  }

  // ---------- copiers ----------

  /** The copiers of ports that need one, on the source side and on the destination side. */
  datatype Copiers = Copiers(src: map<Port, Uid>, dst: map<Port, Uid>)

  /** A destination's copier goes before a source's. */
  function CopierOf(c: Copiers, f: Flow): (r: set<Uid>)
    ensures |r| <= 1
  {
    if f.dst in c.dst then {c.dst[f.dst]} else if f.src in c.src then {c.src[f.src]} else {}
  }

  /** f is what becomes of g. */
  predicate Through(c: Copiers, g: Flow, f: Flow) {
    if CopierOf(c, g) == {} then f == g
    else exists u :: u in CopierOf(c, g) && f in {Flow(g.src, Port(u, PORT)), Flow(Port(u, PORT), g.dst)}
  }

  ghost predicate IsRectified(c: Copiers, flows: seq<Flow>, out: seq<Flow>) {
    forall f :: f in out <==> exists g :: g in flows && Through(c, g, f)
  }

  /** A block that is a copier. */
  predicate IsCopier(c: Copiers, u: Uid) {
    u in c.src.Values || u in c.dst.Values
  }

  /** No two ports share a copier, and no flow was connected to one before. */
  ghost predicate OwnCopiers(c: Copiers, flows: seq<Flow>) {
    && (forall p, q :: p in c.src && q in c.src && c.src[p] == c.src[q] ==> p == q)
    && (forall p, q :: p in c.dst && q in c.dst && c.dst[p] == c.dst[q] ==> p == q)
    && (forall p, q :: p in c.src && q in c.dst ==> c.src[p] != c.dst[q])
    && (forall f :: f in flows ==> !IsCopier(c, f.src.uid) && !IsCopier(c, f.dst.uid))
  }

  /** s feeds d in out, directly or through one copier. */
  ghost predicate CarriesOver(c: Copiers, out: seq<Flow>, s: Port, d: Port) {
    Flow(s, d) in out || exists u :: IsCopier(c, u) && Flow(s, Port(u, PORT)) in out && Flow(Port(u, PORT), d) in out
  }

  lemma CopierIs(c: Copiers, f: Flow, u: Uid)
    requires u in CopierOf(c, f)
    ensures IsCopier(c, u) && CopierOf(c, f) == {u}
    ensures (f.dst in c.dst && c.dst[f.dst] == u) || (f.src in c.src && c.src[f.src] == u)
  {
  }

  lemma IntoCopier(c: Copiers, flows: seq<Flow>, out: seq<Flow>, s: Port, u: Uid) returns (g: Flow)
    requires IsRectified(c, flows, out) && OwnCopiers(c, flows) && IsCopier(c, u) && !IsCopier(c, s.uid) &&
      Flow(s, Port(u, PORT)) in out
    ensures g in flows && g.src == s && u in CopierOf(c, g)
  {
    g :| g in flows && Through(c, g, Flow(s, Port(u, PORT)));
    if CopierOf(c, g) != {} {
      var v :| v in CopierOf(c, g) &&
        Flow(s, Port(u, PORT)) in {Flow(g.src, Port(v, PORT)), Flow(Port(v, PORT), g.dst)};
      CopierIs(c, g, v);
    }
  }

  lemma OutOfCopier(c: Copiers, flows: seq<Flow>, out: seq<Flow>, u: Uid, d: Port) returns (g: Flow)
    requires IsRectified(c, flows, out) && OwnCopiers(c, flows) && IsCopier(c, u) && !IsCopier(c, d.uid) &&
      Flow(Port(u, PORT), d) in out
    ensures g in flows && g.dst == d && u in CopierOf(c, g)
  {
    g :| g in flows && Through(c, g, Flow(Port(u, PORT), d));
    if CopierOf(c, g) != {} {
      var v :| v in CopierOf(c, g) &&
        Flow(Port(u, PORT), d) in {Flow(g.src, Port(v, PORT)), Flow(Port(v, PORT), g.dst)};
      CopierIs(c, g, v);
    }
  }

  /** Flows that share a copier share the port that it belongs to. */
  lemma SharedCopier(c: Copiers, flows: seq<Flow>, g: Flow, h: Flow, u: Uid)
    requires OwnCopiers(c, flows) && g in flows && h in flows && u in CopierOf(c, g) && u in CopierOf(c, h)
    ensures g.dst == h.dst || g.src == h.src
  {
    CopierIs(c, g, u);
    CopierIs(c, h, u);
  }

  lemma NotCopied(c: Copiers, g: Flow, f: Flow)
    requires Through(c, g, f) && !IsCopier(c, f.src.uid) && !IsCopier(c, f.dst.uid)
    ensures g == f
  {
    if u :| u in CopierOf(c, g) {
      CopierIs(c, g, u);
    }
  }

  /** Contracting every copier gives back exactly the flows. */
  lemma DomainPreserves(c: Copiers, flows: seq<Flow>, out: seq<Flow>, s: Port, d: Port)
    requires IsRectified(c, flows, out) && OwnCopiers(c, flows) && !IsCopier(c, s.uid) && !IsCopier(c, d.uid)
    ensures CarriesOver(c, out, s, d) <==> Flow(s, d) in flows
  {
    var f := Flow(s, d);
    if f in flows {
      if CopierOf(c, f) == {} {
        assert Through(c, f, f);
      } else {
        var u :| u in CopierOf(c, f);
        CopierIs(c, f, u);
        assert Through(c, f, Flow(s, Port(u, PORT))) && Through(c, f, Flow(Port(u, PORT), d));
      }
    }
    if f in out {
      var g :| g in flows && Through(c, g, f);
      NotCopied(c, g, f);
    }
    if u :| IsCopier(c, u) && Flow(s, Port(u, PORT)) in out && Flow(Port(u, PORT), d) in out {
      var g := IntoCopier(c, flows, out, s, u);
      var h := OutOfCopier(c, flows, out, u, d);
      SharedCopier(c, flows, g, h, u);
    }
  }

  // ---------- rectifyDomainFlows ----------

  /** The copier of every port of one side that needs one, in the process of the port. */
  ghost predicate Inspected(a: Answers, where: map<Uid, Pid>, lists: map<Port, seq<Port>>, isInput: bool,
      copiers: map<Port, Uid>, where': map<Uid, Pid>, first: Uid, next: Uid) {
    && (forall p :: p in copiers <==> p in lists && |lists[p]| > 0 && !Acceptable(a, p, lists[p], isInput))
    && (forall p :: p in copiers ==>
      p.uid in where && copiers[p] in where' && where'[copiers[p]] == where[p.uid] && first <= copiers[p] < next)
    && (forall p, q :: p in copiers && q in copiers && copiers[p] == copiers[q] ==> p == q)
  }

  /** domainInspection */
  method InspectDomains(a: Answers, where: map<Uid, Pid>, first: Uid, lists: map<Port, seq<Port>>, isInput: bool)
    returns (copiers: map<Port, Uid>, where': map<Uid, Pid>, next: Uid)
    requires forall p :: p in lists ==> p.uid in where && |lists[p]| > 0
    requires forall u :: u in where ==> u < first
    ensures Inspected(a, where, lists, isInput, copiers, where', first, next) && Extends(where, where')
    ensures first <= next && forall u :: u in where' ==> u < next
  {
    copiers, where', next := map[], where, first;
    var keys := lists.Keys;
    while keys != {}
      invariant keys <= lists.Keys && first <= next && Extends(where, where') && forall u :: u in where' ==> u < next
      invariant forall p :: p in copiers <==> p in lists && p !in keys && !Acceptable(a, p, lists[p], isInput)
      invariant forall p :: p in copiers ==>
        copiers[p] in where' && where'[copiers[p]] == where[p.uid] && first <= copiers[p] < next
      invariant forall p, q :: p in copiers && q in copiers && copiers[p] == copiers[q] ==> p == q
      decreases |keys|
    {
      var k :| k in keys;
      keys := keys - {k};
      var ok := IsDomainCrossingAcceptable(a, k, lists[k], isInput);
      hide Acceptable;
      if !ok {
        copiers := copiers[k := next];
        where' := where'[next := where[k.uid]];
        next := next + 1;
      }
    }
  }

  /** No flow is connected to a copier. */
  ghost predicate NoneCopied(c: Copiers, flows: seq<Flow>) {
    forall f :: f in flows ==> !IsCopier(c, f.src.uid) && !IsCopier(c, f.dst.uid)
  }

  lemma NotYetStraight(c: Copiers, flows: seq<Flow>, i: nat, out: seq<Flow>)
    requires i < |flows| && forall f :: f in out ==> exists j :: 0 <= j < i && Through(c, flows[j], f)
    ensures NoRepeats(flows) && NoneCopied(c, flows) ==> flows[i] !in out
  {
    if NoRepeats(flows) && NoneCopied(c, flows) && flows[i] in out {
      var j :| 0 <= j < i && Through(c, flows[j], flows[i]);
      NotCopied(c, flows[j], flows[i]);
      assert false;
    }
  }

  /** The last loop of rectifyDomainFlows. */
  method InsertCopiers(flows: seq<Flow>, c: Copiers) returns (out: seq<Flow>)
    ensures IsRectified(c, flows, out)
    ensures c == Copiers(map[], map[]) ==> out == flows
    ensures NoRepeats(flows) && NoneCopied(c, flows) ==> NoRepeats(out)
  {
    out := [];
    var i := 0;
    while i < |flows|
      invariant 0 <= i <= |flows|
      invariant forall f :: f in out <==> exists j :: 0 <= j < i && Through(c, flows[j], f)
      invariant c == Copiers(map[], map[]) ==> out == flows[..i]
      invariant NoRepeats(flows) && NoneCopied(c, flows) ==> NoRepeats(out)
    {
      var flow := flows[i];
      NotYetStraight(c, flows, i, out);
      if flow.dst in c.dst || flow.src in c.src {
        var copier := if flow.dst in c.dst then c.dst[flow.dst] else c.src[flow.src];
        assert CopierOf(c, flow) == {copier};
        var srcFlow, dstFlow := Flow(flow.src, Port(copier, PORT)), Flow(Port(copier, PORT), flow.dst);
        if srcFlow !in out { out := out + [srcFlow]; }
        if dstFlow !in out { out := out + [dstFlow]; }
        assert forall f :: Through(c, flow, f) <==> f in {srcFlow, dstFlow};
      } else {
        out := out + [flow];
        assert forall f :: Through(c, flow, f) <==> f == flow;
      }
      hide Through;
      i := i + 1;
    }
    hide Through;
  }

  /** Contracting every copier of out gives back exactly the flows. */
  ghost predicate CopiersKeep(c: Copiers, flows: seq<Flow>, out: seq<Flow>) {
    forall s: Port, d: Port :: !IsCopier(c, s.uid) && !IsCopier(c, d.uid) ==>
      (CarriesOver(c, out, s, d) <==> Flow(s, d) in flows)
  }

  ghost predicate CopiersFrom(c: Copiers, first: Uid) {
    forall u: Uid :: IsCopier(c, u) ==> first <= u
  }

  lemma DomainIsLocal(where: map<Uid, Pid>, where': map<Uid, Pid>, c: Copiers, flows: seq<Flow>, out: seq<Flow>,
      f: Flow)
    requires IsRectified(c, flows, out) && Local(where, flows) && Extends(where, where') && f in out
    requires forall p :: p in c.src ==> p.uid in where && c.src[p] in where' && where'[c.src[p]] == where[p.uid]
    requires forall p :: p in c.dst ==> p.uid in where && c.dst[p] in where' && where'[c.dst[p]] == where[p.uid]
    ensures f.src.uid in where' && f.dst.uid in where' && where'[f.src.uid] == where'[f.dst.uid]
  {
    var g :| g in flows && Through(c, g, f);
    if u :| u in CopierOf(c, g) {
      CopierIs(c, g, u);
    }
  }

  /** rectifyDomainFlows on flows within processes: the same connections, still within processes. */
  method RectifyDomainFlows(a: Answers, where: map<Uid, Pid>, first: Uid, flows: seq<Flow>)
    returns (out: seq<Flow>, where': map<Uid, Pid>, next: Uid, c: Copiers)
    requires Local(where, flows) && Below(where, first)
    ensures Local(where', out) && Extends(where, where') && Below(where', next)
    ensures CopiersFrom(c, first) && CopiersKeep(c, flows, out)
    ensures CopiersWhereNeeded(a, flows, c) && IsRectified(c, flows, out)
    ensures forall p :: p in c.src <==> SourceClashes(a, flows, p)
    ensures forall p :: p in c.dst <==> DestinationClashes(a, flows, p)
    ensures forall f :: f in flows ==> Routed(c, f, out)
    ensures AllServe(a, flows) ==> out == flows && c == Copiers(map[], map[])
    ensures NoRepeats(flows) ==> NoRepeats(out)
  {
    hide NoRepeats, NoneCopied, AllServe, SourceClashes, DestinationClashes, Routed, CopiersWhereNeeded;
    hide IsRectified, OwnCopiers;
    var srcs := ListPeers(flows, false);
    var dsts := ListPeers(flows, true);
    forall p ensures p in srcs ==> p.uid in where && |srcs[p]| > 0 { ListedPeers(flows, false, srcs, p); }
    forall p ensures p in dsts ==> p.uid in where && |dsts[p]| > 0 { ListedPeers(flows, true, dsts, p); }
    hide ListsUpTo;
    var sc, where1, next1 := InspectDomains(a, where, first, srcs, false);
    assert forall p :: p in dsts ==> where1[p.uid] == where[p.uid];
    var dc;
    dc, where', next := InspectDomains(a, where1, next1, dsts, true);
    c := Copiers(sc, dc);
    out := InsertCopiers(flows, c);
    TwoInspections(a, where, where1, where', srcs, dsts, c, flows, first, next1, next);
    hide *;
    Needed(a, flows, srcs, dsts, c, where, where1, where', first, next1, next);
    forall f | f in out ensures f.src.uid in where' && f.dst.uid in where' && where'[f.src.uid] == where'[f.dst.uid] {
      DomainIsLocal(where, where', c, flows, out, f);
    }
    assert Local(where', out);
    AllPreserved(c, flows, out);
    ServedNeedNone(a, flows, c);
    MisfitsCopied(a, flows, c);
    RoutedAll(c, flows, out);
    OwnNoneCopied(c, flows);
  }

  lemma OwnNoneCopied(c: Copiers, flows: seq<Flow>)
    requires OwnCopiers(c, flows)
    ensures NoneCopied(c, flows)
  {
  }

  lemma MisfitsCopied(a: Answers, flows: seq<Flow>, c: Copiers)
    requires CopiersWhereNeeded(a, flows, c)
    ensures forall p :: p in c.src <==> SourceClashes(a, flows, p)
    ensures forall p :: p in c.dst <==> DestinationClashes(a, flows, p)
  {
    hide NeedsCopier, Misfit, SourceClashes, DestinationClashes;
    forall p
      ensures (p in c.src <==> SourceClashes(a, flows, p)) && (p in c.dst <==> DestinationClashes(a, flows, p))
    {
      NeedsExact(a, flows, p, false);
      NeedsExact(a, flows, p, true);
      MisfitBySide(a, flows, p);
    }
  }

  lemma ServedNeedNone(a: Answers, flows: seq<Flow>, c: Copiers)
    requires CopiersWhereNeeded(a, flows, c)
    ensures AllServe(a, flows) ==> c == Copiers(map[], map[])
  {
    MisfitsCopied(a, flows, c);
    hide CopiersWhereNeeded;
    if AllServe(a, flows) {
      forall p ensures !SourceClashes(a, flows, p) && !DestinationClashes(a, flows, p) {
      }
      assert c.src.Keys == {} && c.dst.Keys == {};
    }
  }

  /** The flow goes through the copier of its destination, else of its source, else straight. */
  predicate Routed(c: Copiers, f: Flow, out: seq<Flow>) {
    if f.dst in c.dst then
      Flow(f.src, Port(c.dst[f.dst], PORT)) in out && Flow(Port(c.dst[f.dst], PORT), f.dst) in out
    else if f.src in c.src then
      Flow(f.src, Port(c.src[f.src], PORT)) in out && Flow(Port(c.src[f.src], PORT), f.dst) in out
    else f in out
  }

  lemma RoutedAll(c: Copiers, flows: seq<Flow>, out: seq<Flow>)
    requires IsRectified(c, flows, out)
    ensures forall f :: f in flows ==> Routed(c, f, out)
  {
    forall f | f in flows ensures Routed(c, f, out) {
      if u :| u in CopierOf(c, f) {
        CopierIs(c, f, u);
        assert Through(c, f, Flow(f.src, Port(u, PORT))) && Through(c, f, Flow(Port(u, PORT), f.dst));
      } else {
        assert Through(c, f, f);
      }
    }
  }

  /** Every port abdicates, and the other ends of each port's flows are in one domain. */
  predicate AllServe(a: Answers, flows: seq<Flow>) {
    && (forall i :: 0 <= i < |flows| ==>
          && a.mode(flows[i].src, a.domain(flows[i].dst, true), false) == Abdicate
          && a.mode(flows[i].dst, a.domain(flows[i].src, false), true) == Abdicate)
    && forall i, j :: 0 <= i < |flows| && 0 <= j < |flows| ==>
         && (flows[i].src == flows[j].src ==> a.domain(flows[i].dst, true) == a.domain(flows[j].dst, true))
         && (flows[i].dst == flows[j].dst ==> a.domain(flows[i].src, false) == a.domain(flows[j].src, false))
  }

  /** Exactly the ports whose crossing is not acceptable have a copier. */
  ghost predicate CopiersWhereNeeded(a: Answers, flows: seq<Flow>, c: Copiers) {
    forall p :: (p in c.src <==> NeedsCopier(a, flows, p, false)) && (p in c.dst <==> NeedsCopier(a, flows, p, true))
  }

  lemma Needed(a: Answers, flows: seq<Flow>, srcs: map<Port, seq<Port>>, dsts: map<Port, seq<Port>>, c: Copiers,
      where: map<Uid, Pid>, where1: map<Uid, Pid>, where2: map<Uid, Pid>, first: Uid, next1: Uid, next: Uid)
    requires ListsUpTo(flows, |flows|, false, srcs) && ListsUpTo(flows, |flows|, true, dsts)
    requires Inspected(a, where, srcs, false, c.src, where1, first, next1) &&
      Inspected(a, where1, dsts, true, c.dst, where2, next1, next)
    ensures CopiersWhereNeeded(a, flows, c)
  {
    hide ListsUpTo, Acceptable, NeedsCopier;
    forall p ensures (p in c.src <==> NeedsCopier(a, flows, p, false)) &&
      (p in c.dst <==> NeedsCopier(a, flows, p, true)) {
      ListedNeeds(a, flows, false, srcs, p);
      ListedNeeds(a, flows, true, dsts, p);
    }
  }

  lemma AllPreserved(c: Copiers, flows: seq<Flow>, out: seq<Flow>)
    requires IsRectified(c, flows, out) && OwnCopiers(c, flows)
    ensures CopiersKeep(c, flows, out)
  {
    hide CarriesOver, IsRectified, OwnCopiers, IsCopier;
    forall s: Port, d: Port | !IsCopier(c, s.uid) && !IsCopier(c, d.uid)
      ensures CarriesOver(c, out, s, d) <==> Flow(s, d) in flows {
      DomainPreserves(c, flows, out, s, d);
    }
  }

  lemma TwoInspections(a: Answers, where: map<Uid, Pid>, where1: map<Uid, Pid>, where': map<Uid, Pid>, srcs: map<Port,
      seq<Port>>, dsts: map<Port, seq<Port>>, c: Copiers, flows: seq<Flow>, first: Uid, next1: Uid, next: Uid)
    requires Local(where, flows) && (forall u :: u in where ==> u < first) && first <= next1 <= next
    requires Inspected(a, where, srcs, false, c.src, where1, first, next1) && Extends(where, where1)
    requires Inspected(a, where1, dsts, true, c.dst, where', next1, next) && Extends(where1, where')
    requires forall p :: p in dsts ==> p.uid in where
    ensures OwnCopiers(c, flows) && Extends(where, where')
    ensures CopiersFrom(c, first)
    ensures forall p :: p in c.src ==> p.uid in where && c.src[p] in where' && where'[c.src[p]] == where[p.uid]
    ensures forall p :: p in c.dst ==> p.uid in where && c.dst[p] in where' && where'[c.dst[p]] == where[p.uid]
  {
    hide Acceptable;
    assert Extends(where, where');
    NotThere(where, flows, c, first);
    hide OwnCopiers, Local;
    OneEach(a, where, where1, where', srcs, dsts, c, flows, first, next1, next);
  }

  lemma OneEach(a: Answers, where: map<Uid, Pid>, where1: map<Uid, Pid>, where': map<Uid, Pid>, srcs: map<Port,
      seq<Port>>, dsts: map<Port, seq<Port>>, c: Copiers, flows: seq<Flow>, first: Uid, next1: Uid, next: Uid)
    requires Inspected(a, where, srcs, false, c.src, where1, first, next1)
    requires Inspected(a, where1, dsts, true, c.dst, where', next1, next)
    requires forall f :: f in flows ==> !IsCopier(c, f.src.uid) && !IsCopier(c, f.dst.uid)
    ensures OwnCopiers(c, flows)
  {
    hide Acceptable, IsCopier;
  }

  /** Copiers are made later than every block that is there. */
  lemma NotThere(where: map<Uid, Pid>, flows: seq<Flow>, c: Copiers, first: Uid)
    requires Local(where, flows) && (forall u :: u in where ==> u < first) && CopiersFrom(c, first)
    ensures forall f :: f in flows ==> !IsCopier(c, f.src.uid) && !IsCopier(c, f.dst.uid)
  {
    hide IsCopier;
  }

  // ---------- both passes ----------

  /** s feeds d in out: directly or over one network pair, and any of these links through a copier. */
  ghost predicate Feeds(cache: map<Port, NetPair>, c: Copiers, out: seq<Flow>, s: Port, d: Port) {
    || CarriesOver(c, out, s, d)
    || exists k ::
         && k in cache
         && CarriesOver(c, out, s, Port(cache[k].sink, PORT))
         && CarriesOver(c, out, Port(cache[k].source, PORT), d)
  }

  lemma FeedsIsFlow(cache: map<Port, NetPair>, c: Copiers, mid: seq<Flow>, out: seq<Flow>, limit: Uid, s: Port, d: Port)
    requires CopiersKeep(c, mid, out) && CopiersFrom(c, limit) && PairsBelow(cache, limit) && s.uid < limit &&
      d.uid < limit
    ensures Feeds(cache, c, out, s, d) <==> Carries(cache, mid, s, d)
  {
    hide CarriesOver, IsCopier;
    forall k | k in cache
      ensures CarriesOver(c, out, s, Port(cache[k].sink, PORT)) <==> Flow(s, Port(cache[k].sink, PORT)) in mid
      ensures CarriesOver(c, out, Port(cache[k].source, PORT), d) <==> Flow(Port(cache[k].source, PORT), d) in mid
    {
    }
  }

  /** s feeds d, among the blocks of the caller, exactly when a flow says so. */
  ghost predicate RewriteKeeps(cache: map<Port, NetPair>, c: Copiers, flows: seq<Flow>, out: seq<Flow>, limit: Uid) {
    forall s: Port, d: Port :: s.uid < limit && d.uid < limit && !IsNet(cache, s.uid) && !IsNet(cache, d.uid) ==>
      (Feeds(cache, c, out, s, d) <==> Flow(s, d) in flows)
  }

  lemma BothPreserve(where: map<Uid, Pid>, cache: map<Port, NetPair>, flows: seq<Flow>, mid: seq<Flow>, c: Copiers,
      out: seq<Flow>, limit: Uid)
    requires IsNetworked(where, cache, flows, mid) && Separate(cache) && Apart(cache, flows) && Located(where, flows)
    requires CopiersKeep(c, mid, out) && CopiersFrom(c, limit) && PairsBelow(cache, limit)
    ensures RewriteKeeps(cache, c, flows, out, limit)
  {
    hide IsNetworked, Separate, Apart, Located, CopiersKeep, CopiersFrom, PairsBelow, Carries, Feeds, IsNet;
    forall s: Port, d: Port | s.uid < limit && d.uid < limit && !IsNet(cache, s.uid) && !IsNet(cache, d.uid)
      ensures Feeds(cache, c, out, s, d) <==> Flow(s, d) in flows
    {
      FeedsIsFlow(cache, c, mid, out, limit, s, d);
      NetworkPreserves(where, cache, flows, mid, s, d);
    }
  }

  /**
    The two rewriting passes of commit and the pruning at its end: every flow that comes out stays in
    one process, and contracting copiers and network pairs gives back exactly the flows that went in.
   */
  method RewriteFlows(impl: Impl, a: Answers, flows: seq<Flow>) returns (out: seq<Flow>, c: Copiers, ghost limit: Uid)
    modifies impl
    requires impl.Valid() && Located(impl.where, flows) && Apart(impl.cache, flows)
    ensures impl.Valid() && Local(impl.where, out) && Extends(old(impl.where), impl.where)
    ensures old(impl.next) <= limit && RewriteKeeps(impl.cache, c, flows, out, limit)
    ensures NoRepeats(flows) ==> NoRepeats(out)
  {
    hide *;
    var mid := impl.CreateNetworkFlows(flows);
    ghost var where1, cache1 := impl.where, impl.cache;
    limit := impl.next;
    impl.ValidFacts();
    var where', next;
    out, where', next, c := RectifyDomainFlows(a, impl.where, impl.next, mid);
    impl.Adopt(where', next);
    NetworkedExtends(where1, where', cache1, flows, mid);
    ExtendsTransitive(old(impl.where), where1, where');
    impl.Prune(flows);
    impl.ValidFacts();
    KeepsPairs(where', cache1, impl.cache, flows);
    PrunedStillNetworked(where', cache1, impl.cache, flows, mid);
    PrunedBelow(cache1, impl.cache, flows, limit);
    BothPreserve(where', impl.cache, flows, mid, c, out, limit);
  }
}
