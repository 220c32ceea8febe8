/**
  topologySubCommit (lib/Framework/TopologyCommit.cpp), getObjSetFromFlowList
  (lib/Framework/TopologyImpl.hpp), connect's refusal of a flow twice (lib/Framework/Topology.cpp) and
  the subscriber lists of lib/Framework/WorkerActor.cpp, for blocks owned by one topology. The calls
  that the source spawns together are made in the order of the list.
 */
module SubCommit {
  import opened NetworkFlows
  import opened Values

  // ---------- lists of subscribers ----------

  type Lists = map<Port, seq<Port>>

  function ListOf(lists: Lists, p: Port): seq<Port> {
    if p in lists then lists[p] else []
  }

  function IndexOf(s: seq<Port>, x: Port): (i: nat)
    requires x in s
    ensures i < |s| && s[i] == x && x !in s[..i]
  {
    if s[0] == x then 0 else 1 + IndexOf(s[1..], x)
  }

  function Without(s: seq<Port>, x: Port): seq<Port>
    requires x in s
  {
    var i := IndexOf(s, x);
    s[..i] + s[i + 1..]
  }

  /** subscribeInput and subscribeOutput: false stands for the error that the source throws. */
  method Subscribe(add: bool, lists: Lists, me: Port, other: Port) returns (ok: bool, r: Lists)
    ensures ok <==> (other in ListOf(lists, me)) != add
    ensures !ok ==> r == lists
    ensures ok ==> r == lists[me := if add then ListOf(lists, me) + [other] else Without(ListOf(lists, me), other)]
  {
    var subscribers := ListOf(lists, me);
    var found := other in subscribers;
    if found == add { return false, lists; }
    ok, r := true, lists[me := if add then subscribers + [other] else Without(subscribers, other)];
  }

  lemma {:induction false} WithoutHas(s: seq<Port>, x: Port, y: Port)
    requires x in s && NoRepeats(s)
    ensures NoRepeats(Without(s, x))
    ensures y in Without(s, x) <==> y in s && y != x
  {
    var i := IndexOf(s, x);
    var w := Without(s, x);
    assert forall j :: 0 <= j < |w| ==> w[j] == s[if j < i then j else j + 1];
    if y in s && y != x {
      var j :| 0 <= j < |s| && s[j] == y;
      assert w[if j < i then j else j - 1] == y;
    }
  }

  function Far(f: Flow, isInput: bool): Port {
    if isInput then f.src else f.dst
  }

  function Near(f: Flow, isInput: bool): Port {
    if isInput then f.dst else f.src
  }

  /** The lists of one side say exactly which flows are subscribed. */
  ghost predicate Mirrors(lists: Lists, flows: set<Flow>, isInput: bool) {
    && (forall p :: NoRepeats(ListOf(lists, p)))
    && (forall f: Flow :: f in flows <==> Far(f, isInput) in ListOf(lists, Near(f, isInput)))
  }

  /** Subscribing one flow on one side goes wrong exactly when it is there already, or not there. */
  lemma SubscribeMirrors(add: bool, lists: Lists, flows: set<Flow>, isInput: bool, f: Flow, r: Lists)
    requires Mirrors(lists, flows, isInput) && (f in flows) != add
    requires r == lists[Near(f, isInput) := if add then ListOf(lists,
      Near(f, isInput)) + [Far(f, isInput)] else Without(ListOf(lists, Near(f, isInput)), Far(f, isInput))]
    ensures Mirrors(r, if add then flows + {f} else flows - {f}, isInput)
  {
    var me, other := Near(f, isInput), Far(f, isInput);
    var list := ListOf(lists, me);
    forall y ensures y in ListOf(r, me) <==> if add then y in list || y == other else y in list && y != other {
      if !add { WithoutHas(list, other, y); }
    }
    assert NoRepeats(ListOf(r, me)) by {
      if !add { WithoutHas(list, other, other); }
    }
    hide Without, NoRepeats;
    forall p | p != me ensures ListOf(r, p) == ListOf(lists, p) {
    }
    forall g: Flow ensures g in (if add then flows + {f} else flows - {f}) <==>
      Far(g, isInput) in ListOf(r, Near(g, isInput)) {
      assert g == f <==> Near(g, isInput) == me && Far(g, isInput) == other;
      assert g in flows <==> Far(g, isInput) in ListOf(lists, Near(g, isInput));
    }
    forall p ensures NoRepeats(ListOf(r, p)) {
    }
  }

  // ---------- flows ----------

  function FlowSet(flows: seq<Flow>): set<Flow> {
    set f | f in flows
  }

  function Blocks(flows: seq<Flow>): set<Uid> {
    (set f | f in flows :: f.src.uid) + (set f | f in flows :: f.dst.uid)
  }

  /** The flows of one list that std::find does not find in the other. */
  method Missing(flows: seq<Flow>, others: seq<Flow>) returns (r: seq<Flow>)
    requires NoRepeats(flows)
    ensures forall f :: f in r <==> f in flows && f !in others
    ensures NoRepeats(r)
  {
    r := [];
    var i := 0;
    while i < |flows|
      invariant 0 <= i <= |flows|
      invariant forall f :: f in r <==> f in flows[..i] && f !in others
      invariant NoRepeats(r)
    {
      assert flows[i] !in flows[..i];
      if flows[i] !in others { r := r + [flows[i]]; }
      i := i + 1;
    }
  }

  /** getObjSetFromFlowList: the blocks of the flows, less those of the excluded flows. */
  method ObjSet(flows: seq<Flow>, excludes: seq<Flow>) returns (uniques: set<Uid>)
    ensures uniques == Blocks(flows) - Blocks(excludes)
  {
    uniques := {};
    var i := 0;
    while i < |flows|
      invariant 0 <= i <= |flows|
      invariant forall u :: u in uniques <==> exists j :: 0 <= j < i && u in {flows[j].src.uid, flows[j].dst.uid}
    {
      uniques := uniques + {flows[i].src.uid, flows[i].dst.uid};
      i := i + 1;
    }
    BlocksAre(flows);
    assert uniques == Blocks(flows);
    ghost var all := uniques;
    i := 0;
    while i < |excludes|
      invariant 0 <= i <= |excludes|
      invariant forall u :: u in uniques <==> u in all && forall j :: 0 <= j < i ==>
        u !in {excludes[j].src.uid, excludes[j].dst.uid}
    {
      uniques := uniques - {excludes[i].src.uid, excludes[i].dst.uid};
      i := i + 1;
    }
    BlocksAre(excludes);
  }

  lemma BlocksAre(flows: seq<Flow>)
    ensures forall u :: u in Blocks(flows) <==>
      exists j :: 0 <= j < |flows| && u in {flows[j].src.uid, flows[j].dst.uid}
  {
    forall j | 0 <= j < |flows| ensures flows[j].src.uid in Blocks(flows) && flows[j].dst.uid in Blocks(flows) {
      assert flows[j] in flows;
    }
  }

  class SubTopology {
    var flows: seq<Flow>
    var activeFlatFlows: seq<Flow>
    /** The subscriber list of every output port, and of every input port. */
    var ofOutput: Lists
    var ofInput: Lists
    var active: set<Uid>

    /** Subscriptions and active blocks are those of the active flows. */
    ghost predicate Valid()
      reads this
    {
      && NoRepeats(flows) && NoRepeats(activeFlatFlows)
      && Mirrors(ofOutput, FlowSet(activeFlatFlows), false)
      && Mirrors(ofInput, FlowSet(activeFlatFlows), true)
      && active == Blocks(activeFlatFlows)
    }

    constructor ()
      ensures Valid() && flows == [] && activeFlatFlows == []
    {
      flows, activeFlatFlows, ofOutput, ofInput, active := [], [], map[], map[], {};
    }

    /** connect: a flow that is there already is refused. */
    method Connect(flow: Flow) returns (ok: bool)
      modifies this`flows
      requires Valid()
      ensures Valid() && ok == (flow !in old(flows)) && flows == if ok then old(flows) + [flow] else old(flows)
    {
      ok := flow !in flows;
      if ok {
        flows := flows + [flow];
      }
    }

    method DisconnectAll()
      modifies this`flows
      requires Valid()
      ensures Valid() && flows == []
    {
      flows := [];
    }

    /** subscribePort: the source's list, and if that went well the destination's; both change, or neither. */
    method SubscribePort(flow: Flow, add: bool) returns (ok: bool)
      modifies this`ofOutput, this`ofInput
      ensures forall fs :: Mirrors(old(ofOutput), fs, false) && Mirrors(old(ofInput), fs, true) ==>
        var gs := if add then fs + {flow} else fs - {flow};
        (ok <==> (flow in fs) != add) && Mirrors(ofOutput, gs, false) && Mirrors(ofInput, gs, true)
    {
      var lists;
      ok, lists := Subscribe(add, ofOutput, flow.src, flow.dst);
      ofOutput := lists;
      if ok {
        ok, lists := Subscribe(add, ofInput, flow.dst, flow.src);
        ofInput := lists;
      }
      forall fs | Mirrors(old(ofOutput), fs, false) && Mirrors(old(ofInput), fs, true)
        ensures var gs := if add then fs + {flow} else fs - {flow};
          (ok <==> (flow in fs) != add) && Mirrors(ofOutput, gs, false) && Mirrors(ofInput, gs, true)
      {
        assert (flow in fs <==> flow.dst in ListOf(old(ofOutput), flow.src)) &&
          (flow in fs <==> flow.src in ListOf(old(ofInput), flow.dst)) by {
          assert Far(flow, false) == flow.dst && Near(flow, false) == flow.src && Far(flow, true) == flow.src &&
            Near(flow, true) == flow.dst;
        }
        hide Mirrors, Without;
        if (flow in fs) != add {
          SubscribeMirrors(add, old(ofOutput), fs, false, flow, ofOutput);
          SubscribeMirrors(add, old(ofInput), fs, true, flow, ofInput);
        } else {
          assert (if add then fs + {flow} else fs - {flow}) == fs;
        }
      }
    }

    /** updateFlows: every change is made, and no call fails exactly if all flows are new, or all there, each once. */
    method UpdateFlows(changes: seq<Flow>, add: bool, ghost fs: set<Flow>) returns (ok: bool)
      modifies this`ofOutput, this`ofInput
      requires Mirrors(ofOutput, fs, false) && Mirrors(ofInput, fs, true)
      ensures ok <==> NoRepeats(changes) && forall f :: f in changes ==> (f in fs) != add
      ensures var gs := if add then fs + FlowSet(changes) else fs - FlowSet(changes);
        Mirrors(ofOutput, gs, false) && Mirrors(ofInput, gs, true)
    {
      ok := true;
      ghost var gs := fs;
      var i := 0;
      hide Mirrors;
      while i < |changes|
        invariant 0 <= i <= |changes|
        invariant ok <==> NoRepeats(changes[..i]) && forall f :: f in changes[..i] ==> (f in fs) != add
        invariant gs == if add then fs + FlowSet(changes[..i]) else fs - FlowSet(changes[..i])
        invariant Mirrors(ofOutput, gs, false) && Mirrors(ofInput, gs, true)
      {
        var flow := changes[i];
        assert changes[..i + 1] == changes[..i] + [flow];
        OneMoreOnce(changes[..i], flow);
        hide NoRepeats;
        var done := SubscribePort(flow, add);
        ok := ok && done;
        gs := if add then gs + {flow} else gs - {flow};
        i := i + 1;
      }
      assert changes[..i] == changes;
    }

    /** topologySubCommit: after it, subscriptions and active blocks are those of the flows, and no call failed. */
    method Commit() returns (ok: bool, on: set<Uid>, off: set<Uid>)
      modifies this
      requires Valid()
      ensures Valid() && ok && flows == old(flows) && activeFlatFlows == flows
      ensures on == Blocks(flows) - old(active) && off == old(active) - Blocks(flows)
      ensures forall f: Flow :: f in flows <==> f.dst in ListOf(ofOutput, f.src)
      ensures forall f: Flow :: f in flows <==> f.src in ListOf(ofInput, f.dst)
    {
      hide Mirrors, NoRepeats, Blocks;
      var newFlows := Missing(flows, activeFlatFlows);
      var oldFlows := Missing(activeFlatFlows, flows);
      ghost var before := FlowSet(activeFlatFlows);
      FlowsMove(flows, activeFlatFlows, newFlows, oldFlows);
      var added := UpdateFlows(newFlows, true, before);
      var removed := UpdateFlows(oldFlows, false, before + FlowSet(newFlows));
      ok := added && removed;
      hide FlowSet;
      on := ObjSet(newFlows, activeFlatFlows);
      active := active + on;
      off := ObjSet(oldFlows, flows);
      BlocksMove(flows, activeFlatFlows, newFlows, oldFlows);
      activeFlatFlows := flows;
      active := active - off;
      MirroredBothWays(ofOutput, ofInput, flows);
    }
  }

  /** Every flow is in the list of its source port and in that of its destination port. */
  lemma MirroredBothWays(ofOutput: Lists, ofInput: Lists, flows: seq<Flow>)
    requires Mirrors(ofOutput, FlowSet(flows), false) && Mirrors(ofInput, FlowSet(flows), true)
    ensures forall f: Flow :: f in flows <==> f.dst in ListOf(ofOutput, f.src)
    ensures forall f: Flow :: f in flows <==> f.src in ListOf(ofInput, f.dst)
  {
    forall f: Flow
      ensures (f in flows <==> f.dst in ListOf(ofOutput, f.src)) && (f in flows <==> f.src in ListOf(ofInput, f.dst))
    {
      assert f in FlowSet(flows) <==> Far(f, false) in ListOf(ofOutput, Near(f, false));
      assert f in FlowSet(flows) <==> Far(f, true) in ListOf(ofInput, Near(f, true));
    }
  }

  lemma OneMoreOnce(flows: seq<Flow>, f: Flow)
    ensures NoRepeats(flows + [f]) <==> NoRepeats(flows) && f !in flows
  {
    var all := flows + [f];
    if NoRepeats(all) {
      forall i, j | 0 <= i < j < |flows| ensures flows[i] != flows[j] {
        assert all[i] != all[j];
      }
      forall i | 0 <= i < |flows| ensures flows[i] != f {
        assert all[i] != all[|flows|];
      }
    }
  }

  lemma FlowsMove(flows: seq<Flow>, active: seq<Flow>, newFlows: seq<Flow>, oldFlows: seq<Flow>)
    requires forall f :: f in newFlows <==> f in flows && f !in active
    requires forall f :: f in oldFlows <==> f in active && f !in flows
    ensures FlowSet(active) + FlowSet(newFlows) - FlowSet(oldFlows) == FlowSet(flows)
  {
  }

  lemma BlocksMove(flows: seq<Flow>, active: seq<Flow>, newFlows: seq<Flow>, oldFlows: seq<Flow>)
    requires forall f :: f in newFlows <==> f in flows && f !in active
    requires forall f :: f in oldFlows <==> f in active && f !in flows
    ensures Blocks(newFlows) - Blocks(active) == Blocks(flows) - Blocks(active)
    ensures Blocks(oldFlows) - Blocks(flows) == Blocks(active) - Blocks(flows)
  {
  }
}
