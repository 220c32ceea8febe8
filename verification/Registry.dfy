/**
  The plugin registry (lib/Plugin/Registry.cpp) in a single thread: a tree of named nodes, and event
  handlers that are plugins themselves. A handler's calls are recorded in a log. That a lookup makes
  the nodes it passes is modelled for remove; the nodes that other lookups make are empty and show nowhere.
 */
module Registry {
  import opened Values

  type Path = seq<string>

  /** A plugin's object; handles says that it is a call with the signature of an event handler. */
  datatype Obj = Obj(id: nat, handles: bool)
  datatype Entry = Entry(plugin: Option<Obj>, order: seq<string>, nodes: seq<Node>)
  datatype Node = Node(name: string, entry: Entry)
  const EMPTY := Entry(None, [], [])

  // ---------- the tree ----------

  /** Where the child of this name is; the number of nodes if there is none. */
  function IndexOf(nodes: seq<Node>, name: string): (i: nat)
    ensures i <= |nodes| && (i < |nodes| ==> nodes[i].name == name)
    ensures forall j :: 0 <= j < i ==> nodes[j].name != name
  {
    if nodes == [] then 0 else if nodes[0].name == name then 0 else 1 + IndexOf(nodes[1..], name)
  }

  function Child(e: Entry, name: string): Entry {
    var i := IndexOf(e.nodes, name);
    if i < |e.nodes| then e.nodes[i].entry else EMPTY
  }

  function SetChild(nodes: seq<Node>, name: string, c: Entry): seq<Node> {
    var i := IndexOf(nodes, name);
    if i < |nodes| then nodes[i := Node(name, c)] else nodes + [Node(name, c)]
  }

  lemma SetChildIs(e: Entry, name: string, c: Entry, other: string)
    ensures Child(e.(nodes := SetChild(e.nodes, name, c)), other) == if other == name then c else Child(e, other)
  {
    var nodes := SetChild(e.nodes, name, c);
    var i, j, k := IndexOf(e.nodes, name), IndexOf(e.nodes, other), IndexOf(nodes, other);
    if other == name {
      assert nodes[i].name == other;
      assert forall m :: 0 <= m < i ==> nodes[m].name == e.nodes[m].name;
      assert k == i;
    } else {
      assert forall m :: 0 <= m < |e.nodes| ==> nodes[m].name == e.nodes[m].name;
      assert forall m :: 0 <= m < |e.nodes| && m != i ==> nodes[m] == e.nodes[m];
      if j < |e.nodes| {
        assert nodes[j].name == other;
        assert k == j;
      } else {
        assert forall m :: 0 <= m < |nodes| ==> nodes[m].name != other;
        assert k == |nodes|;
      }
    }
  }

  function At(e: Entry, path: Path): Entry
    decreases |path|
  {
    if path == [] then e else At(Child(e, path[0]), path[1..])
  }

  function PluginAt(e: Entry, path: Path): Option<Obj> {
    At(e, path).plugin
  }

  /** The walk to a node and the change of its plugin; add also notes new names in order. */
  function Put(e: Entry, path: Path, plugin: Option<Obj>, note: bool): Entry
    decreases |path|
  {
    if path == [] then e.(plugin := plugin)
    else
      var order := if note && path[0] !in e.order then e.order + [path[0]] else e.order;
      Entry(e.plugin, order, SetChild(e.nodes, path[0], Put(Child(e, path[0]), path[1..], plugin, note)))
  }

  lemma {:induction false} PutAt(e: Entry, path: Path, plugin: Option<Obj>, note: bool, q: Path)
    ensures PluginAt(Put(e, path, plugin, note), q) == if q == path then plugin else PluginAt(e, q)
    decreases |path|
  {
    if path != [] && q != [] {
      var c := Put(Child(e, path[0]), path[1..], plugin, note);
      SetChildIs(e, path[0], c, q[0]);
      var changed := Put(e, path, plugin, note);
      assert Child(changed, q[0]) == if q[0] == path[0] then c else Child(e, q[0]);
      if q[0] == path[0] {
        PutAt(Child(e, path[0]), path[1..], plugin, note, q[1..]);
        assert q == [q[0]] + q[1..] && path == [path[0]] + path[1..];
      }
    }
  }

  // ---------- the order of names ----------

  function OrderAt(e: Entry, path: Path): seq<string> {
    At(e, path).order
  }

  predicate Below(h: Path, p: Path) {
    |h| < |p| && p[..|h|] == h
  }

  /** add appends one name to the order of every node above, unless it is there; nothing else changes. */
  lemma {:induction false} PutOrder(e: Entry, path: Path, plugin: Option<Obj>, note: bool, q: Path)
    ensures OrderAt(Put(e, path, plugin, note), q) ==
      if note && Below(q, path) && path[|q|] !in OrderAt(e, q) then OrderAt(e, q) + [path[|q|]] else OrderAt(e, q)
    decreases |path|
  {
    if path != [] && q != [] {
      var c := Put(Child(e, path[0]), path[1..], plugin, note);
      SetChildIs(e, path[0], c, q[0]);
      var changed := Put(e, path, plugin, note);
      assert Child(changed, q[0]) == if q[0] == path[0] then c else Child(e, q[0]);
      if q[0] == path[0] {
        PutOrder(Child(e, path[0]), path[1..], plugin, note, q[1..]);
      }
      BelowTail(q, path);
      hide Put, SetChild, Below, Child;
    }
  }

  lemma BelowTail(q: Path, path: Path)
    requires q != [] && path != []
    ensures Below(q, path) <==> q[0] == path[0] && Below(q[1..], path[1..])
  {
    if |q| < |path| {
      assert path[..|q|] == [path[0]] + path[1..][..|q| - 1];
      assert q == [q[0]] + q[1..];
    }
  }

  /** The names below q, each where an add first passed it. */
  function FirstInsertions(adds: seq<Path>, q: Path): seq<string> {
    if adds == [] then []
    else
      var before, p := FirstInsertions(adds[..|adds| - 1], q), adds[|adds| - 1];
      if Below(q, p) && p[|q|] !in before then before + [p[|q|]] else before
  }

  // ---------- counting plugins ----------

  /** getNumPlugins */
  function NumPlugins(e: Entry): nat
    decreases e
  {
    (if e.plugin.Some? then 1 else 0) + SumNodes(e, |e.nodes|)
  }

  function SumNodes(e: Entry, n: nat): nat
    requires n <= |e.nodes|
    decreases e, n
  {
    if n == 0 then 0 else SumNodes(e, n - 1) + NumPlugins(e.nodes[n - 1].entry)
  }

  /** Children have different names, names are noted once, and the name of every child with plugins is noted. */
  predicate WellFormed(e: Entry)
    decreases e
  {
    && (forall i, j :: 0 <= i < j < |e.nodes| ==> e.nodes[i].name != e.nodes[j].name)
    && NoRepeats(e.order)
    && forall i :: 0 <= i < |e.nodes| ==>
      WellFormed(e.nodes[i].entry) && (NumPlugins(e.nodes[i].entry) > 0 ==> e.nodes[i].name in e.order)
  }

  lemma {:induction false} SumAtLeast(e: Entry, n: nat, i: nat)
    requires i < n <= |e.nodes|
    ensures SumNodes(e, n) >= NumPlugins(e.nodes[i].entry)
  {
    if i < n - 1 {
      SumAtLeast(e, n - 1, i);
    }
  }

  lemma {:induction false} SumSome(e: Entry, n: nat) returns (i: nat)
    requires n <= |e.nodes| && SumNodes(e, n) > 0
    ensures i < n && NumPlugins(e.nodes[i].entry) > 0
  {
    if NumPlugins(e.nodes[n - 1].entry) > 0 {
      i := n - 1;
    } else {
      i := SumSome(e, n - 1);
    }
  }

  /** A plugin at or below a node is counted. */
  lemma {:induction false} Counted(e: Entry, path: Path)
    requires PluginAt(e, path).Some?
    ensures NumPlugins(e) > 0
    decreases |path|
  {
    if path != [] {
      Counted(Child(e, path[0]), path[1..]);
      var i := IndexOf(e.nodes, path[0]);
      if i < |e.nodes| {
        SumAtLeast(e, |e.nodes|, i);
      }
    }
  }

  /** What is counted is at or below the node. */
  lemma {:induction false} CountedSomewhere(e: Entry) returns (path: Path)
    requires WellFormed(e) && NumPlugins(e) > 0
    ensures PluginAt(e, path).Some?
    decreases e
  {
    if e.plugin.Some? {
      path := [];
    } else {
      var i := SumSome(e, |e.nodes|);
      var rest := CountedSomewhere(e.nodes[i].entry);
      path := [e.nodes[i].name] + rest;
      assert IndexOf(e.nodes, e.nodes[i].name) == i;
      assert path[1..] == rest;
    }
  }

  lemma {:induction false} PutWellFormed(e: Entry, path: Path, plugin: Option<Obj>, note: bool)
    requires WellFormed(e) && (plugin.Some? ==> note)
    ensures WellFormed(Put(e, path, plugin, note))
    decreases |path|
  {
    if path != [] {
      var name, was := path[0], Child(e, path[0]);
      var c := Put(was, path[1..], plugin, note);
      assert WellFormed(EMPTY);
      PutWellFormed(was, path[1..], plugin, note);
      var changed := Put(e, path, plugin, note);
      if NumPlugins(c) > 0 && !note {
        var q := CountedSomewhere(c);
        PutAt(was, path[1..], plugin, note, q);
        Counted(was, q);
      }
      SetChildKeeps(e, name, c, changed.order);
    }
  }

  lemma SetChildKeeps(e: Entry, name: string, c: Entry, order: seq<string>)
    requires WellFormed(e) && WellFormed(c) && NoRepeats(order) && (forall n :: n in e.order ==> n in order)
    requires NumPlugins(c) > 0 ==> name in order
    ensures WellFormed(Entry(e.plugin, order, SetChild(e.nodes, name, c)))
  {
    var nodes := SetChild(e.nodes, name, c);
    var i := IndexOf(e.nodes, name);
    SetChildNodes(e.nodes, name, c);
    hide NumPlugins, SetChild, IndexOf;
    forall j | 0 <= j < |nodes|
      ensures WellFormed(nodes[j].entry) && (NumPlugins(nodes[j].entry) > 0 ==> nodes[j].name in order)
    {
      if j != i {
        assert nodes[j] == e.nodes[j];
      }
    }
  }

  lemma SetChildNodes(nodes: seq<Node>, name: string, c: Entry)
    ensures var after, i := SetChild(nodes, name, c), IndexOf(nodes, name);
      forall j :: 0 <= j < |after| ==> if j == i then after[j] == Node(name, c) else j < |nodes| && after[j] == nodes[j]
    ensures (forall i, j :: 0 <= i < j < |nodes| ==> nodes[i].name != nodes[j].name) ==>
      var after := SetChild(nodes, name, c); forall i, j :: 0 <= i < j < |after| ==> after[i].name != after[j].name
  {
  }

  // ---------- listing ----------

  /** The first k noted names, less those of children without plugins. */
  function ListUpTo(e: Entry, k: nat): seq<string>
    requires k <= |e.order|
  {
    if k == 0 then []
    else ListUpTo(e, k - 1) + if NumPlugins(Child(e, e.order[k - 1])) != 0 then [e.order[k - 1]] else []
  }

  function ListOf(e: Entry): seq<string> {
    ListUpTo(e, |e.order|)
  }

  lemma {:induction false} ListHas(e: Entry, k: nat, name: string)
    requires k <= |e.order|
    ensures name in ListUpTo(e, k) <==> name in e.order[..k] && NumPlugins(Child(e, name)) != 0
  {
    if k > 0 {
      ListHas(e, k - 1, name);
      assert e.order[..k] == e.order[..k - 1] + [e.order[k - 1]];
    }
  }

  /** list names exactly the children that have a plugin at or below them. */
  lemma ListExact(e: Entry, name: string)
    requires WellFormed(e)
    ensures name in ListOf(e) <==> exists p :: PluginAt(e, [name] + p).Some?
  {
    ListHas(e, |e.order|, name);
    assert e.order[..|e.order|] == e.order;
    var c := Child(e, name);
    forall p ensures PluginAt(e, [name] + p) == PluginAt(c, p) {
      assert ([name] + p)[1..] == p;
    }
    hide PluginAt;
    if NumPlugins(c) != 0 {
      assert WellFormed(EMPTY);
      var p := CountedSomewhere(c);
      assert PluginAt(e, [name] + p).Some?;
    }
    forall p | PluginAt(c, p).Some? ensures NumPlugins(c) != 0 {
      Counted(c, p);
    }
  }

  // ---------- missed events ----------

  function Prefixed(name: string, ps: seq<Path>): seq<Path> {
    if ps == [] then [] else Prefixed(name, ps[..|ps| - 1]) + [[name] + ps[|ps| - 1]]
  }

  /** handleMissedSubTreeEvents: the plugins below a node, as it comes to them. */
  function MissedUpTo(e: Entry, k: nat): seq<Path>
    requires k <= |e.order|
    decreases e, k
  {
    if k == 0 then []
    else
      var i := IndexOf(e.nodes, e.order[k - 1]);
      MissedUpTo(e, k - 1) + if i < |e.nodes| then ChildMissed(e.order[k - 1], e.nodes[i].entry) else []
  }

  /** What one child contributes, if list names it. */
  function ChildMissed(name: string, c: Entry): seq<Path>
    decreases c, |c.order| + 1
  {
    if NumPlugins(c) != 0 then (if c.plugin.Some? then [[name]] else []) + Prefixed(name,
      MissedUpTo(c, |c.order|)) else []
  }

  function Missed(e: Entry): seq<Path> {
    MissedUpTo(e, |e.order|)
  }

  function Times(ps: seq<Path>, p: Path): nat {
    multiset(ps)[p]
  }

  lemma TimesSum(a: seq<Path>, b: seq<Path>, p: Path)
    ensures Times(a + b, p) == Times(a, p) + Times(b, p)
  {
  }

  lemma TimesOne(q: Path, p: Path)
    ensures Times([q], p) == if p == q then 1 else 0
  {
  }

  lemma PrefixedStep(name: string, init: seq<Path>, last: Path)
    ensures Prefixed(name, init + [last]) == Prefixed(name, init) + [[name] + last] && Prefixed(name, []) == []
  {
    assert (init + [last])[..|init|] == init;
  }

  lemma {:induction false} PrefixedTimes(name: string, ps: seq<Path>, p: Path)
    ensures Times(Prefixed(name, ps), p) == if p != [] && p[0] == name then Times(ps, p[1..]) else 0
  {
    hide Prefixed, Times;
    var tail := if p != [] then p[1..] else [];
    if ps == [] {
      PrefixedStep(name, [], []);
      TimesNone(p);
      TimesNone(tail);
    } else {
      var init, last := ps[..|ps| - 1], ps[|ps| - 1];
      assert ps == init + [last];
      PrefixedTimes(name, init, p);
      PrefixedStep(name, init, last);
      TimesSum(Prefixed(name, init), [[name] + last], p);
      TimesOne([name] + last, p);
      PathSplit(name, last, p);
      TimesSum(init, [last], tail);
      TimesOne(last, tail);
    }
  }

  lemma PathSplit(name: string, last: Path, p: Path)
    ensures p == [name] + last <==> p != [] && p[0] == name && p[1..] == last
  {
    assert ([name] + last)[1..] == last;
    if p != [] { assert p == [p[0]] + p[1..]; }
  }

  /** What is below a node that has a plugin there has its name noted. */
  lemma NotedBelow(e: Entry, p: Path)
    requires WellFormed(e) && p != [] && PluginAt(e, p).Some?
    ensures p[0] in e.order
  {
    Counted(Child(e, p[0]), p[1..]);
  }

  /** Every plugin strictly below c is missed once. */
  ghost predicate AllMissed(c: Entry) {
    forall q :: Times(Missed(c), q) == if q != [] && PluginAt(c, q).Some? then 1 else 0
  }

  /** Is p a plugin below one of the first k noted names? */
  function Due(e: Entry, k: nat, p: Path): nat
    requires k <= |e.order|
  {
    if p != [] && p[0] in e.order[..k] && PluginAt(e, p).Some? then 1 else 0
  }

  /** Is p a plugin at or below the child of this name? */
  function DueIn(name: string, c: Entry, p: Path): nat {
    if p != [] && p[0] == name && PluginAt(c, p[1..]).Some? then 1 else 0
  }

  lemma ChildTimes(name: string, c: Entry, p: Path)
    requires WellFormed(c) && AllMissed(c)
    ensures Times(ChildMissed(name, c), p) == DueIn(name, c, p)
  {
    if p != [] && PluginAt(c, p[1..]).Some? {
      Counted(c, p[1..]);
    }
    assert p != [] ==> Times(Missed(c), p[1..]) == if p[1..] != [] && PluginAt(c, p[1..]).Some? then 1 else 0;
    assert PluginAt(c, []) == c.plugin;
    var own := if c.plugin.Some? then [[name]] else [];
    assert ChildMissed(name, c) == if NumPlugins(c) != 0 then own + Prefixed(name, Missed(c)) else [];
    hide Missed, NumPlugins, Prefixed, PluginAt, Times, MissedUpTo, WellFormed, ChildMissed, AllMissed;
    PrefixedTimes(name, Missed(c), p);
    TimesSum(own, Prefixed(name, Missed(c)), p);
    TimesOne([name], p);
    TimesNone(p);
    if p != [] && p[0] == name {
      assert p == [name] + p[1..];
    }
  }

  lemma TimesNone(p: Path)
    ensures Times([], p) == 0
  {
  }

  lemma MissedNone(e: Entry, p: Path)
    ensures Times(MissedUpTo(e, 0), p) == Due(e, 0, p)
  {
    hide PluginAt;
  }

  lemma {:induction false} MissedTimes(e: Entry, k: nat, p: Path)
    requires WellFormed(e) && k <= |e.order|
    ensures Times(MissedUpTo(e, k), p) == Due(e, k, p)
    decreases e, k, 0
  {
    hide *;
    if k == 0 {
      MissedNone(e, p);
    } else {
      var name := e.order[k - 1];
      var i := IndexOf(e.nodes, name);
      MissedTimes(e, k - 1, p);
      if i < |e.nodes| {
        AllMissedIn(e, i);
        ChildTimes(name, e.nodes[i].entry, p);
      }
      MissedStep(e, k, p);
    }
  }

  lemma {:induction false} AllMissedIn(e: Entry, i: nat)
    requires WellFormed(e) && i < |e.nodes|
    ensures AllMissed(e.nodes[i].entry) && WellFormed(e.nodes[i].entry)
    decreases e, 0, 1
  {
    var c := e.nodes[i].entry;
    forall q ensures Times(Missed(c), q) == if q != [] && PluginAt(c, q).Some? then 1 else 0 {
      MissedTimes(c, |c.order|, q);
      hide MissedUpTo, Times;
      assert c.order[..|c.order|] == c.order;
      if q != [] && PluginAt(c, q).Some? { NotedBelow(c, q); }
    }
  }

  /** One more name. */
  lemma MissedStep(e: Entry, k: nat, p: Path)
    requires WellFormed(e) && 0 < k <= |e.order|
    requires Times(MissedUpTo(e, k - 1), p) == Due(e, k - 1, p)
    requires var i := IndexOf(e.nodes, e.order[k - 1]); i < |e.nodes| ==>
      Times(ChildMissed(e.order[k - 1], e.nodes[i].entry), p) == DueIn(e.order[k - 1], e.nodes[i].entry, p)
    ensures Times(MissedUpTo(e, k), p) == Due(e, k, p)
  {
    var name := e.order[k - 1];
    var i := IndexOf(e.nodes, name);
    var more := if i < |e.nodes| then ChildMissed(name, e.nodes[i].entry) else [];
    assert MissedUpTo(e, k) == MissedUpTo(e, k - 1) + more;
    DueStep(e, k, p);
    hide *;
    TimesSum(MissedUpTo(e, k - 1), more, p);
    TimesNone(p);
  }

  lemma DueStep(e: Entry, k: nat, p: Path)
    requires WellFormed(e) && 0 < k <= |e.order|
    ensures var i := IndexOf(e.nodes, e.order[k - 1]);
      Due(e, k, p) == Due(e, k - 1, p) + if i < |e.nodes| then DueIn(e.order[k - 1], e.nodes[i].entry, p) else 0
  {
    var name := e.order[k - 1];
    assert e.order[..k] == e.order[..k - 1] + [name] && name !in e.order[..k - 1];
    if p != [] && p[0] == name {
      PluginInChild(e, p);
    }
    hide WellFormed, PluginAt;
  }

  lemma PluginInChild(e: Entry, p: Path)
    requires p != []
    ensures var i := IndexOf(e.nodes, p[0]); PluginAt(e, p) == if i < |e.nodes| then PluginAt(e.nodes[i].entry,
      p[1..]) else None
  {
    EmptyHasNone(p[1..]);
  }

  lemma {:induction false} EmptyHasNone(p: Path)
    ensures PluginAt(EMPTY, p).None?
    decreases |p|
  {
    if p != [] {
      EmptyHasNone(p[1..]);
    }
  }

  /** Every plugin strictly below the node comes up once, and nothing else. */
  lemma MissedExact(e: Entry, p: Path)
    requires WellFormed(e)
    ensures Times(Missed(e), p) == if p != [] && PluginAt(e, p).Some? then 1 else 0
  {
    MissedTimes(e, |e.order|, p);
    assert e.order[..|e.order|] == e.order;
    if p != [] && PluginAt(e, p).Some? { NotedBelow(e, p); }
  }

  /** x is noted before y, or is y. */
  predicate NotedBefore(order: seq<string>, x: string, y: string) {
    exists i, j :: 0 <= i <= j < |order| && order[i] == x && order[j] == y
  }

  /** A node comes before what is below it. */
  predicate ParentsFirst(ps: seq<Path>) {
    forall i, j :: 0 <= i < j < |ps| ==> !Below(ps[j], ps[i])
  }

  /** Names come in the order in which they are noted. */
  predicate InOrderOf(order: seq<string>, ps: seq<Path>) {
    && (forall i :: 0 <= i < |ps| ==> ps[i] != [] && ps[i][0] in order)
    && forall i, j :: 0 <= i < j < |ps| ==> NotedBefore(order, ps[i][0], ps[j][0])
  }

  lemma {:induction false} PrefixedIs(name: string, ps: seq<Path>)
    ensures |Prefixed(name, ps)| == |ps| && forall i :: 0 <= i < |ps| ==> Prefixed(name, ps)[i] == [name] + ps[i]
  {
    if ps != [] {
      PrefixedIs(name, ps[..|ps| - 1]);
    }
  }

  lemma ChildMissedIs(name: string, c: Entry)
    ensures var own := if c.plugin.Some? then [[name]] else [];
      ChildMissed(name, c) == if NumPlugins(c) != 0 then own + Prefixed(name, Missed(c)) else []
  {
  }

  lemma ChildInOrder(name: string, c: Entry)
    requires ParentsFirst(Missed(c))
    ensures var ps := ChildMissed(name, c);
      ParentsFirst(ps) && forall i :: 0 <= i < |ps| ==> ps[i] != [] && ps[i][0] == name
  {
    hide ChildMissed, Missed, NumPlugins, Prefixed;
    var ps, below := ChildMissed(name, c), Missed(c);
    PrefixedIs(name, below);
    var own := if c.plugin.Some? then [[name]] else [];
    ChildMissedIs(name, c);
    forall i, j | 0 <= i < j < |ps| ensures !Below(ps[j], ps[i]) {
      if i >= |own| {
        assert ps[i] == [name] + below[i - |own|] && ps[j] == [name] + below[j - |own|];
        BelowTail(ps[j], ps[i]);
        assert ps[i][1..] == below[i - |own|] && ps[j][1..] == below[j - |own|];
      }
    }
  }

  lemma JoinInOrder(order: seq<string>, k: nat, a: seq<Path>, b: seq<Path>)
    requires k < |order| && NoRepeats(order) && ParentsFirst(a) && InOrderOf(order[..k], a)
    requires ParentsFirst(b) && forall i :: 0 <= i < |b| ==> b[i] != [] && b[i][0] == order[k]
    ensures ParentsFirst(a + b) && InOrderOf(order[..k + 1], a + b)
  {
    var ps, names := a + b, order[..k + 1];
    assert forall i :: 0 <= i < k ==> names[i] == order[..k][i];
    forall i | 0 <= i < |ps| ensures ps[i] != [] && ps[i][0] in names {
      if i >= |a| { assert names[k] == order[k]; }
    }
    forall i, j | 0 <= i < j < |ps| ensures NotedBefore(names, ps[i][0], ps[j][0]) && !Below(ps[j], ps[i]) {
      if j < |a| {
        assert NotedBefore(order[..k], a[i][0], a[j][0]);
        var m, n :| 0 <= m <= n < k && order[..k][m] == a[i][0] && order[..k][n] == a[j][0];
        assert names[m] == a[i][0] && names[n] == a[j][0];
      } else {
        assert names[k] == ps[j][0];
        if i < |a| {
          var m :| 0 <= m < k && order[m] == ps[i][0];
          assert names[m] == ps[i][0];
          if Below(ps[j], ps[i]) { BelowTail(ps[j], ps[i]); }
        }
      }
    }
  }

  /** What the k-th noted name contributes. */
  function MissedAt(e: Entry, k: nat): seq<Path>
    requires 0 < k <= |e.order|
  {
    var i := IndexOf(e.nodes, e.order[k - 1]);
    if i < |e.nodes| then ChildMissed(e.order[k - 1], e.nodes[i].entry) else []
  }

  lemma MissedUpToIs(e: Entry, k: nat)
    requires k <= |e.order|
    ensures MissedUpTo(e, k) == if k == 0 then [] else MissedUpTo(e, k - 1) + MissedAt(e, k)
  {
  }

  lemma NoneInOrder()
    ensures ParentsFirst([]) && InOrderOf([], [])
  {
  }

  lemma MissedAtInOrder(e: Entry, k: nat)
    requires 0 < k <= |e.order|
    requires var i := IndexOf(e.nodes, e.order[k - 1]);
      i < |e.nodes| ==> ParentsFirst(Missed(e.nodes[i].entry))
    ensures var ps := MissedAt(e, k);
      ParentsFirst(ps) && forall i :: 0 <= i < |ps| ==> ps[i] != [] && ps[i][0] == e.order[k - 1]
  {
    var i := IndexOf(e.nodes, e.order[k - 1]);
    hide ChildMissed, Missed;
    if i < |e.nodes| {
      ChildInOrder(e.order[k - 1], e.nodes[i].entry);
    }
  }

  lemma MissedOrderStep(e: Entry, k: nat)
    requires NoRepeats(e.order) && k <= |e.order|
    requires k > 0 ==> ParentsFirst(MissedUpTo(e, k - 1)) && InOrderOf(e.order[..k - 1], MissedUpTo(e, k - 1))
    requires k > 0 ==> var i := IndexOf(e.nodes, e.order[k - 1]);
      i < |e.nodes| ==> ParentsFirst(Missed(e.nodes[i].entry))
    ensures ParentsFirst(MissedUpTo(e, k)) && InOrderOf(e.order[..k], MissedUpTo(e, k))
  {
    hide *;
    MissedUpToIs(e, k);
    if k == 0 {
      NoneInOrder();
      assert e.order[..0] == [];
    } else {
      MissedAtInOrder(e, k);
      assert e.order[..k - 1 + 1] == e.order[..k];
      JoinInOrder(e.order, k - 1, MissedUpTo(e, k - 1), MissedAt(e, k));
    }
  }

  lemma OrderOnce(e: Entry)
    requires WellFormed(e)
    ensures NoRepeats(e.order)
  {
  }

  lemma ChildWellFormed(e: Entry, i: nat)
    requires WellFormed(e) && i < |e.nodes|
    ensures WellFormed(e.nodes[i].entry) && Missed(e.nodes[i].entry) == MissedUpTo(e.nodes[i].entry,
      |e.nodes[i].entry.order|)
  {
  }

  /** The recursion comes to a node before what is below it, and to children in the order of their first insertion. */
  lemma {:induction false} MissedInOrder(e: Entry, k: nat)
    requires WellFormed(e) && k <= |e.order|
    ensures ParentsFirst(MissedUpTo(e, k)) && InOrderOf(e.order[..k], MissedUpTo(e, k))
    decreases e, k
  {
    hide *;
    OrderOnce(e);
    if k > 0 {
      MissedInOrder(e, k - 1);
      var i := IndexOf(e.nodes, e.order[k - 1]);
      if i < |e.nodes| {
        var c := e.nodes[i].entry;
        ChildWellFormed(e, i);
        MissedInOrder(c, |c.order|);
      }
    }
    MissedOrderStep(e, k);
  }

  // ---------- events ----------

  /** A call of the handler at one path about the plugin at another. */
  datatype Event = Event(handler: Path, plugin: Path, add: bool)

  predicate HandlerAt(e: Entry, h: Path) {
    PluginAt(e, h).Some? && PluginAt(e, h).value.handles
  }

  /** Adds less removes that a handler was told of a plugin. */
  function Balance(log: seq<Event>, h: Path, p: Path): int {
    if log == [] then 0
    else
      var last := log[|log| - 1];
      Balance(log[..|log| - 1], h, p) + if last.handler == h &&
        last.plugin == p then (if last.add then 1 else -1) else 0
  }

  lemma {:induction false} BalanceSum(a: seq<Event>, b: seq<Event>, h: Path, p: Path)
    ensures Balance(a + b, h, p) == Balance(a, h, p) + Balance(b, h, p)
  {
    if b == [] {
      assert a + b == a;
    } else {
      assert (a + b)[..|a + b| - 1] == a + b[..|b| - 1];
      BalanceSum(a, b[..|b| - 1], h, p);
    }
  }

  /**
    handlePluginEvent: the handlers at the nodes above, the nearest first; of those, the ones at the first
    n lengths.
   */
  function Notices(e: Entry, path: Path, add: bool, n: nat): seq<Event>
    requires n <= |path|
  {
    if n == 0 then []
    else (if HandlerAt(e, path[..n - 1]) then [Event(path[..n - 1], path, add)] else []) + Notices(e, path, add, n - 1)
  }

  /** All calls of one event. An event of the root goes to the root's own plugin. */
  function AllNotices(e: Entry, path: Path, add: bool): seq<Event> {
    if path != [] then Notices(e, path, add, |path|) else if HandlerAt(e, []) then [Event([], [], add)] else []
  }

  lemma OneBalance(ev: Event, h: Path, p: Path)
    ensures Balance([ev], h, p) == if ev.handler == h && ev.plugin == p then (if ev.add then 1 else -1) else 0
  {
    assert [ev][..0] == [];
  }

  /** Every handler above is told once. */
  lemma {:induction false} NoticesBalance(e: Entry, path: Path, add: bool, n: nat, h: Path, p: Path)
    requires n <= |path|
    ensures Balance(Notices(e, path, add, n), h, p) ==
      if p == path && |h| < n && path[..|h|] == h && HandlerAt(e, h) then (if add then 1 else -1) else 0
  {
    if n > 0 {
      NoticesBalance(e, path, add, n - 1, h, p);
      var parent := path[..n - 1];
      var own := if HandlerAt(e, parent) then [Event(parent, path, add)] else [];
      assert Notices(e, path, add, n) == own + Notices(e, path, add, n - 1);
      hide Notices, Balance, HandlerAt;
      BalanceSum(own, Notices(e, path, add, n - 1), h, p);
      OneBalance(Event(parent, path, add), h, p);
    }
  }

  /** Every handler above is told once; so is a handler at the root, of itself. */
  lemma AllNoticesBalance(e: Entry, path: Path, add: bool, h: Path, p: Path)
    requires h != path
    ensures Balance(AllNotices(e, path, add), h, p) ==
      if p == path && Below(h, path) && HandlerAt(e, h) then (if add then 1 else -1) else 0
  {
    if path != [] {
      NoticesBalance(e, path, add, |path|, h, p);
    } else {
      OneBalance(Event([], [], add), h, p);
    }
  }

  /** Calls of handlers above, at fewer than n names, about this path; the nearest first. */
  predicate FromNearest(e: Entry, path: Path, add: bool, n: nat, calls: seq<Event>) {
    && (forall i :: 0 <= i < |calls| ==> IsNotice(e, path, add, calls[i]) && |calls[i].handler| < n)
    && forall i, j :: 0 <= i < j < |calls| ==> |calls[i].handler| > |calls[j].handler|
  }

  lemma NearerFirst(e: Entry, path: Path, add: bool, n: nat, ev: Event, calls: seq<Event>)
    requires FromNearest(e, path, add, n, calls)
    ensures FromNearest(e, path, add, n + 1, calls)
    ensures IsNotice(e, path, add, ev) && |ev.handler| == n ==> FromNearest(e, path, add, n + 1, [ev] + calls)
  {
    hide IsNotice;
  }

  /** The calls of one event go to handlers above, about this path, the nearest first. */
  lemma {:induction false} NoticesInOrder(e: Entry, path: Path, add: bool, n: nat)
    requires n <= |path|
    ensures FromNearest(e, path, add, n, Notices(e, path, add, n))
  {
    if n > 0 {
      var parent, rest := path[..n - 1], Notices(e, path, add, n - 1);
      NoticesInOrder(e, path, add, n - 1);
      assert HandlerAt(e, parent) ==> IsNotice(e, path, add, Event(parent, path, add));
      NearerFirst(e, path, add, n - 1, Event(parent, path, add), rest);
      assert Notices(e, path, add, n) == if HandlerAt(e, parent) then [Event(parent, path, add)] + rest else rest;
      hide HandlerAt, IsNotice, FromNearest, Notices;
    }
  }

  /** A call of a handler above about this path. */
  predicate IsNotice(e: Entry, path: Path, add: bool, ev: Event) {
    Below(ev.handler, path) && HandlerAt(e, ev.handler) && ev.plugin == path && ev.add == add
  }

  lemma {:induction false} MissedEventsAre(path: Path, missed: seq<Path>)
    ensures |MissedEvents(path, missed)| == |missed|
    ensures forall i :: 0 <= i < |missed| ==> MissedEvents(path, missed)[i] == Event(path, path + missed[i], true)
  {
    if missed != [] {
      MissedEventsAre(path, missed[..|missed| - 1]);
    }
  }

  /** The calls of a new handler about what was there before it. */
  function MissedEvents(path: Path, missed: seq<Path>): seq<Event> {
    if missed == [] then []
    else MissedEvents(path, missed[..|missed| - 1]) + [Event(path, path + missed[|missed| - 1], true)]
  }

  lemma {:induction false} MissedBalance(path: Path, missed: seq<Path>, h: Path, p: Path)
    ensures Balance(MissedEvents(path, missed), h, p) ==
      if h == path && |path| <= |p| && p[..|path|] == path then Times(missed, p[|path|..]) else 0
  {
    if missed == [] {
      if |path| <= |p| { TimesNone(p[|path|..]); }
    } else {
      var init, last := missed[..|missed| - 1], missed[|missed| - 1];
      MissedBalance(path, init, h, p);
      assert missed == init + [last];
      assert MissedEvents(path, missed) == MissedEvents(path, init) + [Event(path, path + last, true)];
      hide MissedEvents, Balance, Times;
      BalanceSum(MissedEvents(path, init), [Event(path, path + last, true)], h, p);
      OneBalance(Event(path, path + last, true), h, p);
      PathTail(path, last, p);
      if |path| <= |p| {
        TimesSum(init, [last], p[|path|..]);
        TimesOne(last, p[|path|..]);
      }
    }
  }

  lemma PathTail(path: Path, last: Path, p: Path)
    ensures path + last == p <==> |path| <= |p| && p[..|path|] == path && p[|path|..] == last
  {
    assert (path + last)[..|path|] == path && (path + last)[|path|..] == last;
    if |path| <= |p| { assert p == p[..|path|] + p[|path|..]; }
  }

  // ---------- the invariant ----------

  /**
    Since it was installed, a handler has one unmatched add for every plugin strictly below it, and for
    nothing else.
   */
  ghost predicate Told(root: Entry, log: seq<Event>, h: Path) {
    forall p :: Balance(log, h, p) == if Below(h, p) && PluginAt(root, p).Some? then 1 else 0
  }

  lemma {:induction false} AtJoin(e: Entry, a: Path, b: Path)
    ensures At(e, a + b) == At(At(e, a), b)
    decreases |a|
  {
    if a == [] {
      assert a + b == b;
    } else {
      assert (a + b)[1..] == a[1..] + b;
      AtJoin(Child(e, a[0]), a[1..], b);
    }
  }

  lemma {:induction false} WellFormedAt(e: Entry, path: Path)
    requires WellFormed(e)
    ensures WellFormed(At(e, path))
    decreases |path|
  {
    if path != [] {
      assert WellFormed(EMPTY);
      WellFormedAt(Child(e, path[0]), path[1..]);
    }
  }

  /** A handler that is told of what it missed has been told of everything below it. */
  lemma NewHandlerTold(root: Entry, path: Path)
    requires WellFormed(root)
    ensures Told(root, MissedEvents(path, Missed(At(root, path))), path)
  {
    var e := At(root, path);
    WellFormedAt(root, path);
    forall p ensures Balance(MissedEvents(path, Missed(e)), path, p) == if Below(path, p) &&
      PluginAt(root, p).Some? then 1 else 0 {
      MissedBalance(path, Missed(e), path, p);
      if |path| <= |p| && p[..|path|] == path {
        assert p == path + p[|path|..];
        AtJoin(root, path, p[|path|..]);
        MissedExact(e, p[|path|..]);
        hide Missed, MissedEvents, Balance, Times;
      }
    }
  }

  /** An add or remove somewhere, and the notices of it, keep every other handler told. */
  lemma StaysTold(root: Entry, log: seq<Event>, h: Path, path: Path, plugin: Option<Obj>, note: bool, more: seq<Event>)
    requires Told(root, log, h) && h != path && HandlerAt(root, h) && PluginAt(root, path).Some? != plugin.Some?
    requires forall p :: Balance(more, h, p) == 0
    ensures var root' := Put(root, path, plugin, note);
      Told(root', log + (AllNotices(root', path, plugin.Some?) + more), h)
  {
    var root' := Put(root, path, plugin, note);
    var notices := AllNotices(root', path, plugin.Some?);
    PutAt(root, path, plugin, note, h);
    assert HandlerAt(root', h);
    hide Balance, AllNotices, Put, PluginAt, HandlerAt;
    forall p ensures Balance(log + (notices + more), h, p) == if Below(h, p) && PluginAt(root', p).Some? then 1 else 0 {
      BalanceSum(log, notices + more, h, p);
      BalanceSum(notices, more, h, p);
      AllNoticesBalance(root', path, plugin.Some?, h, p);
      PutAt(root, path, plugin, note, p);
    }
  }

  /** Every installed handler has been told of exactly what is below it. */
  ghost predicate AllTold(root: Entry, log: seq<Event>, since: map<Path, nat>) {
    forall h :: HandlerAt(root, h) ==> h in since && since[h] <= |log| && Told(root, log[since[h]..], h)
  }

  /** Names are noted in the order of their first insertion. */
  ghost predicate Noted(root: Entry, adds: seq<Path>) {
    forall q :: OrderAt(root, q) == FirstInsertions(adds, q)
  }

  lemma PutNoted(root: Entry, path: Path, plugin: Option<Obj>, note: bool, adds: seq<Path>)
    requires Noted(root, adds)
    ensures Noted(Put(root, path, plugin, note), if note then adds + [path] else adds)
  {
    forall q ensures OrderAt(Put(root, path, plugin, note),
      q) == FirstInsertions(if note then adds + [path] else adds, q) {
      PutOrder(root, path, plugin, note, q);
      assert (adds + [path])[..|adds|] == adds;
    }
  }

  /** One handler that was there before: the log since its installation grows by the notices and by calls of another. */
  lemma OtherTold(before: Entry, path: Path, plugin: Option<Obj>, note: bool, log: seq<Event>, n: nat,
      more: seq<Event>, h: Path)
    requires PluginAt(before, path).Some? != plugin.Some? && h != path
    requires n <= |log| && HandlerAt(Put(before, path, plugin, note), h)
    requires Told(before, log[n..], h) && forall p :: Balance(more, h, p) == 0
    ensures var root := Put(before, path, plugin, note);
      Told(root, (log + AllNotices(root, path, plugin.Some?) + more)[n..], h)
  {
    var root := Put(before, path, plugin, note);
    var notices := AllNotices(root, path, plugin.Some?);
    PutAt(before, path, plugin, note, h);
    assert HandlerAt(before, h);
    hide *;
    StaysTold(before, log[n..], h, path, plugin, note, more);
    assert (log + notices + more)[n..] == log[n..] + (notices + more);
  }

  lemma WasHandler(before: Entry, path: Path, plugin: Option<Obj>, note: bool, h: Path)
    requires HandlerAt(Put(before, path, plugin, note), h) && h != path
    ensures HandlerAt(before, h)
  {
    PutAt(before, path, plugin, note, h);
  }

  lemma NotThisHandler(path: Path, missed: seq<Path>, h: Path)
    requires h != path
    ensures forall p :: Balance(MissedEvents(path, missed), h, p) == 0 && Balance([], h, p) == 0
  {
    forall p ensures Balance(MissedEvents(path, missed), h, p) == 0 && Balance([], h, p) == 0 {
      MissedBalance(path, missed, h, p);
    }
  }

  lemma NewPlugin(before: Entry, path: Path, obj: Obj)
    ensures HandlerAt(Put(before, path, Some(obj), true), path) <==> obj.handles
  {
    PutAt(before, path, Some(obj), true, path);
  }

  lemma AddTold(before: Entry, path: Path, obj: Obj, log: seq<Event>, since: map<Path, nat>, missed: seq<Event>)
    requires WellFormed(before) && AllTold(before, log, since) && PluginAt(before, path).None?
    requires missed == if obj.handles then MissedEvents(path,
      Missed(At(Put(before, path, Some(obj), true), path))) else []
    ensures var root := Put(before, path, Some(obj), true);
      var told := log + AllNotices(root, path, true);
      AllTold(root, told + missed, since[path := |told|])
  {
    var root := Put(before, path, Some(obj), true);
    var told := log + AllNotices(root, path, true);
    hide Put, PluginAt, HandlerAt, AllNotices, Balance, Missed, MissedEvents, WellFormed, Told, At;
    PutWellFormed(before, path, Some(obj), true);
    NewPlugin(before, path, obj);
    forall h | HandlerAt(root, h)
      ensures h == path || (h in since && since[h] <= |log|)
      ensures Told(root, (told + missed)[if h == path then |told| else since[h]..], h)
    {
      if h == path {
        NewHandlerTold(root, path);
        assert (told + missed)[|told|..] == missed;
      } else {
        WasHandler(before, path, Some(obj), true, h);
        NotThisHandler(path, Missed(At(root, path)), h);
        OtherTold(before, path, Some(obj), true, log, since[h], missed, h);
      }
    }
  }

  lemma RemoveTold(before: Entry, path: Path, log: seq<Event>, since: map<Path, nat>)
    requires AllTold(before, log, since) && PluginAt(before, path).Some?
    ensures var root := Put(before, path, None, false); AllTold(root, log + AllNotices(root, path, false), since)
  {
    var root := Put(before, path, None, false);
    var notices := AllNotices(root, path, false);
    PutAt(before, path, None, false, path);
    assert !HandlerAt(root, path);
    hide Put, PluginAt, HandlerAt, AllNotices, Balance, Told;
    forall h | HandlerAt(root, h) ensures h in since && since[h] <= |log| &&
      Told(root, (log + notices)[since[h]..], h) {
      WasHandler(before, path, None, false, h);
      NotThisHandler(path, [], h);
      OtherTold(before, path, None, false, log, since[h], [], h);
      assert log + notices + [] == log + notices;
    }
  }

  lemma SameTold(before: Entry, root: Entry, log: seq<Event>, since: map<Path, nat>)
    requires AllTold(before, log, since) && forall q :: PluginAt(root, q) == PluginAt(before, q)
    ensures AllTold(root, log, since)
  {
    hide PluginAt, Balance;
    forall h | HandlerAt(root, h) ensures h in since && since[h] <= |log| && Told(root, log[since[h]..], h) {
      assert HandlerAt(before, h);
    }
  }

  lemma {:induction false} EmptyOrder(q: Path)
    ensures OrderAt(EMPTY, q) == []
    decreases |q|
  {
    if q != [] { EmptyOrder(q[1..]); }
  }

  /** A call of the handler that was just added: about what is below it, or, at the root, about itself. */
  predicate OfNewHandler(root: Entry, path: Path, ev: Event) {
    && ev.handler == path && ev.add && HandlerAt(root, path) && PluginAt(root, ev.plugin).Some?
    && (Below(path, ev.plugin) || ev.plugin == path == [])
  }

  lemma OnlyCalls(root: Entry, path: Path, add: bool, calls: seq<Event>)
    requires calls == AllNotices(root, path, add)
    ensures forall i :: 0 <= i < |calls| ==>
      IsNotice(root, path, add, calls[i]) || (path == [] && HandlerAt(root, []) && calls[i] == Event([], [], add))
  {
    if path != [] {
      NoticesInOrder(root, path, add, |path|);
    }
  }

  lemma OnlyMissed(root: Entry, path: Path, missed: seq<Event>)
    requires WellFormed(root)
    requires missed == if HandlerAt(root, path) then MissedEvents(path, Missed(At(root, path))) else []
    ensures forall i :: 0 <= i < |missed| ==> OfNewHandler(root, path, missed[i])
  {
    var e := At(root, path);
    var below := Missed(e);
    WellFormedAt(root, path);
    MissedEventsAre(path, below);
    hide HandlerAt, WellFormed, Missed, MissedEvents;
    forall i | 0 <= i < |missed| ensures OfNewHandler(root, path, missed[i]) {
      MissedExact(e, below[i]);
      assert below[i] in below;
      AtJoin(root, path, below[i]);
      assert (path + below[i])[..|path|] == path;
    }
  }

  class PluginRegistry {
    var root: Entry
    var log: seq<Event>
    /** Where in the log each handler's installation is, and the adds so far. */
    ghost var since: map<Path, nat>
    ghost var adds: seq<Path>

    /** Every installed handler knows exactly what is below it, and names are noted in the order of first insertion. */
    ghost predicate Valid()
      reads this
    {
      WellFormed(root) && AllTold(root, log, since) && Noted(root, adds)
    }

    constructor ()
      ensures Valid() && root == EMPTY && log == [] && adds == []
    {
      root, log, since, adds := EMPTY, [], map[], [];
      new;
      forall q ensures PluginAt(EMPTY, q).None? && OrderAt(EMPTY, q) == [] {
        EmptyHasNone(q);
        EmptyOrder(q);
      }
    }

    /** handlePluginEvent: the handlers above are told, from the nearest up; for the root, its own plugin. */
    method HandlePluginEvent(path: Path, add: bool)
      modifies this`log
      ensures log == old(log) + AllNotices(root, path, add)
    {
      hide PluginAt, Notices;
      if path != [] {
        TellAbove(path, add);
      } else if HandlerAt(root, []) {
        log := log + [Event([], [], add)];
      }
    }

    method TellAbove(path: Path, add: bool)
      modifies this`log
      ensures log == old(log) + Notices(root, path, add, |path|)
    {
      hide PluginAt, HandlerAt;
      var i := |path|;
      while i > 0
        invariant 0 <= i <= |path| && log + Notices(root, path, add, i) == old(log) + Notices(root, path, add, |path|)
      {
        i := i - 1;
        if HandlerAt(root, path[..i]) {
          log := log + [Event(path[..i], path, add)];
        }
      }
    }

    /** add: an error if there is a plugin already. */
    method Add(path: Path, obj: Obj) returns (ok: bool)
      modifies this
      requires Valid()
      ensures Valid() && ok == PluginAt(old(root), path).None? && adds == old(adds) + [path]
      ensures forall q :: PluginAt(root, q) == if ok && q == path then Some(obj) else PluginAt(old(root), q)
      ensures !ok ==> log == old(log)
      ensures ok ==> old(log) <= log && forall i :: |old(log)| <= i < |log| ==>
        IsNotice(root, path, true, log[i]) || OfNewHandler(root, path, log[i])
      ensures forall h :: h in old(since) && h != path ==> h in since && since[h] == old(since)[h]
    {
      ok := PluginAt(root, path).None?;
      var plugin := if ok then Some(obj) else PluginAt(root, path);
      hide Put, WellFormed, AllTold, Noted, PluginAt, AllNotices, Missed, MissedEvents, At;
      PutNoted(root, path, plugin, true, adds);
      PutWellFormed(root, path, plugin, true);
      forall q ensures PluginAt(Put(root, path, plugin, true), q) == if q == path then plugin else PluginAt(root, q) {
        PutAt(root, path, plugin, true, q);
      }
      root := Put(root, path, plugin, true);
      adds := adds + [path];
      if ok {
        HandlePluginEvent(path, true);
        since := since[path := |log|];
        var missed := if obj.handles then MissedEvents(path, Missed(At(root, path))) else [];
        log := log + missed;
        ghost var calls := AllNotices(root, path, true);
        OnlyCalls(root, path, true, calls);
        OnlyMissed(root, path, missed);
        assert log == old(log) + calls + missed;
        AddTold(old(root), path, obj, old(log), old(since), missed);
      } else {
        SameTold(old(root), root, log, since);
      }
    }

    /** remove: an error if there is no plugin. */
    method Remove(path: Path) returns (plugin: Option<Obj>)
      modifies this
      requires Valid()
      ensures Valid() && plugin == PluginAt(old(root), path) && adds == old(adds) && since == old(since)
      ensures forall q :: PluginAt(root, q) == if q == path then None else PluginAt(old(root), q)
      ensures plugin.None? ==> log == old(log)
      ensures old(log) <= log && forall i :: |old(log)| <= i < |log| ==> IsNotice(root, path, false, log[i])
    {
      plugin := PluginAt(root, path);
      hide Put, WellFormed, AllTold, Noted, PluginAt, AllNotices;
      PutNoted(root, path, None, false, adds);
      PutWellFormed(root, path, None, false);
      forall q ensures PluginAt(Put(root, path, None, false), q) == if q == path then None else PluginAt(root, q) {
        PutAt(root, path, None, false, q);
      }
      root := Put(root, path, None, false);
      if plugin.Some? {
        HandlePluginEvent(path, false);
        OnlyCalls(root, path, false, AllNotices(root, path, false));
        RemoveTold(old(root), path, old(log), since);
      } else {
        SameTold(old(root), root, log, since);
      }
    }

    /** list: the children that have plugins, in the order of first insertion. */
    method List(path: Path) returns (names: seq<string>)
      requires Valid()
      ensures names == Kept(FirstInsertions(adds, path), At(root, path))
      ensures forall name :: name in names <==> exists p :: PluginAt(root, path + ([name] + p)).Some?
      ensures NoRepeats(names) && forall i, j :: 0 <= i < j < |names| ==>
        NotedBefore(FirstInsertions(adds, path), names[i], names[j])
    {
      var e := At(root, path);
      names := ListChildren(e);
      assert e.order == FirstInsertions(adds, path);
      assert NoRepeats(e.order) by { WellFormedAt(root, path); }
      ListInOrder(e, |e.order|);
      assert e.order[..|e.order|] == e.order;
      hide NotedBefore, NoRepeats, ListUpTo;
      hide PluginAt, Kept, At, WellFormed, ListOf;
      forall name ensures name in names <==> exists p :: PluginAt(root, path + ([name] + p)).Some? {
        ListAt(root, path, name);
      }
    }
  }

  method ListChildren(e: Entry) returns (names: seq<string>)
    ensures names == ListOf(e) == Kept(e.order, e)
  {
    names := [];
    var i := 0;
    hide NumPlugins;
    while i < |e.order|
      invariant 0 <= i <= |e.order| && names == ListUpTo(e, i)
    {
      if NumPlugins(Child(e, e.order[i])) != 0 { names := names + [e.order[i]]; }
      i := i + 1;
    }
    KeptIs(e, |e.order|);
    assert e.order[..|e.order|] == e.order;
  }

  /** The names come in the order in which they are noted, each once. */
  lemma {:induction false} ListInOrder(e: Entry, k: nat)
    requires k <= |e.order| && NoRepeats(e.order)
    ensures var names := ListUpTo(e, k);
      && (forall i :: 0 <= i < |names| ==> names[i] in e.order[..k])
      && NoRepeats(names)
      && forall i, j :: 0 <= i < j < |names| ==> NotedBefore(e.order, names[i], names[j])
  {
    if k > 0 {
      ListInOrder(e, k - 1);
      hide NumPlugins;
      var before, names, last := ListUpTo(e, k - 1), ListUpTo(e, k), e.order[k - 1];
      assert forall name :: name in e.order[..k - 1] ==> name in e.order[..k] && name != last;
      assert last in e.order[..k];
      forall i, j | 0 <= i < j < |names|
        ensures NotedBefore(e.order, names[i], names[j]) && names[i] != names[j]
      {
        if j == |before| {
          var m :| 0 <= m < k - 1 && e.order[m] == before[i];
          assert e.order[k - 1] == names[j];
        }
      }
    }
  }

  lemma ListAt(root: Entry, path: Path, name: string)
    requires WellFormed(root)
    ensures name in ListOf(At(root, path)) <==> exists p :: PluginAt(root, path + ([name] + p)).Some?
  {
    var e := At(root, path);
    WellFormedAt(root, path);
    ListExact(e, name);
    forall p ensures PluginAt(root, path + ([name] + p)) == PluginAt(e, [name] + p) {
      AtJoin(root, path, [name] + p);
    }
    hide PluginAt, At, WellFormed, ListOf;
    forall p | PluginAt(e, [name] + p).Some? ensures exists r :: PluginAt(root, path + ([name] + r)).Some? {
      assert PluginAt(root, path + ([name] + p)).Some?;
    }
  }

  /** The names whose child has a plugin at or below it. */
  function Kept(names: seq<string>, e: Entry): seq<string> {
    if names == [] then []
    else Kept(names[..|names| - 1],
      e) + if NumPlugins(Child(e, names[|names| - 1])) != 0 then [names[|names| - 1]] else []
  }

  lemma {:induction false} KeptIs(e: Entry, k: nat)
    requires k <= |e.order|
    ensures Kept(e.order[..k], e) == ListUpTo(e, k)
  {
    if k > 0 {
      KeptIs(e, k - 1);
      assert e.order[..k][..k - 1] == e.order[..k - 1];
    }
  }
}
