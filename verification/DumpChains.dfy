/**
  Where the flat dump stops being exact: a connection between two pass-throughs is dissolved with them
  (lib/Framework/TopologyDumpJSON.cpp copies the neighbour's id without resolving it).
 */
module DumpChains {
  import opened Flatten
  import opened FlattenLimits
  import opened FlattenChains
  import opened DumpFlatten
  import opened DumpBridges
  import SquashFlows

  /** A connection made at a pass-through whose neighbour is a hierarchy: gone on the level that has it. */
  lemma HierNeighbourIsLost(root: Topology, blocks: map<Uid, Object>, next: map<Uid, Object>, c: Conn, isSource: bool,
      s: Topology)
    requires Distinct(root) && Level(root, blocks) && IsNext(blocks, next)
    requires EndOf(c, isSource).id == s.uid && s.uid in blocks && blocks[s.uid] == Sub(s) && !NextObject(blocks, Sub(s))
    ensures forall x, y :: !Across(next, c, x, y)
  {
    if s.uid in next {
      NextKnown(root, blocks, next[s.uid]);
      KnownByUid(root, blocks[s.uid], next[s.uid]);
    }
    hide Distinct, NextObject;
    assert s.uid !in next;
  }

  // ---------- a row of two boxes ----------

  /** After one level nothing is left of a row but its blocks. */
  lemma RowNext(r: Row, blocks: map<Uid, Object>, conns: seq<Conn>, next: map<Uid, Object>, id: Uid)
    requires RowOk(r) && IsTop(Wired(r, false), blocks, conns) && IsNext(blocks, next) && id in next
    ensures next[id] == Block(id) && id in {FEED, SINK}
  {
    assert NextObject(blocks, next[id]);
    var k :| k in blocks && Gives(blocks[k], next[id]);
    RowObject(r, blocks[k]);
    BoxNamesNothing(r.u, next[id]);
    BoxNamesNothing(r.v, next[id]);
  }

  lemma BoxNamesNothing(s: Topology, obj: Object)
    requires IsBox(s)
    ensures !SquashFlows.Names(s, |s.flows|, obj)
  {
  }

  lemma RowObject(r: Row, obj: Object)
    requires SquashFlows.Names(Wired(r, false), 3, obj)
    ensures obj in {Block(FEED), Block(SINK), Sub(r.u), Sub(r.v)}
  {
    var root := Wired(r, false);
    var j :| 0 <= j < 3 && (root.flows[j].src.obj == obj || root.flows[j].dst.obj == obj);
    assert j in {0, 1, 2};
  }

  predicate RowConn(r: Row, c: Conn) {
    || c == Conn(FEED, PORT, r.u.uid, r.a)
    || c == Conn(r.u.uid, r.b, r.v.uid, r.c)
    || c == Conn(r.v.uid, r.d, SINK, PORT)
  }

  lemma RowConns(r: Row, blocks: map<Uid, Object>, conns: seq<Conn>, c: Conn)
    requires IsTop(Wired(r, false), blocks, conns) && c in conns
    ensures RowConn(r, c)
  {
    var root := Wired(r, false);
    var j :| 0 <= j < |root.flows| && c == ConnOf(root, root.flows[j]);
    assert j in {0, 1, 2};
  }

  /** Inside a box every connection has the box at both ends. */
  lemma BoxConn(s: Topology, f: Flow)
    requires IsBox(s) && f in s.flows
    ensures ConnOf(s, f).srcId == s.uid && ConnOf(s, f).dstId == s.uid
  {
    var i :| 0 <= i < |s.flows| && s.flows[i] == f;
  }

  /** The hierarchies of a row are the two boxes. */
  lemma RowHier(r: Row, blocks: map<Uid, Object>, conns: seq<Conn>, id: Uid)
    requires RowOk(r) && IsTop(Wired(r, false), blocks, conns) && id in blocks && blocks[id].Sub?
    ensures (blocks[id] == Sub(r.u) && id == r.u.uid) || (blocks[id] == Sub(r.v) && id == r.v.uid)
  {
    RowObject(r, blocks[id]);
  }

  lemma RowResolvesNothing(r: Row, blocks: map<Uid, Object>, conns: seq<Conn>, e: PortId, isSource: bool, p: PortId)
    requires RowOk(r) && IsTop(Wired(r, false), blocks, conns) && e.id in {r.u.uid, r.v.uid}
    ensures !Resolved(blocks, e, isSource, p)
  {
    if e.id in blocks {
      if blocks[e.id].Sub? {
        RowHier(r, blocks, conns, e.id);
        forall f | f in blocks[e.id].top.flows ensures !Inside(blocks[e.id].top, f, e.id, e.name, isSource, p) {
          BoxConn(blocks[e.id].top, f);
        }
      } else {
        RowObject(r, blocks[e.id]);
      }
    }
  }

  /** Every connection of the next level has lost one of its ends. */
  lemma RowNextConns(r: Row, blocks: map<Uid, Object>, conns: seq<Conn>, c: Conn)
    requires RowOk(r) && IsTop(Wired(r, false), blocks, conns) && NextConn(blocks, conns, c)
    ensures c.srcId == r.u.uid || c.dstId == r.v.uid
  {
    if Unfolded(blocks, conns, c) {
      RowNotUnfolded(r, blocks, conns, c);
    } else {
      hide Unfolded;
      var id :| FromHier(blocks, conns, id, c);
      RowHier(r, blocks, conns, id);
      var f :| f in blocks[id].top.flows && GivenBy(id, blocks[id].top, f, conns, c);
      BoxConn(blocks[id].top, f);
      var head, tail :| IsBridge(id, blocks[id].top, f, conns, head, tail, c);
      hide IsTop, IsBox;
      RowConns(r, blocks, conns, head);
      RowConns(r, blocks, conns, tail);
    }
  }

  lemma RowNotUnfolded(r: Row, blocks: map<Uid, Object>, conns: seq<Conn>, c: Conn)
    requires RowOk(r) && IsTop(Wired(r, false), blocks, conns)
    ensures !Unfolded(blocks, conns, c)
  {
    forall c0 | c0 in conns
      ensures !(Resolved(blocks, EndOf(c0, true), true, EndOf(c, true)) &&
        Resolved(blocks, EndOf(c0, false), false, EndOf(c, false)))
    {
      hide Unfolded, Resolved, IsTop, RowOk;
      RowConns(r, blocks, conns, c0);
      if c0.dstId in {r.u.uid, r.v.uid} {
        RowResolvesNothing(r, blocks, conns, EndOf(c0, false), false, EndOf(c, false));
      } else {
        RowResolvesNothing(r, blocks, conns, EndOf(c0, true), true, EndOf(c, true));
      }
    }
  }

  /** The dump of a row says nothing of its two blocks. */
  lemma RowSaysNothing(r: Row, blocks: map<Uid, Object>, conns: seq<Conn>, next: map<Uid, Object>, nextConns: seq<Conn>)
    requires RowOk(r) && IsTop(Wired(r, false), blocks, conns) && IsNext(blocks, next) &&
      IsNextConns(blocks, conns, nextConns)
    ensures !Says(next, nextConns, FROM, TO)
  {
    forall id | id in next ensures next[id] == Block(id) && id in {FEED, SINK} {
      RowNext(r, blocks, conns, next, id);
    }
    forall c | c in nextConns ensures c.srcId == r.u.uid || c.dstId == r.v.uid {
      assert NextConn(blocks, conns, c);
      RowNextConns(r, blocks, conns, c);
    }
    hide IsNext, IsNextConns, IsTop, RowOk, Dumped, Resolved;
    assert r.u.uid !in {FEED, SINK} && r.v.uid !in {FEED, SINK} by { RowUids(r); }
  }

  lemma RowUids(r: Row)
    requires RowOk(r)
    ensures r.u.uid !in {FEED, SINK} && r.v.uid !in {FEED, SINK}
  {
  }

  /** The dump of a row is right about its two blocks exactly if the row does not lead through. */
  lemma RowDumpExact(r: Row, blocks: map<Uid, Object>, conns: seq<Conn>, next: map<Uid, Object>, nextConns: seq<Conn>)
    requires RowOk(r) && IsTop(Wired(r, false), blocks, conns) && IsNext(blocks, next) &&
      IsNextConns(blocks, conns, nextConns)
    ensures (Says(next, nextConns, FROM, TO) <==>
             Linked(Wired(r, false), BlockPort(FEED, PORT, true), BlockPort(SINK, PORT, false)))
            <==> !(Pass(r.u, r.a, r.b) && Pass(r.v, r.c, r.d))
  {
    hide *;
    RowSaysNothing(r, blocks, conns, next, nextConns);
    RowLinked(r, false);
  }
}
