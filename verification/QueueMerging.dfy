/**
  What the amalgamation of lib/Framework/BufferAccumulator.cpp makes of a queue, told in addresses and
  lengths alone: the windows at the back that follow on each other become one.
 */
module QueueMerging {
  import opened Buffers
  import opened BufferQueue

  /** b starts where f ends, or one turn of a circular slab below that. */
  predicate Follows(f: Chunk, b: Chunk) {
    b.address == f.End() || (b.Slab().circular && b.address + b.Slab().length == f.End())
  }

  predicate AllFollow(q: seq<Chunk>) {
    forall i :: 0 < i < |q| ==> Follows(q[i - 1], q[i])
  }

  function Total(q: seq<Chunk>): nat {
    if q == [] then 0 else q[0].length + Total(q[1..])
  }

  /** The bytes of the windows from k up to i. */
  function Between(q: seq<Chunk>, k: nat, i: nat): nat
    requires k <= i <= |q|
  {
    Total(q[k..i])
  }

  lemma BetweenStep(q: seq<Chunk>, k: nat, i: nat)
    requires k < i <= |q|
    ensures Between(q, k, i) == q[k].length + Between(q, k + 1, i) && Between(q, i, i) == 0
  {
    assert q[k..i][1..] == q[k + 1..i];
  }

  lemma {:induction false} StreamTotal(mem: Mem, q: seq<Chunk>)
    ensures |Stream(mem, q)| == Total(q)
  {
    if q != [] {
      StreamTotal(mem, q[1..]);
    }
  }

  /** Where the windows at the back that follow on each other begin. */
  function RunStart(q: seq<Chunk>): (j: nat)
    requires q != []
    ensures j < |q|
    ensures forall i :: j < i < |q| ==> Follows(q[i - 1], q[i])
    ensures j > 0 ==> !Follows(q[j - 1], q[j])
  {
    var n := |q| - 1;
    if n > 0 && Follows(q[n - 1], q[n]) then RunStart(q[..n]) else n
  }

  /** From window j on, all bytes of q are in window j of q', and nothing else has changed. */
  predicate RunMerged(q: seq<Chunk>, q': seq<Chunk>, j: nat)
    requires j < |q|
  {
    && |q'| >= j + 1
    && q'[..j] == q[..j]
    && q'[j].address == q[j].address && q'[j].length == Total(q[j..]) && q'[j].mb == q[j].mb
    && forall i :: j < i < |q'| ==> q'[i].length == 0
  }

  /** In a sound queue the test of the loop, by address or by alias, is that one window follows the other. */
  lemma AdjoinsIsFollows(mem: Mem, q: seq<Chunk>, i: nat)
    requires 0 < i < |q| && QueueOk(mem, q)
    ensures Adjoins(q[i - 1], q[i]) <==> Follows(q[i - 1], q[i])
  {
    SoundAt(mem, [], q, i);
    SoundAt(mem, [], q, i - 1);
    assert q[i..][0] == q[i];
  }

  /** Windows j to i of q have become one in r, and each window behind j has moved to its end. */
  predicate RunTo(q: seq<Chunk>, r: seq<Chunk>, i: nat, j: nat)
    requires j <= i < |q|
  {
    && |r| == |q|
    && (forall k :: 0 <= k < |q| && !(j <= k <= i) ==> r[k] == q[k])
    && r[j] == q[j].(length := Between(q, j, i + 1))
    && forall k :: j < k <= i ==> r[k] == q[k].(address := q[k].address + Between(q, k, i + 1), length := 0)
  }

  /** Up to window i the test of the loop is that windows follow on each other, which they do from j on. */
  predicate RunFrom(q: seq<Chunk>, i: nat, j: nat) {
    && j <= i < |q|
    && (forall k :: 0 < k <= i ==> (Adjoins(q[k - 1], q[k]) <==> Follows(q[k - 1], q[k])))
    && (forall k :: j < k <= i ==> Follows(q[k - 1], q[k]))
    && (j > 0 ==> !Follows(q[j - 1], q[j]))
  }

  lemma MergedRun(q: seq<Chunk>, i: nat, j: nat)
    requires j < i && RunFrom(q, i, j)
    ensures RunFrom(Merged(q, i), i - 1, j)
  {
  }

  lemma MergedRunTo(q: seq<Chunk>, r: seq<Chunk>, i: nat, j: nat)
    requires j < i < |q| && RunTo(Merged(q, i), r, i - 1, j)
    ensures RunTo(q, r, i, j)
  {
    forall k | j <= k < i ensures Between(Merged(q, i), k, i) == Between(q, k, i + 1) {
      MergedBetween(q, i, k);
    }
    BetweenStep(q, i, i + 1);
    hide Between;
  }

  lemma {:induction false} AmalgamatedRun(q: seq<Chunk>, i: nat, j: nat)
    requires RunFrom(q, i, j)
    ensures RunTo(q, Amalgamated(q, i), i, j)
    decreases i
  {
    if i == j {
      BetweenStep(q, i, i + 1);
      hide Between;
      assert Amalgamated(q, i) == q;
    } else {
      assert Adjoins(q[i - 1], q[i]);
      MergedRun(q, i, j);
      hide RunFrom, RunTo, Merged;
      AmalgamatedRun(Merged(q, i), i - 1, j);
      MergedRunTo(q, Amalgamated(q, i), i, j);
    }
  }

  lemma {:induction false} MergedBetween(q: seq<Chunk>, i: nat, k: nat)
    requires k < i < |q|
    ensures Between(Merged(q, i), k, i) == Between(q, k, i + 1)
    decreases i - k
  {
    BetweenStep(Merged(q, i), k, i);
    BetweenStep(q, k, i + 1);
    BetweenStep(q, i, i + 1);
    hide Between;
    if k + 1 < i {
      MergedBetween(q, i, k + 1);
    }
  }

  /** The queue after the loop: the windows at the back that follow on each other are one window. */
  lemma AmalgamatedExact(mem: Mem, q: seq<Chunk>)
    requires q != [] && QueueOk(mem, q)
    ensures var r, j := Amalgamated(q, |q| - 1), RunStart(q);
      && |r| == |q| && RunMerged(q, r, j)
      && (forall k :: 0 <= k < |q| ==> r[k].mb == q[k].mb)
      && forall k :: j < k < |q| ==> r[k].address == q[k].address + Total(q[k..])
  {
    hide QueueOk, Adjoins, Follows, Amalgamated;
    forall i | 0 < i < |q| ensures Adjoins(q[i - 1], q[i]) <==> Follows(q[i - 1], q[i]) {
      AdjoinsIsFollows(mem, q, i);
    }
    var n, j := |q| - 1, RunStart(q);
    AmalgamatedRun(q, n, j);
    hide RunStart, RunFrom;
    RunToEnd(q, Amalgamated(q, n), j);
  }

  lemma RunToEnd(q: seq<Chunk>, r: seq<Chunk>, j: nat)
    requires j < |q| && RunTo(q, r, |q| - 1, j)
    ensures |r| == |q| && RunMerged(q, r, j)
    ensures forall k :: 0 <= k < |q| ==> r[k].mb == q[k].mb
    ensures forall k :: j < k < |q| ==> r[k].address == q[k].address + Total(q[k..])
  {
    hide Total;
    forall k | 0 <= k < |q| ensures Between(q, k, |q|) == Total(q[k..]) {
      assert q[k..|q|] == q[k..];
    }
    hide Between;
  }

  /** Does the queue lose its last window once that is merged into one of the same buffer? */
  predicate LastGoes(q: seq<Chunk>) {
    var n := |q| - 1;
    n > 0 && Follows(q[n - 1], q[n]) && q[n].mb.id == q[n - 1].mb.id
  }

  lemma SingleRun(b: Chunk)
    ensures !LastGoes([b]) && RunStart([b]) == 0 && RunMerged([b], [b], 0)
  {
    assert [b][1..] == [];
  }

  lemma TrimmedRun(q: seq<Chunk>, r: seq<Chunk>)
    requires q != [] && q[|q| - 1].length > 0 && |r| == |q| && RunMerged(q, r, RunStart(q))
    requires forall k :: 0 <= k < |q| ==> r[k].mb == q[k].mb
    ensures var t := Trimmed(r);
      |t| == (if LastGoes(q) then |q| - 1 else |q|) && RunMerged(q, t, RunStart(q))
  {
    hide RunStart, Follows, Total, RunMerged;
    var n, j := |q| - 1, RunStart(q);
    LastSpent(q, r);
    RunsOn(q);
    if j < n {
      CutRun(q, r, j);
    }
  }

  /** The last window is spent exactly if it is not where the run begins. */
  lemma LastSpent(q: seq<Chunk>, r: seq<Chunk>)
    requires q != [] && q[|q| - 1].length > 0 && |r| == |q| && RunMerged(q, r, RunStart(q))
    ensures r[|q| - 1].length == 0 <==> RunStart(q) < |q| - 1
  {
    hide RunStart, Total;
    LastLength(q);
  }

  lemma CutRun(q: seq<Chunk>, r: seq<Chunk>, j: nat)
    requires j < |q| && RunMerged(q, r, j) && j < |r| - 1
    ensures RunMerged(q, r[..|r| - 1], j)
  {
    hide Total;
    assert r[..|r| - 1][..j] == r[..j];
  }

  lemma LastLength(q: seq<Chunk>)
    requires q != []
    ensures Total(q[|q| - 1..]) == q[|q| - 1].length
  {
    assert q[|q| - 1..][1..] == [];
  }

  /** The run begins before the last window exactly if that follows the one before it. */
  lemma RunsOn(q: seq<Chunk>)
    requires q != []
    ensures RunStart(q) < |q| - 1 <==> |q| > 1 && Follows(q[|q| - 2], q[|q| - 1])
  {
    hide Follows;
    var n := |q| - 1;
    if RunStart(q) < n {
      assert Follows(q[n - 1], q[n]);
    }
  }

  /** The same behind the removal of a spent last window: only that window is gone. */
  lemma TrimmedExact(mem: Mem, q: seq<Chunk>)
    requires q != [] && QueueOk(mem, q) && q[|q| - 1].length > 0
    ensures var r := Trimmed(Amalgamated(q, |q| - 1));
      |r| == (if LastGoes(q) then |q| - 1 else |q|) && RunMerged(q, r, RunStart(q))
  {
    AmalgamatedExact(mem, q);
    hide *;
    TrimmedRun(q, Amalgamated(q, |q| - 1));
  }
}
