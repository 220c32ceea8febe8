/** Values that several modules share. */
module Values {

  type Byte = b: nat | b < 256

  datatype Option<T> = None | Some(value: T)

  function Min(a: int, b: int): int {
    if a < b then a else b
  }

  predicate NoRepeats<T(==)>(s: seq<T>) {
    forall i, j :: 0 <= i < j < |s| ==> s[i] != s[j]
  }

  lemma NoRepeatsConcat<T>(a: seq<T>, b: seq<T>)
    requires NoRepeats(a) && NoRepeats(b) && forall x :: x in b ==> x !in a
    ensures NoRepeats(a + b)
  {
    forall i, j | 0 <= i < j < |a + b| ensures (a + b)[i] != (a + b)[j] {
      if i < |a| <= j {
        assert b[j - |a|] in b;
      }
    }
  }

  /** All combinations of one list with another, each made into one value. */
  method Combine<A, B, C>(xs: seq<A>, ys: seq<B>, make: (A, B) -> C) returns (r: seq<C>)
    ensures forall c :: c in r <==> exists i, j :: 0 <= i < |xs| && 0 <= j < |ys| && c == make(xs[i], ys[j])
  {
    r := [];
    var i := 0;
    while i < |xs|
      invariant 0 <= i <= |xs|
      invariant forall c :: c in r <==> exists m, n :: 0 <= m < i && 0 <= n < |ys| && c == make(xs[m], ys[n])
    {
      ghost var before := r;
      var j := 0;
      while j < |ys|
        invariant 0 <= j <= |ys|
        invariant forall c :: c in r <==> c in before || exists n :: 0 <= n < j && c == make(xs[i], ys[n])
      {
        r := r + [make(xs[i], ys[j])];
        j := j + 1;
      }
      i := i + 1;
    }
  }
}
