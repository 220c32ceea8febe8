/**
  Integers in archives (include/Pothos/Archive/Numbers.hpp): the variable-length encoding of section 7.6
  of DWARF version 5. A number of W bits is held as its value, or as its bit pattern below 2^W. Where
  the source joins bits with an or, the new bits start above every bit that is there (GroupsRange), and
  the model adds them.
 */
module Leb128 {
  import opened Values

  const TWO_TO_31 := 0x8000_0000
  const TWO_TO_32 := 0x1_0000_0000
  const TWO_TO_63 := 0x8000_0000_0000_0000
  const TWO_TO_64 := 0x1_0000_0000_0000_0000

  /** The width of the type in bits. */
  datatype Width = W32 | W64 {
    function Bits(): nat { if W32? then 32 else 64 }
    function Modulus(): int { if W32? then TWO_TO_32 else TWO_TO_64 }
    function Half(): int { if W32? then TWO_TO_31 else TWO_TO_63 }
  }

  predicate IsSigned(w: Width, v: int) {
    -w.Half() <= v < w.Half()
  }

  predicate IsUnsigned(w: Width, v: int) {
    0 <= v < w.Modulus()
  }

  /** 2^(7k) */
  function Pow128(k: nat): (r: int)
    ensures r > 0
  {
    if k == 0 then 1 else 128 * Pow128(k - 1)
  }

  /** The number whose groups of seven bits these bytes carry, lowest first. */
  function Groups(bs: seq<Byte>): int {
    if bs == [] then 0 else Groups(bs[..|bs| - 1]) + bs[|bs| - 1] % 128 * Pow128(|bs| - 1)
  }

  lemma {:induction false} GroupsFront(b: Byte, bs: seq<Byte>)
    ensures Groups([b] + bs) == b % 128 + 128 * Groups(bs)
  {
    var all := [b] + bs;
    if bs == [] {
      assert all == [b] && [b][..0] == [];
    } else {
      var n := |bs| - 1;
      assert all[..|all| - 1] == [b] + bs[..n];
      GroupsFront(b, bs[..n]);
      assert bs[n] % 128 * Pow128(|bs|) == 128 * (bs[n] % 128 * Pow128(n));
    }
  }

  /** The next group starts above every bit that is there. */
  lemma {:induction false} GroupsRange(bs: seq<Byte>)
    ensures 0 <= Groups(bs) < Pow128(|bs|)
  {
    if bs != [] {
      var n := |bs| - 1;
      GroupsRange(bs[..n]);
      Scale(bs[n] % 128, Pow128(n));
    }
  }

  lemma Scale(x: int, m: int)
    requires 0 <= x <= 127 && m > 0
    ensures 0 <= x * m <= 127 * m
  {
  }

  // ---------- saving ----------

  /** Bytes with the continuation bit, and one without at the end. */
  predicate Terminated(bs: seq<Byte>) {
    |bs| > 0 && bs[|bs| - 1] < 128 && forall i :: 0 <= i < |bs| - 1 ==> bs[i] >= 128
  }

  function Magnitude(v: int): nat {
    if v >= 0 then v else -v - 1
  }

  /** Is this the last group: the rest is only the sign, and the group shows it? */
  predicate LastGroup(v: int) {
    (v / 128 == 0 && v % 128 < 64) || (v / 128 == -1 && v % 128 >= 64)
  }

  function EncodeSigned(v: int): seq<Byte>
    decreases Magnitude(v)
  {
    if LastGroup(v) then [v % 128] else [v % 128 + 128] + EncodeSigned(v / 128)
  }

  function EncodeUnsigned(v: nat): seq<Byte> {
    if v / 128 == 0 then [v % 128] else [v % 128 + 128] + EncodeUnsigned(v / 128)
  }

  lemma {:induction false} SignedTerminated(v: int)
    ensures var bs := EncodeSigned(v); Terminated(bs) && (bs[|bs| - 1] >= 64 <==> v < 0)
    decreases Magnitude(v)
  {
    var bs := EncodeSigned(v);
    if !LastGroup(v) {
      var rest := EncodeSigned(v / 128);
      SignedTerminated(v / 128);
      hide EncodeSigned;
      assert bs == [v % 128 + 128] + rest by { EncodeStep(v); }
      assert bs[|bs| - 1] == rest[|rest| - 1];
    }
  }

  /** The sign bit of the last byte, and the groups, are the number. */
  lemma {:induction false} EncodedSigned(v: int)
    ensures var bs := EncodeSigned(v);
      && Terminated(bs)
      && v == Groups(bs) - (if bs[|bs| - 1] >= 64 then Pow128(|bs|) else 0)
      && (bs[|bs| - 1] >= 64 <==> v < 0)
    decreases Magnitude(v)
  {
    var bs := EncodeSigned(v);
    SignedTerminated(v);
    EncodeStep(v);
    if LastGroup(v) {
      assert bs == [v % 128] && bs[..0] == [];
      assert Pow128(1) == 128;
    } else {
      var rest := EncodeSigned(v / 128);
      EncodedSigned(v / 128);
      GroupsFront(v % 128 + 128, rest);
      assert Pow128(|bs|) == 128 * Pow128(|rest|);
      hide EncodeSigned, Groups, Pow128, Terminated, LastGroup;
      assert v == 128 * (v / 128) + v % 128;
    }
  }

  lemma {:induction false} EncodedUnsigned(v: nat)
    ensures var bs := EncodeUnsigned(v); Terminated(bs) && v == Groups(bs)
  {
    var bs := EncodeUnsigned(v);
    if v / 128 == 0 {
      assert bs == [v % 128] && bs[..0] == [];
    } else {
      var rest := EncodeUnsigned(v / 128);
      EncodedUnsigned(v / 128);
      hide EncodeUnsigned;
      GroupsFront(v % 128 + 128, rest);
      hide Groups;
      assert forall i :: 0 < i < |bs| ==> bs[i] == rest[i - 1];
    }
  }

  /** A number takes at most n bytes exactly when it fits in 7n bits with its sign. */
  lemma {:induction false} SignedLength(v: int, n: nat)
    requires n > 0
    ensures |EncodeSigned(v)| <= n <==> -(Pow128(n - 1) * 64) <= v < Pow128(n - 1) * 64
    decreases n
  {
    if n == 1 {
      assert Pow128(0) == 1;
      if !LastGroup(v) {
        EncodedSigned(v / 128);
      }
    } else {
      assert Pow128(n - 1) == 128 * Pow128(n - 2);
      if !LastGroup(v) {
        SignedLength(v / 128, n - 1);
      }
    }
  }

  lemma {:induction false} UnsignedLength(v: nat, n: nat)
    requires n > 0
    ensures |EncodeUnsigned(v)| <= n <==> v < Pow128(n)
    decreases n
  {
    assert Pow128(n) == 128 * Pow128(n - 1);
    if v / 128 != 0 {
      if n == 1 {
        assert Pow128(0) == 1;
        EncodedUnsigned(v / 128);
      } else {
        UnsignedLength(v / 128, n - 1);
      }
    }
  }

  lemma EncodeStep(v: int)
    ensures EncodeSigned(v) == if LastGroup(v) then [v % 128] else [v % 128 + 128] + EncodeSigned(v / 128)
    ensures !LastGroup(v) ==> Magnitude(v / 128) < Magnitude(v)
  {
  }

  /** save, for signed types. */
  method SaveSigned(t: int) returns (bytes: seq<Byte>)
    ensures bytes == EncodeSigned(t)
  {
    bytes := [];
    var value, more := t, true;
    while more
      invariant if more then bytes + EncodeSigned(value) == EncodeSigned(t) else bytes == EncodeSigned(t)
      decreases more, Magnitude(value)
    {
      EncodeStep(value);
      var byte: int := value % 128;
      value := value / 128;
      var signbit := byte >= 64;
      hide EncodeSigned;
      if (value != 0 || signbit) && (value != -1 || !signbit) { byte := byte + 128; }
      bytes := bytes + [byte];
      more := byte >= 128;
    }
  }

  /** save, for unsigned types. */
  method SaveUnsigned(t: nat) returns (bytes: seq<Byte>)
    ensures bytes == EncodeUnsigned(t)
  {
    bytes := [];
    var value: nat, more := t, true;
    while more
      invariant if more then bytes + EncodeUnsigned(value) == EncodeUnsigned(t) else bytes == EncodeUnsigned(t)
      decreases more, value
    {
      var byte: int := value % 128;
      value := value / 128;
      if value != 0 { byte := byte + 128; }
      bytes := bytes + [byte];
      more := byte >= 128;
    }
  }

  // ---------- loading ----------

  /** The value of a bit pattern in a signed type. */
  function Signed(w: Width, t: int): int {
    if t < w.Half() then t else t - w.Modulus()
  }

  /**
    The value of a terminated run of bytes in a signed type. The sign mask is made from an int: a shift
    of 32 or more is undefined, and stands for any result that may come of it.
   */
  function DecodeSigned(w: Width, undefined: (nat, int) -> int, bs: seq<Byte>): int
    requires bs != []
  {
    Extended(w, undefined, Groups(bs) % w.Modulus(), |bs|, bs[|bs| - 1] / 64 % 2 == 1)
  }

  /** The sign extension of a bit pattern from k groups. */
  function Extended(w: Width, undefined: (nat, int) -> int, t: int, k: nat, signbit: bool): int {
    var shift := 7 * k;
    if signbit && shift < w.Bits() then
      if shift < 32 then t - Pow128(k) else undefined(shift, t)
    else Signed(w, t)
  }

  datatype Loaded = Loaded(value: int, rest: seq<Byte>) | EndOfStream

  /** The number of bytes up to and with the first without the continuation bit. */
  function RunLength(stream: seq<Byte>): (n: nat)
    ensures n <= |stream| + 1
    ensures n <= |stream| ==> Terminated(stream[..n])
    ensures n == |stream| + 1 ==> forall i :: 0 <= i < |stream| ==> stream[i] >= 128
  {
    if stream == [] then 1
    else if stream[0] < 128 then 1
    else
      var n := 1 + RunLength(stream[1..]);
      assert n <= |stream| ==> stream[..n] == [stream[0]] + stream[1..][..n - 1];
      n
  }

  lemma RunLengthIs(stream: seq<Byte>, n: nat)
    requires n <= |stream| && Terminated(stream[..n])
    ensures RunLength(stream) == n
  {
    assert stream[n - 1] == stream[..n][n - 1];
    assert forall i :: 0 <= i < n - 1 ==> stream[i] == stream[..n][i];
    var m := RunLength(stream);
    assert m <= |stream| ==> stream[m - 1] == stream[..m][m - 1];
    assert m <= |stream| ==> forall i :: 0 <= i < m - 1 ==> stream[i] == stream[..m][i];
  }

  /** The loop of load: the groups up to the end of the run. */
  method LoadGroups(w: Width, stream: seq<Byte>) returns (ok: bool, t: int, k: nat)
    ensures ok <==> RunLength(stream) <= |stream|
    ensures ok ==> k == RunLength(stream) && t == Groups(stream[..k]) % w.Modulus()
  {
    t, k := 0, 0;
    var more := true;
    assert stream[..0] == [];
    while more
      invariant k <= |stream| && t == Groups(stream[..k]) % w.Modulus()
      invariant more ==> forall i :: 0 <= i < k ==> stream[i] >= 128
      invariant !more ==> k > 0 && Terminated(stream[..k])
      decreases more, |stream| - k
    {
      if k == |stream| {
        return false, t, k;
      }
      var byte := stream[k];
      assert stream[..k + 1][..k] == stream[..k];
      AddModulo(w, Groups(stream[..k]), byte % 128 * Pow128(k));
      t := (t + byte % 128 * Pow128(k)) % w.Modulus();
      k := k + 1;
      more := byte >= 128;
    }
    RunLengthIs(stream, k);
    ok := true;
  }

  lemma AddModulo(w: Width, a: int, b: int)
    ensures (a % w.Modulus() + b) % w.Modulus() == (a + b) % w.Modulus()
  {
    if w.W32? {
      assert a == a / TWO_TO_32 * TWO_TO_32 + a % TWO_TO_32;
    } else {
      assert a == a / TWO_TO_64 * TWO_TO_64 + a % TWO_TO_64;
    }
  }

  /** load, for signed types. */
  method LoadSigned(w: Width, undefined: (nat, int) -> int, stream: seq<Byte>) returns (r: Loaded)
    ensures r == if RunLength(stream) <= |stream| then Loaded(DecodeSigned(w, undefined, stream[..RunLength(stream)]),
      stream[RunLength(stream)..]) else EndOfStream
  {
    var ok, t, k := LoadGroups(w, stream);
    if !ok { return EndOfStream; }
    var byte := stream[k - 1];
    assert stream[..k][k - 1] == byte;
    var shift := 7 * k;
    var signbit := byte / 64 % 2 == 1;
    if signbit && shift < w.Bits() {
      r := Loaded(if shift < 32 then t - Pow128(k) else undefined(shift, t), stream[k..]);
    } else {
      r := Loaded(Signed(w, t), stream[k..]);
    }
  }

  /** load, for unsigned types. */
  method LoadUnsigned(w: Width, stream: seq<Byte>) returns (r: Loaded)
    ensures r == if RunLength(stream) <= |stream| then Loaded(Groups(stream[..RunLength(stream)]) % w.Modulus(),
      stream[RunLength(stream)..]) else EndOfStream
  {
    var ok, t, k := LoadGroups(w, stream);
    r := if ok then Loaded(t, stream[k..]) else EndOfStream;
  }

  // ---------- round trips ----------

  lemma RunOf(bs: seq<Byte>, suffix: seq<Byte>)
    requires Terminated(bs)
    ensures RunLength(bs + suffix) == |bs| && (bs + suffix)[..|bs|] == bs && (bs + suffix)[|bs|..] == suffix
  {
    assert (bs + suffix)[..|bs|] == bs;
    RunLengthIs(bs + suffix, |bs|);
  }

  lemma Powers()
    ensures Pow128(0) == 1 && Pow128(1) == 0x80 && Pow128(2) == 0x4000 && Pow128(3) == 0x20_0000 &&
      Pow128(4) == 0x1000_0000
    ensures Pow128(5) == 0x8_0000_0000 && Pow128(6) == 0x400_0000_0000 && Pow128(7) == 0x2_0000_0000_0000
    ensures Pow128(8) == 0x100_0000_0000_0000 && Pow128(9) == 0x8000_0000_0000_0000 && Pow128(10) == 64 * TWO_TO_64
  {
    assert Pow128(5) == 128 * Pow128(4);
    assert Pow128(8) == 128 * Pow128(7);
    assert Pow128(10) == 128 * Pow128(9);
  }

  /** Loading an unsigned number undoes saving it, and leaves what follows. */
  lemma UnsignedRoundTrip(w: Width, v: int, suffix: seq<Byte>)
    requires IsUnsigned(w, v)
    ensures var stream := EncodeUnsigned(v) + suffix; var n := RunLength(stream);
      n <= |stream| && Groups(stream[..n]) % w.Modulus() == v && stream[n..] == suffix
  {
    EncodedUnsigned(v);
    RunOf(EncodeUnsigned(v), suffix);
  }

  /** The numbers for which the sign mask, if one is needed, is made by a shift that an int has. */
  predicate MaskDefined(w: Width, v: int) {
    w.W32? || v >= -0x800_0000 || v < -0x4000_0000_0000_0000
  }

  lemma SignedDecode(w: Width, undefined: (nat, int) -> int, v: int)
    requires IsSigned(w, v) && MaskDefined(w, v)
    ensures EncodeSigned(v) != [] && DecodeSigned(w, undefined, EncodeSigned(v)) == v
  {
    EncodedSigned(v);
    var bs := EncodeSigned(v);
    SignedBytes(w, v);
    GroupsRange(bs);
    hide EncodeSigned, Groups, Pow128, Extended;
    assert bs[|bs| - 1] / 64 % 2 == 1 <==> v < 0;
    ExtendedIs(w, undefined, v, Groups(bs), |bs|);
  }

  lemma ExtendedIs(w: Width, undefined: (nat, int) -> int, v: int, g: int, k: nat)
    requires IsSigned(w, v) && 0 <= g < Pow128(k) && v == g - if v < 0 then Pow128(k) else 0
    requires v < 0 ==> k <= 4 || k == if w.W32? then 5 else 10
    ensures Extended(w, undefined, g % w.Modulus(), k, v < 0) == v
  {
    Powers();
    hide Pow128;
    if v >= 0 {
      assert g == v;
    } else if k <= 4 {
      assert Pow128(k) <= TWO_TO_32;
    } else if w.W32? {
      assert g == v + 8 * TWO_TO_32;
    } else {
      assert g == v + 64 * TWO_TO_64;
    }
  }

  /** How many bytes a number takes: at most 5 or 10, and a negative one with a defined mask at most 4, or all. */
  lemma SignedBytes(w: Width, v: int)
    requires IsSigned(w, v)
    ensures |EncodeSigned(v)| <= if w.W32? then 5 else 10
    ensures v < 0 && MaskDefined(w, v) && |EncodeSigned(v)| > 4 ==> |EncodeSigned(v)| == if w.W32? then 5 else 10
  {
    Powers();
    SignedLength(v, 4);
    SignedLength(v, 5);
    SignedLength(v, 9);
    SignedLength(v, 10);
  }

  /**
    Loading a signed number undoes saving it whatever an undefined shift gives, exactly if its sign mask
    needs none: for every 32-bit number, and for 64-bit numbers from -2^27 up and below -2^62.
   */
  lemma SignedRoundTrip(w: Width, v: int)
    requires IsSigned(w, v)
    ensures EncodeSigned(v) != []
    ensures (forall undefined: (nat, int) -> int :: DecodeSigned(w, undefined, EncodeSigned(v)) == v) <==>
      MaskDefined(w, v)
  {
    EncodedSigned(v);
    if MaskDefined(w, v) {
      forall undefined: (nat, int) -> int ensures DecodeSigned(w, undefined, EncodeSigned(v)) == v {
        SignedDecode(w, undefined, v);
      }
    } else {
      SignedLength(v, 4);
      SignedLength(v, 9);
      Powers();
      var zero: (nat, int) -> int := (s, t) => 0;
      assert DecodeSigned(w, zero, EncodeSigned(v)) == 0;
    }
  }

  /** What follows a signed number in the stream is left untouched. */
  lemma SignedSuffix(w: Width, undefined: (nat, int) -> int, v: int, suffix: seq<Byte>)
    ensures var stream := EncodeSigned(v) + suffix; var n := RunLength(stream);
      n <= |stream| && stream[..n] == EncodeSigned(v) && stream[n..] == suffix
  {
    EncodedSigned(v);
    RunOf(EncodeSigned(v), suffix);
  }
}
