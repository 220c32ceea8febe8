/**
  RPC datagrams (lib/Remote/RemoteProxyDatagram.cpp): a header word, the payload's length as 32 bits in
  network order, the payload and a trailer word. What the payload means is not modelled.
 */
module Datagrams {
  import opened Values

  const TWO_TO_32 := 0x1_0000_0000
  const HEADER_WORD: seq<Byte> := ['P' as int, 'R' as int, 'P' as int, 'C' as int]
  const TRAILER_WORD: seq<Byte> := ['C' as int, 'P' as int, 'R' as int, 'P' as int]

  // ---------- the framing ----------

  /** A 32-bit word in network order. */
  function Word(n: int): seq<Byte>
    requires 0 <= n < TWO_TO_32
  {
    [n / 0x100_0000, n / 0x1_0000 % 256, n / 0x100 % 256, n % 256]
  }

  function FromWord(w: seq<Byte>): (n: int)
    requires |w| == 4
    ensures 0 <= n < TWO_TO_32
  {
    var a: int, b: int, c: int, d: int := w[0], w[1], w[2], w[3];
    a * 0x100_0000 + b * 0x1_0000 + c * 0x100 + d
  }

  lemma WordRoundTrip(n: int)
    requires 0 <= n < TWO_TO_32
    ensures FromWord(Word(n)) == n
  {
    var a := n / 256;
    var b := a / 256;
    assert n == 256 * a + n % 256 && a == 256 * b + a % 256 && b == 256 * (b / 256) + b % 256;
    assert n / 0x1_0000 == b && n / 0x100_0000 == b / 256;
  }

  /** The first byte is the most significant one. */
  lemma WordIsBigEndian(n: int)
    requires 0 <= n < TWO_TO_32
    ensures var w := Word(n);
      var a: int, b: int, c: int, d: int := w[0], w[1], w[2], w[3];
      |w| == 4 && ((a * 256 + b) * 256 + c) * 256 + d == n
  {
    WordRoundTrip(n);
  }

  lemma WordOfBytes(w: seq<Byte>)
    requires |w| == 4
    ensures Word(FromWord(w)) == w
  {
    var a: int, b: int, c: int, d: int := w[0], w[1], w[2], w[3];
    var n := FromWord(w);
    assert n == ((a * 256 + b) * 256 + c) * 256 + d;
    assert n / 256 == (a * 256 + b) * 256 + c && n % 256 == d;
    assert n / 256 / 256 == a * 256 + b && n / 256 % 256 == c;
    assert n / 0x1_0000 == n / 256 / 256 && n / 0x100_0000 == n / 256 / 256 / 256;
  }

  /** The length is cut to 32 bits. */
  function Frame(payload: seq<Byte>): seq<Byte> {
    HEADER_WORD + Word(|payload| % TWO_TO_32) + payload + TRAILER_WORD
  }

  datatype Received = Received(payload: seq<Byte>, rest: seq<Byte>) | StreamEnd | HeaderWordFail | TrailerWordFail

  /** The constructor of PRPCDatagramIbuf, up to deserialization. */
  function Receive(stream: seq<Byte>): Received {
    if |stream| < 8 then StreamEnd
    else if stream[..4] != HEADER_WORD then HeaderWordFail
    else
      var n := FromWord(stream[4..8]);
      var body := stream[8..];
      if |body| < n then StreamEnd
      else if |body[n..]| < 4 then StreamEnd
      else if body[n..][..4] != TRAILER_WORD then TrailerWordFail
      else Received(body[..n], body[n..][4..])
  }

  lemma FrameParts(payload: seq<Byte>, suffix: seq<Byte>)
    ensures var stream := Frame(payload) + suffix;
      && |stream| >= 12 && stream[..4] == HEADER_WORD
      && stream[4..8] == Word(|payload| % TWO_TO_32)
      && stream[8..] == payload + TRAILER_WORD + suffix
  {
  }

  /** What is received is what was sent, and the rest of the stream is left, exactly if the length fits in 32 bits. */
  lemma FrameRoundTrip(payload: seq<Byte>, suffix: seq<Byte>)
    ensures Receive(Frame(payload) + suffix) == Received(payload, suffix) <==> |payload| < TWO_TO_32
  {
    var stream := Frame(payload) + suffix;
    FrameParts(payload, suffix);
    var n := |payload| % TWO_TO_32;
    WordRoundTrip(n);
    var body := stream[8..];
    if |payload| < TWO_TO_32 {
      assert body[n..] == TRAILER_WORD + suffix;
      assert body[..n] == payload;
    } else {
      assert |body[..n]| == n;
    }
  }

  /** A datagram is received exactly if the stream starts with the frame of its payload. */
  lemma ReceiveExact(stream: seq<Byte>, payload: seq<Byte>, rest: seq<Byte>)
    requires |payload| < TWO_TO_32
    ensures Receive(stream) == Received(payload, rest) <==> stream == Frame(payload) + rest
  {
    hide Receive, Frame;
    FrameRoundTrip(payload, rest);
    if Receive(stream) == Received(payload, rest) {
      ReceivedIsFrame(stream);
    }
  }

  lemma ReceivedIsFrame(stream: seq<Byte>)
    requires Receive(stream).Received?
    ensures var r := Receive(stream); stream == Frame(r.payload) + r.rest
  {
    var r, n := Receive(stream), FromWord(stream[4..8]);
    ReceivedParts(stream);
    WordOfBytes(stream[4..8]);
    InParts(stream, n);
    hide Receive, FromWord, Word;
  }

  lemma ReceivedParts(stream: seq<Byte>)
    requires Receive(stream).Received?
    ensures var r, n := Receive(stream), FromWord(stream[4..8]);
      && |stream| >= 12 + n && |r.payload| == n && stream[..4] == HEADER_WORD && r.payload == stream[8..8 + n]
      && stream[8 + n..12 + n] == TRAILER_WORD && r.rest == stream[12 + n..]
  {
    var n, body := FromWord(stream[4..8]), stream[8..];
    assert body[..n] == stream[8..8 + n] && body[n..] == stream[8 + n..];
    hide FromWord;
    assert stream[8 + n..][..4] == stream[8 + n..12 + n] && stream[8 + n..][4..] == stream[12 + n..];
  }

  lemma InParts(s: seq<Byte>, n: nat)
    requires |s| >= 12 + n
    ensures s == s[..4] + s[4..8] + s[8..8 + n] + s[8 + n..12 + n] + s[12 + n..]
  {
  }

  /** What goes wrong, and when: a wrong first word, too few bytes, or a wrong last word. */
  lemma ReceiveFails(stream: seq<Byte>)
    ensures Receive(stream).HeaderWordFail? <==> |stream| >= 8 && stream[..4] != [0x50, 0x52, 0x50, 0x43]
    ensures Receive(stream).StreamEnd? <==>
      |stream| < 8 || (stream[..4] == [0x50, 0x52, 0x50, 0x43] && |stream| < 12 + FromWord(stream[4..8]))
    ensures Receive(stream).TrailerWordFail? <==>
      && |stream| >= 8 && stream[..4] == [0x50, 0x52, 0x50, 0x43]
      && var n := FromWord(stream[4..8]); |stream| >= 12 + n && stream[8 + n..12 + n] != [0x43, 0x50, 0x52, 0x50]
  {
    if |stream| >= 8 {
      var n := FromWord(stream[4..8]);
      if |stream| >= 12 + n {
        assert stream[8..][n..][..4] == stream[8 + n..12 + n];
      }
    }
  }

  function FrameAll(payloads: seq<seq<Byte>>): seq<Byte> {
    if payloads == [] then [] else Frame(payloads[0]) + FrameAll(payloads[1..])
  }

  /** Receiving n times. */
  function ReceiveAll(stream: seq<Byte>, n: nat): (seq<seq<Byte>>, seq<Byte>) {
    if n == 0 then ([], stream)
    else
      match Receive(stream)
      case Received(payload, rest) =>
        var (more, left) := ReceiveAll(rest, n - 1);
        ([payload] + more, left)
      case _ => ([], stream)
  }

  /** Datagrams written back to back are read back as the same payloads, and what follows is left. */
  lemma {:induction false} StreamRoundTrip(payloads: seq<seq<Byte>>, suffix: seq<Byte>)
    requires forall i :: 0 <= i < |payloads| ==> |payloads[i]| < TWO_TO_32
    ensures ReceiveAll(FrameAll(payloads) + suffix, |payloads|) == (payloads, suffix)
  {
    if payloads != [] {
      var rest := FrameAll(payloads[1..]) + suffix;
      assert FrameAll(payloads) + suffix == Frame(payloads[0]) + rest;
      FrameRoundTrip(payloads[0], rest);
      StreamRoundTrip(payloads[1..], suffix);
      hide Receive, Frame;
      assert [payloads[0]] + payloads[1..] == payloads;
    } else {
      assert FrameAll(payloads) + suffix == suffix;
    }
  }

  // ---------- the growing buffer ----------

  class Obuf {
    var bytesWritten: nat
    var payloadData: array<Byte>

    ghost predicate Valid()
      reads this
    {
      bytesWritten <= payloadData.Length && payloadData.Length > 0
    }

    /** What was written so far. */
    ghost function Contents(): seq<Byte>
      reads this, payloadData
      requires Valid()
    {
      payloadData[..bytesWritten]
    }

    constructor ()
      ensures Valid() && Contents() == [] && fresh(payloadData)
    {
      bytesWritten := 0;
      payloadData := new Byte[1024](_ => 0);
    }

    /** Room for count more bytes, by doubling; nothing that was written changes. */
    method EnsureSize(count: nat)
      modifies this`payloadData
      requires Valid()
      ensures Valid() && bytesWritten + count <= payloadData.Length && Contents() == old(Contents())
      ensures payloadData == old(payloadData) || fresh(payloadData)
      ensures payloadData == old(payloadData) || payloadData.Length < 2 * (bytesWritten + count)
    {
      while bytesWritten + count > payloadData.Length
        invariant Valid() && Contents() == old(Contents())
        invariant payloadData == old(payloadData) || fresh(payloadData)
        invariant payloadData == old(payloadData) || payloadData.Length < 2 * (bytesWritten + count)
        decreases bytesWritten + count - payloadData.Length
      {
        var data := payloadData;
        var grown := new Byte[data.Length * 2](i requires 0 <= i reads data => if i < data.Length then data[i] else 0);
        assert grown[..bytesWritten] == data[..bytesWritten];
        payloadData := grown;
      }
    }

    /** overflow, for a character that is not the end of file. */
    method Overflow(c: Byte)
      modifies this, payloadData
      requires Valid()
      ensures Valid() && Contents() == old(Contents()) + [c]
      ensures payloadData == old(payloadData) || fresh(payloadData)
    {
      EnsureSize(1);
      payloadData[bytesWritten] := c;
      bytesWritten := bytesWritten + 1;
    }

    /** xsputn: every write is within the buffer. */
    method Xsputn(s: seq<Byte>)
      modifies this, payloadData
      requires Valid()
      ensures Valid() && Contents() == old(Contents()) + s
      ensures payloadData == old(payloadData) || fresh(payloadData)
    {
      EnsureSize(|s|);
      var i := 0;
      ghost var was := Contents();
      while i < |s|
        invariant 0 <= i <= |s| && bytesWritten + |s| <= payloadData.Length && bytesWritten == |was|
        invariant payloadData[..bytesWritten] == was && payloadData[bytesWritten..bytesWritten + i] == s[..i]
        invariant Valid() && (payloadData == old(payloadData) || fresh(payloadData))
      {
        payloadData[bytesWritten + i] := s[i];
        i := i + 1;
      }
      assert payloadData[..bytesWritten + |s|] == was + s;
      bytesWritten := bytesWritten + |s|;
    }

    /** The bytes that go out once everything is written. */
    method Datagram() returns (bytes: seq<Byte>)
      requires Valid()
      ensures bytes == Frame(Contents())
    {
      bytes := HEADER_WORD + Word(bytesWritten % TWO_TO_32);
      bytes := bytes + payloadData[..bytesWritten];
      bytes := bytes + TRAILER_WORD;
    }
  }

  /** A whole series of writes into a new buffer. */
  method Send(writes: seq<seq<Byte>>) returns (bytes: seq<Byte>)
    ensures bytes == Frame(Joined(writes))
  {
    var buf := new Obuf();
    var i := 0;
    while i < |writes|
      invariant 0 <= i <= |writes| && buf.Valid() && buf.Contents() == Joined(writes[..i]) && fresh(buf) &&
        fresh(buf.payloadData)
    {
      assert writes[..i + 1][..i] == writes[..i];
      buf.Xsputn(writes[i]);
      i := i + 1;
    }
    assert writes[..i] == writes;
    bytes := buf.Datagram();
  }

  function Joined(writes: seq<seq<Byte>>): seq<Byte> {
    if writes == [] then [] else Joined(writes[..|writes| - 1]) + writes[|writes| - 1]
  }

  // ---------- reading the payload ----------

  const EOF := -1

  class Ibuf {
    var bytesRead: nat
    const payloadData: seq<Byte>

    ghost predicate Valid()
      reads this
    {
      bytesRead <= |payloadData|
    }

    /** What is yet to be read. */
    ghost function Unread(): seq<Byte>
      reads this
      requires Valid()
    {
      payloadData[bytesRead..]
    }

    constructor (payload: seq<Byte>)
      ensures Valid() && Unread() == payload && payloadData == payload
    {
      bytesRead, payloadData := 0, payload;
    }

    method Underflow() returns (c: int)
      requires Valid()
      ensures c == if Unread() == [] then EOF else Unread()[0]
    {
      if |payloadData| - bytesRead == 0 { return EOF; }
      c := payloadData[bytesRead];
    }

    method Uflow() returns (c: int)
      modifies this
      requires Valid()
      ensures Valid()
      ensures if old(Unread()) == [] then c == EOF && Unread() == [] else old(Unread()) == [c] + Unread()
    {
      if |payloadData| - bytesRead == 0 { return EOF; }
      c := payloadData[bytesRead];
      bytesRead := bytesRead + 1;
    }

    /** pbackfail: only the character that was just read goes back. */
    method Pbackfail(c: int) returns (r: int)
      modifies this
      requires Valid()
      ensures Valid() && r in {c, EOF}
      ensures if r != EOF then Unread() == [c] + old(Unread()) else Unread() == old(Unread())
      ensures r != EOF <==> old(bytesRead) > 0 && payloadData[old(bytesRead) - 1] == c
    {
      if c == EOF || bytesRead == 0 || c != payloadData[bytesRead - 1] { return EOF; }
      bytesRead := bytesRead - 1;
      r := c;
    }

    /** xsgetn: as many bytes as are asked for and there are. */
    method Xsgetn(n: nat) returns (count: int, s: seq<Byte>)
      modifies this
      requires Valid()
      ensures Valid() && old(Unread()) == s + Unread()
      ensures count == if old(Unread()) == [] then EOF else |s|
      ensures |s| == if n < |old(Unread())| then n else |old(Unread())|
    {
      var available := |payloadData| - bytesRead;
      if available == 0 { return EOF, []; }
      count := if n < available then n else available;
      s := payloadData[bytesRead..bytesRead + count];
      bytesRead := bytesRead + count;
    }
  }
}
