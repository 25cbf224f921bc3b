/** The wire format: frame headers, whole frames, sequence-number lists, coalesced buffers. */
module Framing {
  import opened Bytes

  const HEADER: nat := 13
  const META: nat := 4
  const LIMIT32: nat := 0x1_0000_0000

  datatype Result<T> = Ok(value: T) | Err(error: string)

  // --- big-endian numbers ---

  function Octet(n: nat): byte
    requires n < 256
  {
    n as byte
  }

  function Value(b: byte): (n: nat)
    ensures n < 256
  {
    b as nat
  }

  lemma ValueOctet(b: byte)
    ensures Octet(Value(b)) == b
  {
  }

  lemma ValueNext(b: byte)
    requires b != 255
    ensures Value(b + 1) == Value(b) + 1
  {
  }

  /** Some byte has the value n. */
  lemma {:induction false} ByteOf(n: nat) returns (b: byte)
    requires n < 256
    ensures Value(b) == n
  {
    if n == 0 {
      b := 0;
    } else {
      b := ByteOf(n - 1);
      ValueNext(b);
      b := b + 1;
    }
  }

  lemma OctetValue(n: nat)
    requires n < 256
    ensures Value(Octet(n)) == n
  {
    hide Octet, Value;
    var b := ByteOf(n);
    ValueOctet(b);
  }

  function Pow(k: nat): (p: nat)
    ensures p > 0
  {
    if k == 0 then 1 else 256 * Pow(k - 1)
  }

  /** The k low base-256 digits of n, most significant first. */
  function Big(n: nat, k: nat): (b: Bytes)
    ensures |b| == k
  {
    if k == 0 then [] else Big(n / 256, k - 1) + [Octet(n % 256)]
  }

  function Num(b: Bytes): nat {
    if b == [] then 0 else Num(b[..|b| - 1]) * 256 + Value(b[|b| - 1])
  }

  lemma {:induction false} NumBig(n: nat, k: nat)
    requires n < Pow(k)
    ensures Num(Big(n, k)) == n
  {
    hide Octet, Value;
    if k > 0 {
      NumBig(n / 256, k - 1);
      OctetValue(n % 256);
    }
  }

  lemma {:induction false} BigNum(b: Bytes)
    ensures Num(b) < Pow(|b|) && Big(Num(b), |b|) == b
  {
    hide Octet;
    if b != [] {
      BigNum(b[..|b| - 1]);
      ValueOctet(b[|b| - 1]);
    }
  }

  lemma Big32(n: nat)
    requires n < LIMIT32
    ensures Num(Big(n, 4)) == n
  {
    Pow32();
    NumBig(n, 4);
  }

  lemma Pow32()
    ensures Pow(4) == LIMIT32
  {
    assert Pow(1) == 256 && Pow(2) == 0x1_0000 && Pow(3) == 0x100_0000;
  }

  lemma Num32(b: Bytes)
    requires |b| == 4
    ensures Num(b) < LIMIT32 && Big(Num(b), 4) == b
  {
    Pow32();
    BigNum(b);
  }

  // --- frames ---

  datatype RawFrame = RawFrame(ftype: byte, stream: nat, sn: nat, payload: Bytes) {
    predicate Encodable() {
      stream < LIMIT32 && sn < LIMIT32 && |payload| < LIMIT32
    }
  }

  function Header(ftype: byte, stream: nat, sn: nat, length: nat): (h: Bytes)
    ensures |h| == HEADER
  {
    [ftype] + Big(stream, 4) + Big(sn, 4) + Big(length, 4)
  }

  function Encode(f: RawFrame): Bytes {
    Header(f.ftype, f.stream, f.sn, |f.payload|) + f.payload
  }

  function Decode(buf: Bytes): Result<RawFrame> {
    if |buf| < HEADER then Err("buffer too small for frame header")
    else
      var length := Num(buf[9..13]);
      if |buf| < HEADER + length then Err("frame payload truncated")
      else Ok(RawFrame(buf[0], Num(buf[1..5]), Num(buf[5..9]), buf[13..13 + length]))
  }

  /** A frame decodes to itself, whatever follows it in the buffer. */
  lemma DecodeEncode(f: RawFrame, rest: Bytes)
    requires f.Encodable()
    ensures Decode(Encode(f) + rest) == Ok(f)
  {
    hide Num, Big;
    var b := Encode(f) + rest;
    assert b[1..5] == Big(f.stream, 4) && b[5..9] == Big(f.sn, 4) && b[9..13] == Big(|f.payload|, 4);
    assert b[13..13 + |f.payload|] == f.payload;
    Big32(f.stream);
    Big32(f.sn);
    Big32(|f.payload|);
  }

  /** Whatever decodes is the encoding of what it decodes to. */
  lemma EncodeDecode(buf: Bytes)
    requires Decode(buf).Ok?
    ensures Decode(buf).value.Encodable()
    ensures Encode(Decode(buf).value) <= buf
  {
    hide Num, Big;
    var f := Decode(buf).value;
    Num32(buf[1..5]);
    Num32(buf[5..9]);
    Num32(buf[9..13]);
    var e := Encode(f);
    assert e == [buf[0]] + buf[1..5] + buf[5..9] + buf[9..13] + f.payload;
    assert e == buf[..|e|];
  }

  // --- a received buffer, possibly several datagrams coalesced ---

  function Concat(fs: seq<RawFrame>): Bytes {
    if fs == [] then [] else Encode(fs[0]) + Concat(fs[1..])
  }

  /** The frames dispatched from a buffer: a malformed one discards the remainder. */
  function Parse(buf: Bytes): seq<RawFrame>
    decreases |buf|
  {
    match Decode(buf)
    case Err(_) => []
    case Ok(f) => [f] + Parse(buf[HEADER + |f.payload|..])
  }

  predicate AllEncodable(fs: seq<RawFrame>) {
    forall i :: 0 <= i < |fs| ==> fs[i].Encodable()
  }

  /** Parsing frames sent back to back yields those frames, then whatever the rest parses to. */
  lemma {:induction false} ParseConcat(fs: seq<RawFrame>, rest: Bytes)
    requires AllEncodable(fs)
    ensures Parse(Concat(fs) + rest) == fs + Parse(rest)
  {
    hide Decode, Encode;
    if fs == [] {
      assert Concat(fs) + rest == rest;
    } else {
      var tail := Concat(fs[1..]) + rest;
      assert Concat(fs) + rest == Encode(fs[0]) + tail;
      DecodeEncode(fs[0], tail);
      EncodeLength(fs[0]);
      assert (Encode(fs[0]) + tail)[HEADER + |fs[0].payload|..] == tail;
      ParseConcat(fs[1..], rest);
    }
  }

  lemma EncodeLength(f: RawFrame)
    ensures |Encode(f)| == HEADER + |f.payload|
  {
  }

  /** Of arbitrary bytes the parse dispatches only what is there, in order, and stops only where no frame starts. */
  lemma {:induction false} ParseSound(buf: Bytes)
    ensures AllEncodable(Parse(buf)) && Concat(Parse(buf)) <= buf
    ensures Decode(buf[|Concat(Parse(buf))|..]).Err?
    decreases |buf|
  {
    hide Decode, Encode;
    match Decode(buf) {
      case Err(_) =>
        assert buf[0..] == buf;
      case Ok(f) =>
        EncodeDecode(buf);
        EncodeLength(f);
        var rest := buf[HEADER + |f.payload|..];
        ParseSound(rest);
        var c := Concat(Parse(rest));
        assert Parse(buf)[1..] == Parse(rest);
        assert buf == Encode(f) + rest;
        assert buf[|Encode(f) + c|..] == rest[|c|..];
    }
  }

  /** The receive loop: never out of bounds, always terminates, dispatches exactly the parse. */
  method HandleDatagram(buf: Bytes) returns (dispatched: seq<RawFrame>)
    ensures dispatched == Parse(buf)
  {
    hide Decode;
    dispatched := [];
    var rest := buf;
    while |rest| >= HEADER
      invariant Parse(buf) == dispatched + Parse(rest)
      decreases |rest|
    {
      var r := DecodeFrame(rest);
      if r.Err? {
        return;
      }
      dispatched := dispatched + [r.value];
      rest := rest[HEADER + |r.value.payload|..];
    }
    ShortEnds(rest);
  }

  lemma ShortEnds(buf: Bytes)
    requires |buf| < HEADER
    ensures Parse(buf) == []
  {
  }

  method DecodeFrame(buf: Bytes) returns (r: Result<RawFrame>)
    ensures r == Decode(buf)
    ensures r.Ok? ==> HEADER + |r.value.payload| <= |buf|
  {
    if |buf| < HEADER {
      return Err("buffer too small for frame header");
    }
    var length := Num(buf[9..13]);
    var total := HEADER + length;
    if |buf| < total {
      return Err("frame payload truncated");
    }
    return Ok(RawFrame(buf[0], Num(buf[1..5]), Num(buf[5..9]), buf[HEADER..total]));
  }

  // --- writing in place ---

  /** The buffer with b written at offset off. */
  function Splice(buf: Bytes, off: nat, b: Bytes): (r: Bytes)
    requires off + |b| <= |buf|
    ensures |r| == |buf|
  {
    buf[..off] + b + buf[off + |b|..]
  }

  lemma SpliceTwice(buf: Bytes, off: nat, a: Bytes, b: Bytes)
    requires off + |a| + |b| <= |buf|
    ensures Splice(Splice(buf, off, a), off + |a|, b) == Splice(buf, off, a + b)
  {
  }

  method Put32(buf: array<byte>, off: nat, n: nat)
    requires off + 4 <= buf.Length
    modifies buf
    ensures buf[..] == Splice(old(buf[..]), off, Big(n, 4))
  {
    var b := Big(n, 4);
    buf[off] := b[0];
    buf[off + 1] := b[1];
    buf[off + 2] := b[2];
    buf[off + 3] := b[3];
  }

  method PutBytes(buf: array<byte>, off: nat, b: Bytes)
    requires off + |b| <= buf.Length
    modifies buf
    ensures buf[..] == Splice(old(buf[..]), off, b)
  {
    for i := 0 to |b|
      invariant forall j :: 0 <= j < i ==> buf[off + j] == b[j]
      invariant forall j :: 0 <= j < buf.Length && !(off <= j < off + i) ==> buf[j] == old(buf[j])
    {
      buf[off + i] := b[i];
    }
  }

  method EncodeHeader(buf: array<byte>, off: nat, ftype: byte, stream: nat, sn: nat, length: nat)
    requires off + HEADER <= buf.Length
    modifies buf
    ensures buf[..] == Splice(old(buf[..]), off, Header(ftype, stream, sn, length))
  {
    hide Big, Splice;
    ghost var was := buf[..];
    PutBytes(buf, off, [ftype]);
    Put32(buf, off + 1, stream);
    SpliceTwice(was, off, [ftype], Big(stream, 4));
    Put32(buf, off + 5, sn);
    SpliceTwice(was, off, [ftype] + Big(stream, 4), Big(sn, 4));
    Put32(buf, off + 9, length);
    SpliceTwice(was, off, [ftype] + Big(stream, 4) + Big(sn, 4), Big(length, 4));
  }

  method EncodeFrame(buf: array<byte>, ftype: byte, stream: nat, sn: nat, payload: Bytes) returns (n: nat)
    requires HEADER + |payload| <= buf.Length
    modifies buf
    ensures n <= buf.Length && buf[..n] == Encode(RawFrame(ftype, stream, sn, payload))
    ensures buf[n..] == old(buf[n..])
  {
    hide Header;
    EncodeHeader(buf, 0, ftype, stream, sn, |payload|);
    PutBytes(buf, HEADER, payload);
    n := HEADER + |payload|;
  }
}
