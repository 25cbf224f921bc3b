/** Batches, pacer and wire format together. */
module PacedSending {
  import opened Bytes
  import opened Pacing
  import opened Batching
  import opened Framing

  /** A connection sharing the pacer: its batch setup and everything it queued. */
  datatype Conn = Conn(s: Setup, ops: seq<Op>)

  predicate Shares(c: Conn, p: Bucket, accounting: Accounting) {
    c.s.Valid() && c.s.limit == Paced(p.burst, accounting) && OpsOk(c.s, c.ops)
  }

  /** A visit to the pacer on behalf of a batch that the connection flushed. */
  predicate OnBehalf(c: Conn, v: Visit) {
    exists f :: f in Run(c.s, c.ops).flushed && v.wire == f.wire && v.critical == f.pace.Critical?
  }

  /** No batch exceeds the burst by as much as one datagram's cost. */
  lemma BatchBounded(c: Conn, p: Bucket, accounting: Accounting, cost: nat, v: Visit)
    requires Shares(c, p, accounting) && Cost(accounting, c.s.gsoSize) <= cost && OnBehalf(c, v)
    ensures v.wire <= p.burst - 1 + cost
  {
    RunKeeps(c.s, c.ops);
  }

  /**
   * The aggregate rate: connections in any number, their flushes interleaved in any way and
   * retried any number of times, are granted within a window of length t at most
   * burst + rate * t + max(burst, cost - 1) wire bytes.
   */
  lemma AggregateRate(p: Bucket, accounting: Accounting, conns: seq<Conn>, cost: nat,
                      before: seq<Visit>, vs: seq<Visit>, from: int, until: int)
    requires p.Valid() && p.tokens == p.burst && 0 < cost && from <= until
    requires forall c :: c in conns ==> Shares(c, p, accounting) && Cost(accounting, c.s.gsoSize) <= cost
    requires forall v :: v in before + vs ==> exists c :: c in conns && OnBehalf(c, v)
    requires Timed(p.last, before + vs) && (forall v :: v in vs ==> from <= v.now <= until)
    ensures Granted(After(p, before), vs) * SECOND <= (p.burst + Max(p.burst, cost - 1)) * SECOND + p.rate * (until - from)
  {
    hide OnBehalf, Cost, Granted, After, Timed;
    forall v | v in before + vs ensures v.wire <= p.burst - 1 + cost {
      var c :| c in conns && OnBehalf(c, v);
      BatchBounded(c, p, accounting, cost, v);
    }
    assert forall i :: 0 <= i < |before| ==> before[i] in before + vs;
    assert forall i :: 0 <= i < |vs| ==> vs[i] in before + vs;
    WindowBound(p, before, vs, cost, from, until);
  }

  // --- through segmentation and coalescing ---

  predicate Carries(d: Datagram, f: RawFrame) {
    f.Encodable() && d.bytes == Encode(f)
  }

  predicate AllCarry(ds: seq<Datagram>, fs: seq<RawFrame>) {
    |ds| == |fs| && (forall i :: 0 <= i < |ds| ==> Carries(ds[i], fs[i]))
  }

  /** Datagrams coalesced in order parse to the frames they carry. */
  lemma {:induction false} Coalesced(ds: seq<Datagram>, fs: seq<RawFrame>)
    requires AllCarry(ds, fs)
    ensures Gather(ds) == Concat(fs) && Parse(Gather(ds)) == fs
  {
    GatherIs(ds, fs);
    ParseConcat(fs, []);
    assert Concat(fs) + [] == Concat(fs);
    ShortEnds([]);
  }

  lemma {:induction false} GatherIs(ds: seq<Datagram>, fs: seq<RawFrame>)
    requires AllCarry(ds, fs)
    ensures Gather(ds) == Concat(fs)
  {
    hide Encode;
    if ds != [] {
      GatherIs(ds[1..], fs[1..]);
    }
  }

  /**
   * From queue to dispatch: every message handed to the kernel is cut into exactly the frames
   * packed in it, and the flushed datagrams, coalesced in order, parse to the frames queued first.
   */
  lemma FramesSurvive(s: Setup, ops: seq<Op>, fs: seq<RawFrame>)
    requires s.Valid() && OpsOk(s, ops) && AllCarry(QueuedBy(ops), fs)
    ensures var o := Run(s, ops);
            && |Sent(o.flushed)| <= |fs| && Parse(Gather(Sent(o.flushed))) == fs[..|Sent(o.flushed)|]
            && (forall f, m :: f in o.flushed && m in f.msgs ==> Cut(Gather(m), s.gsoSize) == Batching.Payloads(m))
  {
    hide Batching.Run, Gather, Parse, Carries, BatchOk, Frames, Sent;
    RunKeeps(s, ops);
    var o := Run(s, ops);
    var ds := Sent(o.flushed);
    assert forall i :: 0 <= i < |ds| ==> ds[i] == QueuedBy(ops)[i];
    Coalesced(ds, fs[..|ds|]);
    forall f, m | f in o.flushed && m in f.msgs ensures Cut(Gather(m), s.gsoSize) == Batching.Payloads(m) {
      assert FlushOk(s, f);
      CutExact(s, m);
    }
  }

  // --- headers written apart from their payloads ---

  /** The header of a frame, with a zeroed metadata prefix for DATA under parity protection. */
  method WriteFrameHdr(buf: array<byte>, off: nat, ftype: byte, stream: nat, sn: nat, dataLen: nat, prefixed: bool)
    returns (hdrLen: nat)
    requires off + HEADER + (if prefixed then META else 0) <= buf.Length
    modifies buf
    ensures hdrLen == HEADER + (if prefixed then META else 0)
    ensures buf[..off] == old(buf[..off]) && buf[off + hdrLen..] == old(buf[off + hdrLen..])
    ensures forall data: Bytes :: |data| == dataLen ==>
              buf[off..off + hdrLen] + data ==
              Encode(RawFrame(ftype, stream, sn, (if prefixed then [0, 0, 0, 0] else []) + data))
  {
    hide Big;
    hdrLen := if prefixed then HEADER + META else HEADER;
    var meta: Bytes := if prefixed then [0, 0, 0, 0] else [];
    ghost var was := buf[..];
    ghost var h := Header(ftype, stream, sn, |meta| + dataLen);
    EncodeHeader(buf, off, ftype, stream, sn, hdrLen - HEADER + dataLen);
    PutBytes(buf, off + HEADER, meta);
    SpliceTwice(was, off, h, meta);
    assert buf[off..off + hdrLen] == h + meta;
    forall data: Bytes | |data| == dataLen
      ensures buf[off..off + hdrLen] + data == Encode(RawFrame(ftype, stream, sn, meta + data))
    {
      assert h + meta + data == h + (meta + data);
    }
  }
}
