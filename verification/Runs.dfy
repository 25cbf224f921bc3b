/** The sender's half of the invariant, and the theorems about every run. */
module Runs {
  import opened Bytes
  import opened Geometry
  import opened Receiver
  import opened Exactness
  import opened Wire
  import opened Ledger
  import opened Sender
  import opened System
  import opened Safety

  // --- more frames are sent ---

  lemma AccGrow(c: Config, s: seq<Bytes>, t: seq<Bytes>, row: bool, accs: map<nat, Accum>, n: nat)
    requires AccOk(c, s, row, accs, n) && s <= t && n <= |s|
    ensures AccOk(c, t, row, accs, n)
  {
    hide c.IdxOf;
    forall b | b in accs ensures accs[b] == AccOf(c, t, row, b, Below(c, row, b, n, c.group)) {
      AccOfGrow(c, s, t, row, b, n);
    }
  }

  lemma AccOfGrow(c: Config, s: seq<Bytes>, t: seq<Bytes>, row: bool, b: nat, n: nat)
    requires c.group > 0 && s <= t && n <= |s|
    ensures var k := Below(c, row, b, n, c.group); AccOf(c, t, row, b, k) == AccOf(c, s, row, b, k)
  {
    var k := Below(c, row, b, n, c.group);
    if k > 0 {
      BelowIff(c, row, b, n, c.group, k - 1);
    }
    GroupGrow(c, s, t, row, b, k);
  }

  lemma PendGrow(c: Config, s: seq<Bytes>, t: seq<Bytes>, row: bool, pend: map<nat, Parity>)
    requires PendOk(c, s, row, pend) && s <= t
    ensures PendOk(c, t, row, pend)
  {
    hide c.IdxOf;
    forall b | b in pend ensures Genuine(c, t, row, b, pend[b]) {
      GroupGrow(c, s, t, row, b, pend[b].count);
    }
  }

  lemma BufGrow(c: Config, s: seq<Bytes>, t: seq<Bytes>, got: Bytes, r: RState)
    requires BufOk(c, s, got, r) && s <= t && |Flatten(t)| <= r.cap + |got|
    ensures BufOk(c, t, got, r)
  {
    assert t[..r.readSeq] == s[..r.readSeq];
    SumInGrow(s, t, r.reorder.Keys, 0);
  }

  lemma CoreGrow(c: Config, s: seq<Bytes>, t: seq<Bytes>, got: Bytes, r: RState)
    requires Core(c, s, got, r) && s <= t && ChunksOk(c, t) && |Flatten(t)| <= r.cap + |got|
    ensures Core(c, t, got, r)
  {
    hide AccOk, PendOk;
    BufGrow(c, s, t, got, r);
    PendGrow(c, s, t, false, r.colPend);
    PendGrow(c, s, t, true, r.rowPend);
    if Uses(c, false) {
      AccGrow(c, s, t, false, r.colAcc, r.readSeq);
    }
    if Uses(c, true) {
      AccGrow(c, s, t, true, r.rowAcc, r.readSeq);
    }
  }

  // --- writing ---

  lemma WriteLanes(c: Config, s: SState, chunk: Bytes)
    requires c.Valid() && LanesOk(c, s)
    ensures s.lanes == [] || |s.lanes| == c.group
    ensures LanesOk(c, WriteChunk(c, s, chunk).s)
    ensures forall x :: x in WriteChunk(c, s, chunk).frames ==>
              x == DataFrame(|s.sent|, chunk) ||
              (x.ParityFrame? && OnWire(c, WriteChunk(c, s, chunk).s, x.row, x.base, x.p))
  {
    hide LanesOk, OnWire, FecFold;
    LanesSized(c, s);
    var s2 := s.(sent := s.sent + [chunk], sentOffset := s.sentOffset + |chunk|,
                 unacked := s.unacked[|s.sent| := chunk]);
    FoldWire(c, s, s2, chunk);
  }

  /** Folding the chunk just sent keeps the lanes and emits only exact, full groups. */
  lemma FoldWire(c: Config, s: SState, s2: SState, chunk: Bytes)
    requires c.Valid() && LanesOk(c, s) && (s.lanes == [] || |s.lanes| == c.group)
    requires s2 == s.(sent := s.sent + [chunk], sentOffset := s2.sentOffset, unacked := s2.unacked)
    ensures var o := FecFold(c, s2, |s.sent|, chunk);
            LanesOk(c, o.s) && forall x :: x in o.frames ==> x.ParityFrame? && OnWire(c, o.s, x.row, x.base, x.p)
  {
    hide LaneIs, FoldEmit, GroupData, GroupLen, c.IsBase, c.Member;
    if c.group > 0 {
      hide LanesOk, FecFold, Genuine;
      var s1 := s.(sent := s.sent + [chunk]);
      FecFoldOk(c, s, chunk);
      FoldIgnores(c, s1, s2, |s.sent|, chunk);
      FoldSent(c, s2, |s.sent|, chunk);
      var o := FecFold(c, s2, |s.sent|, chunk);
      forall x | x in o.frames ensures x.ParityFrame? && OnWire(c, o.s, x.row, x.base, x.p) {
        FullIsCounted(c, o.s, x.row, x.base, x.p);
      }
    } else {
      NoLanes(c, s, s2);
    }
  }

  lemma NoLanes(c: Config, s: SState, t: SState)
    requires c.group == 0 && LanesOk(c, s) && t == s.(sent := t.sent, sentOffset := t.sentOffset, unacked := t.unacked)
    ensures LanesOk(c, t)
  {
  }

  lemma FoldSent(c: Config, s: SState, sn: nat, chunk: Bytes)
    requires s.lanes == [] || |s.lanes| == c.group
    ensures FecFold(c, s, sn, chunk).s.sent == s.sent
  {
    hide FoldEmit;
  }

  lemma FullIsCounted(c: Config, s: SState, row: bool, base: nat, p: Parity)
    requires Genuine(c, s.sent, row, base, p) && p.count == c.group
    ensures OnWire(c, s, row, base, p)
  {
    hide GroupData, GroupLen;
  }

  lemma LanesSized(c: Config, s: SState)
    requires LanesOk(c, s)
    ensures s.lanes == [] || |s.lanes| == c.group
  {
  }

  lemma FoldIgnores(c: Config, s: SState, t: SState, sn: nat, chunk: Bytes)
    requires s.lanes == [] || |s.lanes| == c.group
    requires t == s.(sentOffset := t.sentOffset, unacked := t.unacked)
    ensures var a, b := FecFold(c, s, sn, chunk), FecFold(c, t, sn, chunk);
            a.frames == b.frames && b.s == a.s.(sentOffset := t.sentOffset, unacked := t.unacked) &&
            (LanesOk(c, a.s) ==> LanesOk(c, b.s))
  {
    hide LaneIs, FoldEmit;
  }

  lemma WriterWrites(c: Config, s: SState, chunk: Bytes, limit: int)
    requires WriterOk(c, s) && !s.fin && 0 < |chunk| <= c.DataCap() && MayWrite(s, |chunk|, limit) &&
             limit <= c.MaxBuf()
    requires s.lanes == [] || |s.lanes| == c.group
    ensures WriterOk(c, WriteChunk(c, s, chunk).s)
  {
    hide LanesOk, WriteChunk;
    var n, t := |s.sent|, WriteChunk(c, s, chunk).s;
    WriteKeeps(c, s, chunk);
    WriteLanes(c, s, chunk);
    FlattenSnoc(s.sent, chunk);
    assert n !in s.unacked;
    assert t.unacked.Keys == s.unacked.Keys + {n};
    SumInGrow(s.sent, t.sent, s.unacked.Keys, 0);
    SumInAdd(t.sent, s.unacked.Keys, 0, n);
  }

  lemma NetGrows(c: Config, s: SState, t: SState, r: RState, net: set<Frame>)
    requires NetOk(c, s, r, net) && s.sent <= t.sent && (s.fin ==> t.fin && t.sent == s.sent && t.failed == s.failed)
    requires s.failed ==> s.fin
    ensures NetOk(c, t, r, net)
  {
    hide OnWire, Ackable;
    forall f | f in net ensures FrameOk(c, t, r, f) {
      assert FrameOk(c, s, r, f);
      if f.ParityFrame? {
        OnWireGrows(c, s, t, f.row, f.base, f.p);
      }
    }
  }

  lemma ArrivedGrows(c: Config, s: SState, t: SState, arrived: map<Key, nat>)
    requires ArrivedOk(c, s, arrived) && s.sent <= t.sent && (s.fin ==> t.fin && t.sent == s.sent)
    ensures ArrivedOk(c, t, arrived)
  {
    hide GroupCount;
    forall k | k in arrived ensures GroupCount(c, t, k.0, k.1, arrived[k]) {
      GroupCountGrows(c, s, t, k.0, k.1, arrived[k]);
    }
  }

  lemma ReaderGrows(c: Config, s: SState, t: SState, r: RState, got: Bytes)
    requires ReaderOk(c, s, r, got) && !s.fin && s.sent <= t.sent && ChunksOk(c, t.sent)
    requires |Flatten(t.sent)| <= r.peerOffset
    ensures ReaderOk(c, t, r, got)
  {
    hide Core, Flatten;
    if Dropped(r) {
      assert s.sent == t.sent[..|s.sent|];
      FlattenPrefix(t.sent, |s.sent|);
    } else {
      CoreGrow(c, s.sent, t.sent, got, r);
    }
  }

  lemma WriteOk(c: Config, y: Sys, chunk: Bytes, limit: int)
    requires Inv(c, y) && Enabled(c, y, Write(chunk, limit))
    ensures Inv(c, Do(c, y, Write(chunk, limit)))
  {
    hide WriteChunk, Core, ClosureOk, NetOk, AcksOk, ArrivedOk, ReaderOk, Flatten, LanesOk, OnWire, Has, Records;
    var s, o := y.s, WriteChunk(c, y.s, chunk);
    WriteKeeps(c, s, chunk);
    WriterWrites(c, s, chunk, limit);
    WriteLanes(c, s, chunk);
    ReaderGrows(c, s, o.s, y.r, y.got);
    NetGrows(c, s, o.s, y.r, y.net);
    ArrivedGrows(c, s, o.s, y.arrived);
    var z := y.(s := o.s);
    ClosureSame(c, y, z);
    assert Inv(c, z);
    AddFrames(c, z, o.frames);
  }

  // --- the other sender actions ---

  lemma CloseOk(c: Config, y: Sys)
    requires Inv(c, y)
    ensures Inv(c, Do(c, y, Close))
  {
    if !y.s.fin && !y.s.failed {
      hide CloseWrite, Core, ClosureOk, NetOk, AcksOk, ArrivedOk, ReaderOk, LanesOk, OnWire, Has;
      var s, o := y.s, CloseWrite(y.s);
      CloseFrame(c, s);
      ReaderSame(c, s, o.s, y.r, y.got);
      NetGrows(c, s, o.s, y.r, y.net);
      ArrivedGrows(c, s, o.s, y.arrived);
      var z := y.(s := o.s);
      ClosureSame(c, y, z);
      CloseWriter(c, s);
      forall f | f in o.frames ensures FrameOk(c, z.s, z.r, f) {
        CloseWriteOk(c, s, f);
      }
      AddFrames(c, z, o.frames);
    } else {
      assert y.net + {} == y.net;
    }
  }

  lemma CloseFrame(c: Config, s: SState)
    requires !s.fin && !s.failed
    ensures var t := CloseWrite(s).s;
            t == s.(fin := true, unacked := s.unacked[|s.sent| := []], lanes := t.lanes, rowLane := t.rowLane)
  {
  }

  lemma CloseWriter(c: Config, s: SState)
    requires WriterOk(c, s) && !s.fin && !s.failed
    ensures WriterOk(c, CloseWrite(s).s)
  {
    hide LanesOk, CloseWrite;
    CloseFrame(c, s);
    var n := |s.sent|;
    assert s.unacked[n := []].Keys == s.unacked.Keys + {n};
    SumInPastEnd(s.sent, s.unacked.Keys, 0, n);
  }

  /** The receiver does not see the write side close; it learns of it from the FIN. */
  lemma ReaderSame(c: Config, s: SState, t: SState, r: RState, got: Bytes)
    requires ReaderOk(c, s, r, got) && t.sent == s.sent && (s.fin ==> t.fin && t.failed == s.failed)
    ensures ReaderOk(c, t, r, got)
  {
    hide Core;
  }

  lemma AbortOk(c: Config, y: Sys, code: Bytes)
    requires Inv(c, y)
    ensures Inv(c, Send(y, AbortWrite(y.s, code)))
  {
    if !y.s.fin && !y.s.failed {
      hide Core, ClosureOk, NetOk, AcksOk, ArrivedOk, ReaderOk, LanesOk, OnWire, Has;
      var o := AbortWrite(y.s, code);
      ReaderSame(c, y.s, o.s, y.r, y.got);
      NetGrows(c, y.s, o.s, y.r, y.net);
      ArrivedGrows(c, y.s, o.s, y.arrived);
      var z := y.(s := o.s);
      ClosureSame(c, y, z);
      AddFrames(c, z, o.frames);
    } else {
      assert y.net + {} == y.net;
    }
  }

  lemma ResendOk(c: Config, y: Sys, sn: nat)
    requires Inv(c, y) && Enabled(c, y, Resend(sn))
    ensures Inv(c, Do(c, y, Resend(sn)))
  {
    hide Core, ClosureOk, NetOk, AcksOk, ArrivedOk, ReaderOk, LanesOk, Has;
    AddFrames(c, y, {DataFrame(sn, y.s.unacked[sn])});
  }

  /** An acknowledgement removes exactly the frames it names, frees their bytes once, and keeps the sweep mark. */
  lemma AckLedger(c: Config, s: SState, cum: nat, seqs: seq<nat>)
    requires WriterOk(c, s) && cum <= |s.sent| + (if s.fin then 1 else 0)
    ensures var t := HandleAck(s, cum, seqs);
            WriterOk(c, t) && t == s.(unacked := t.unacked, ackedThrough := t.ackedThrough, ackedBytes := t.ackedBytes) &&
            (!s.failed ==>
               forall k :: k in s.unacked && k !in t.unacked ==> k < cum || k in seqs)
  {
    hide LanesOk, SweepRange, SweepList, AckCumulative;
    var a := AckCumulative(s.unacked, s.ackedThrough, cum);
    var b := SweepList(a.rest, seqs);
    LanesIgnore(c, s, HandleAck(s, cum, seqs));
    if !s.failed {
      CumulativeOk(s, cum);
      SweepListRemoves(a.rest, seqs);
      SweepListConserves(s.sent, a.rest, seqs);
    }
  }

  lemma CumulativeOk(s: SState, cum: nat)
    requires Records(s.sent, s.unacked) && forall k :: k in s.unacked ==> s.ackedThrough <= k
    ensures var a := AckCumulative(s.unacked, s.ackedThrough, cum);
            Records(s.sent, a.rest) && a.through <= Max(s.ackedThrough, cum) &&
            InFlight(s.sent, a.rest) + a.freed == InFlight(s.sent, s.unacked) &&
            (forall k :: k in a.rest ==> k in s.unacked && a.through <= k) &&
            (forall k :: k in s.unacked && k !in a.rest ==> k < cum)
  {
    hide SweepRange, InFlight;
    if Accepted(s.ackedThrough, cum) {
      CumulativeCoversAll(s.unacked, s.ackedThrough, cum);
      SweepRangeConserves(s.sent, s.unacked, s.ackedThrough, cum);
    }
  }

  /** Only frames the receiver holds are forgotten by the sender. */
  lemma AckNoLoss(c: Config, y: Sys, f: Frame)
    requires Inv(c, y) && f in y.net && f.AckFrame?
    ensures NoLoss(HandleAck(y.s, f.cum, f.seqs), y.r)
  {
    hide HandleAck, WriterOk, NetOk, ClosureOk, ArrivedOk, AcksOk, CorePre, OnWire;
    var s, r := y.s, y.r;
    NetHas(c, y, f);
    AckLedger(c, s, f.cum, f.seqs);
    var t := HandleAck(s, f.cum, f.seqs);
    if !s.failed && !Dropped(r) {
      FinKnown(c, y);
      forall sn: nat | sn < |s.sent| ensures sn in t.unacked || Has(r, sn) {
        if sn !in t.unacked && sn in s.unacked && sn in f.seqs {
          assert Ackable(r, sn);
        }
      }
      if s.fin && |s.sent| !in t.unacked && |s.sent| in s.unacked {
        assert |s.sent| < f.cum || |s.sent| in f.seqs;
        assert Ackable(r, |s.sent|);
      }
    }
  }

  /** The receiver is past the FIN's position, or acknowledges it, only when it has the FIN. */
  lemma FinKnown(c: Config, y: Sys)
    requires Inv(c, y) && !Dropped(y.r)
    ensures Ackable(y.r, |y.s.sent|) ==> y.r.finRecvd
    ensures y.r.finRecvd ==> y.r.finSeq == |y.s.sent|
  {
    hide WriterOk, NetOk, ClosureOk, ArrivedOk, AcksOk, AccsOk, PendOk, Flatten, NoLoss;
  }

  lemma RecvAckOk(c: Config, y: Sys, f: Frame)
    requires Inv(c, y) && Enabled(c, y, RecvAck(f))
    ensures Inv(c, Do(c, y, RecvAck(f)))
  {
    AckNoLoss(c, y, f);
    hide HandleAck, WriterOk, Core, ClosureOk, NetOk, AcksOk, ArrivedOk, ReaderOk, NoLoss;
    NetHas(c, y, f);
    AckLedger(c, y.s, f.cum, f.seqs);
    var t := HandleAck(y.s, f.cum, f.seqs);
    ReaderSame(c, y.s, t, y.r, y.got);
    NetSame(c, y.s, t, y.r, y.net);
    ArrivedSame(c, y.s, t, y.arrived);
    ClosureSame(c, y, y.(s := t));
  }

  lemma NetSame(c: Config, s: SState, t: SState, r: RState, net: set<Frame>)
    requires NetOk(c, s, r, net) && t.sent == s.sent && t.fin == s.fin && t.failed == s.failed
    ensures NetOk(c, t, r, net)
  {
    forall f | f in net ensures FrameOk(c, t, r, f) {
      assert FrameOk(c, s, r, f);
    }
  }

  lemma ArrivedSame(c: Config, s: SState, t: SState, arrived: map<Key, nat>)
    requires ArrivedOk(c, s, arrived) && t.sent == s.sent && t.fin == s.fin
    ensures ArrivedOk(c, t, arrived)
  {
  }

  lemma RecvWindowOk(c: Config, y: Sys, f: Frame)
    requires Inv(c, y) && Enabled(c, y, RecvWindow(f))
    ensures Inv(c, Do(c, y, RecvWindow(f)))
  {
    hide Core, ClosureOk, NetOk, AcksOk, ArrivedOk, ReaderOk, LanesOk, Has;
    NetHas(c, y, f);
    var t := SetMaxOffset(y.s, f.offset);
    ReaderSame(c, y.s, t, y.r, y.got);
    NetSame(c, y.s, t, y.r, y.net);
    ArrivedSame(c, y.s, t, y.arrived);
    ClosureSame(c, y, y.(s := t));
    assert LanesOk(c, y.s) ==> LanesOk(c, t) by {
      LanesIgnore(c, y.s, t);
    }
  }

  lemma LanesIgnore(c: Config, s: SState, t: SState)
    requires t.sent == s.sent && t.lanes == s.lanes && t.rowLane == s.rowLane
    ensures LanesOk(c, s) ==> LanesOk(c, t)
  {
    hide LaneIs;
  }

  lemma AdvertiseOk(c: Config, y: Sys, offset: nat)
    requires Inv(c, y) && Enabled(c, y, Advertise(offset))
    ensures Inv(c, Do(c, y, Advertise(offset)))
  {
    hide WriterOk, Core, ClosureOk, NetOk, AcksOk, ArrivedOk, ReaderOk, NoLoss;
    AddFrames(c, y, {WindowFrame(offset)});
  }

  // --- all runs ---

  lemma StartOk(c: Config)
    requires c.Valid()
    ensures Inv(c, Start(c))
  {
    LanesBegin(c);
    var r := Fresh(c);
    assert forall row, b :: !Straddles(c, row, b, 0);
    assert SumIn([], {}, 0) == 0;
  }

  lemma StepOk(c: Config, y: Sys, a: Action)
    requires Inv(c, y)
    ensures Inv(c, Step(c, y, a))
  {
    hide Inv, Do, Enabled;
    if Enabled(c, y, a) {
      match a
      case Write(chunk, limit) => WriteOk(c, y, chunk, limit);
      case Close => CloseOk(c, y);
      case Abort(code) => AbortOk(c, y, code); DoAbort(c, y, code);
      case Resend(sn) => ResendOk(c, y, sn);
      case RecvData(f, ramp) => RecvDataOk(c, y, f, ramp);
      case RecvParity(f, ramp) => RecvParityOk(c, y, f, ramp);
      case RecvFin(f) => RecvFinOk(c, y, f);
      case RecvReset(f) => RecvResetOk(c, y, f);
      case RecvStop(f) => AbortOk(c, y, []); DoStop(c, y, f);
      case Read(n) => ReadOk(c, y, n);
      case SendAck => SnapshotOk(c, y);
      case Advertise(offset) => AdvertiseOk(c, y, offset);
      case RecvAck(f) => RecvAckOk(c, y, f);
      case RecvWindow(f) => RecvWindowOk(c, y, f);
      case CancelReading => CancelOk(c, y);
      case CloseConnection => CloseConnectionOk(c, y);
    }
  }

  lemma DoAbort(c: Config, y: Sys, code: Bytes)
    ensures Enabled(c, y, Abort(code)) && Do(c, y, Abort(code)) == Send(y, AbortWrite(y.s, code))
  {
  }

  lemma DoStop(c: Config, y: Sys, f: Frame)
    requires Enabled(c, y, RecvStop(f))
    ensures Do(c, y, RecvStop(f)) == Send(y, AbortWrite(y.s, []))
  {
  }

  /** The invariant holds in every state of every run. */
  lemma {:induction false} RunOk(c: Config, acts: seq<Action>)
    requires c.Valid()
    ensures Inv(c, Run(c, acts))
  {
    hide Inv, Step, Start;
    if acts == [] {
      StartOk(c);
    } else {
      RunOk(c, acts[..|acts| - 1]);
      StepOk(c, Run(c, acts[..|acts| - 1]), acts[|acts| - 1]);
    }
  }
}
