/**
 * The limit on how far one cumulative acknowledgement may advance.  A sender more than that
 * far behind takes every further watermark for corruption, and never recovers.
 */
module Wedge {
  import opened Bytes
  import opened Geometry
  import opened Receiver
  import opened Exactness
  import opened Wire
  import opened Ledger
  import opened Sender
  import opened System
  import opened Safety
  import opened Runs
  import opened Steps
  import opened Progress

  /** The receiver is too far ahead, and no ACK that the sender would believe is on its way. */
  predicate Wedged(y: Sys) {
    && !y.s.failed
    && y.s.ackedThrough + MAX_CUM_ADVANCE < y.r.readSeq
    && (forall f :: f in y.net && f.AckFrame? ==> !Accepted(y.s.ackedThrough, f.cum))
  }

  /** Delivered, unacknowledged, and named in no ACK. */
  predicate Leaked(y: Sys, sn: nat) {
    && sn in y.s.unacked && sn < y.r.readSeq
    && (forall f :: f in y.net && f.AckFrame? ==> sn !in f.seqs)
  }

  // --- what a step can do to the parts that matter ---

  /** Until an abort only an ACK flush creates ACK frames, with the receiver's position as watermark and nothing listed below it. */
  lemma AcksCreated(c: Config, y: Sys, a: Action, f: Frame)
    requires Inv(c, y) && !y.s.failed && f in Step(c, y, a).net && f !in y.net && f.AckFrame?
    ensures f.cum == y.r.readSeq && forall x :: x in f.seqs ==> y.r.readSeq <= x
  {
    hide Deliver, ApplyFec, ReadSome, WriteChunk, Sender.CloseWrite, HandleAck, NetOk, ClosureOk, ArrivedOk, NoLoss, AcksOk,
         ReaderOk, LanesOk, OnWire, From;
    match a {
      case Write(chunk, _) => WriteLanes(c, y.s, chunk);
      case Close => if !y.s.fin && !y.s.failed { CloseWriteOk(c, y.s, f); } else { CloseNothing(y.s); }
      case SendAck => AckFrameParts(AckSnapshot(y.r).cum, AckSnapshot(y.r).seqs, f);
      case RecvReset(g) => if Enabled(c, y, a) { ResetSource(c, y, g); }
      case _ =>
    }
  }

  lemma CloseNothing(s: SState)
    requires s.fin || s.failed
    ensures Sender.CloseWrite(s).frames == {}
  {
  }

  /** A refused ACK moves no watermark and removes only what it lists. */
  lemma RefusedAck(s: SState, cum: nat, seqs: seq<nat>, sn: nat)
    requires !Accepted(s.ackedThrough, cum)
    ensures var t := HandleAck(s, cum, seqs);
            t.ackedThrough == s.ackedThrough && t.failed == s.failed && (sn in s.unacked && sn !in seqs ==> sn in t.unacked)
  {
    SweepListRemoves(s.unacked, seqs);
  }

  lemma CloseKeepsMark(s: SState, sn: nat)
    ensures var t := Sender.CloseWrite(s).s;
            t.ackedThrough == s.ackedThrough && t.failed == s.failed && (sn in s.unacked ==> sn in t.unacked)
  {
  }

  /** What one step does to the sender's side of a wedge. */
  lemma MarkStays(c: Config, y: Sys, a: Action, sn: nat)
    requires Inv(c, y) && Wedged(y)
    ensures var z := Step(c, y, a);
            z.s.failed || (z.s.ackedThrough == y.s.ackedThrough && (Leaked(y, sn) ==> sn in z.s.unacked))
  {
    hide Inv, Deliver, ApplyFec, ReadSome, WriteChunk, Sender.CloseWrite, HandleAck, From;
    if Enabled(c, y, a) {
      match a
      case Write(chunk, _) => WriteKeeps(c, y.s, chunk);
      case Close => CloseKeepsMark(y.s, sn);
      case RecvAck(f) => RefusedAck(y.s, f.cum, f.seqs, sn);
      case _ =>
    }
  }

  lemma WedgedStep(c: Config, y: Sys, a: Action, sn: nat)
    requires Inv(c, y) && Wedged(y)
    ensures var z := Step(c, y, a);
            z.s.failed || (Wedged(z) && z.s.ackedThrough == y.s.ackedThrough && (Leaked(y, sn) ==> Leaked(z, sn)))
  {
    hide Inv, Step;
    var z := Step(c, y, a);
    SeqGrows(c, y, a);
    MarkStays(c, y, a, sn);
    forall f | f in z.net && f.AckFrame? && f !in y.net
      ensures f.cum == y.r.readSeq && forall x :: x in f.seqs ==> y.r.readSeq <= x
    {
      AcksCreated(c, y, a, f);
    }
  }

  /**
   * A wedged sender stays wedged in every continuation, until it aborts: its watermark never
   * moves again, and a frame that was delivered but named in no ACK is retransmitted for ever.
   */
  lemma {:induction false} WedgedForever(c: Config, y: Sys, acts: seq<Action>, sn: nat)
    requires Inv(c, y) && Wedged(y)
    ensures var z := Continue(c, y, acts);
            z.s.failed || (Wedged(z) && z.s.ackedThrough == y.s.ackedThrough && (Leaked(y, sn) ==> Leaked(z, sn)))
    decreases |acts|
  {
    hide Inv, Step, Wedged, Leaked;
    if acts != [] {
      var z := Step(c, y, acts[0]);
      StepOk(c, y, acts[0]);
      WedgedStep(c, y, acts[0], sn);
      if z.s.failed {
        StaysFailed(c, z, acts[1..]);
      } else {
        WedgedForever(c, z, acts[1..], sn);
      }
    }
  }

  lemma {:induction false} StaysFailed(c: Config, y: Sys, acts: seq<Action>)
    requires y.s.failed
    ensures Continue(c, y, acts).s.failed
    decreases |acts|
  {
    hide Step;
    if acts != [] {
      FailedStays(c, y, acts[0]);
      StaysFailed(c, Step(c, y, acts[0]), acts[1..]);
    }
  }

  /** The sender can learn of frames it has not: some continuation moves its watermark. */
  ghost predicate CanLearn(c: Config, acts: seq<Action>)
    requires c.Valid()
  {
    exists more: seq<Action> :: var z := Run(c, acts + more); !z.s.failed && Run(c, acts).s.ackedThrough < z.s.ackedThrough
  }

  /** What an ACK sent now and received at once does. */
  lemma AckNow(c: Config, y: Sys)
    ensures var f := AckFrame(y.r.readSeq, []);
            Continue(c, y, [SendAck, RecvAck(f)]).s == HandleAck(y.s, y.r.readSeq, [])
  {
    hide HandleAck, From;
    var k, f := AckSnapshot(y.r), AckFrame(y.r.readSeq, []);
    assert k.seqs[0..0] == [];
    assert AckFrame(k.cum, k.seqs[0..0]) in AckFrames(k.cum, k.seqs);
    var y1 := Step(c, y, SendAck);
    assert f in y1.net;
    var acts := [SendAck, RecvAck(f)];
    assert acts[1..] == [acts[1]] && acts[1..][1..] == [];
    assert Continue(c, y, acts) == Continue(c, y1, acts[1..]) == Continue(c, Step(c, y1, acts[1]), []);
  }

  /**
   * Whatever the state of the two ends: with the receiver ahead of the sender's watermark and no
   * believable ACK left in the network, the watermark can still move if and only if the receiver
   * is within the limit.
   */
  lemma WatermarkMovesIff(c: Config, acts: seq<Action>)
    requires c.Valid() && !Run(c, acts).s.failed
    requires Run(c, acts).s.ackedThrough < Run(c, acts).r.readSeq
    requires forall f :: f in Run(c, acts).net && f.AckFrame? ==> !Accepted(Run(c, acts).s.ackedThrough, f.cum)
    ensures CanLearn(c, acts) <==> Run(c, acts).r.readSeq <= Run(c, acts).s.ackedThrough + MAX_CUM_ADVANCE
  {
    hide Run, Inv, Step, HandleAck;
    var y := Run(c, acts);
    RunOk(c, acts);
    if y.r.readSeq <= y.s.ackedThrough + MAX_CUM_ADVANCE {
      AckNow(c, y);
      RunContinues(c, acts, [SendAck, RecvAck(AckFrame(y.r.readSeq, []))]);
      MarkMoves(y.s, y.r.readSeq);
    } else {
      forall more: seq<Action>
        ensures Run(c, acts + more).s.failed || Run(c, acts + more).s.ackedThrough == y.s.ackedThrough
      {
        RunContinues(c, acts, more);
        WedgedForever(c, y, more, 0);
      }
    }
  }

  lemma MarkMoves(s: SState, cum: nat)
    requires Accepted(s.ackedThrough, cum)
    ensures var t := HandleAck(s, cum, []); t.ackedThrough == cum && t.failed == s.failed
  {
  }

  // --- what a run towards it needs ---

  lemma CreditForOne(c: Config, y: Sys)
    requires Inv(c, y) && y.r.Live() && y.got == Flatten(y.s.sent) && y.s.maxOffset == y.r.peerOffset
    ensures y.s.sentOffset + 1 <= y.s.maxOffset && (!y.s.fin ==> y.s.lanes == [] || |y.s.lanes| == c.group)
  {
    hide NetOk, ClosureOk, ArrivedOk, NoLoss, AcksOk, Core, FinOk, Records, Flatten, LaneIs;
  }

  lemma WriterIsOk(c: Config, y: Sys)
    requires Inv(c, y)
    ensures WriterOk(c, y.s) && c.Valid()
  {
  }

  lemma WroteFrames(c: Config, s: SState, chunk: Bytes)
    requires WriterOk(c, s) && !s.fin && (s.lanes == [] || |s.lanes| == c.group)
    ensures var fs := WriteChunk(c, s, chunk).frames;
            DataFrame(|s.sent|, chunk) in fs && forall f :: f in fs ==> !f.AckFrame?
  {
    hide FecFold, LanesOk, OnWire;
    WriteLanes(c, s, chunk);
  }

  /** The watermark reaches the sender. */
  lemma CreditArrives(c: Config, y: Sys)
    requires Inv(c, y)
    ensures var z := Continue(c, y, [Advertise(y.r.peerOffset), RecvWindow(WindowFrame(y.r.peerOffset))]);
            && Inv(c, z) && z.r == y.r && z.got == y.got && z.net == y.net + {WindowFrame(y.r.peerOffset)}
            && z.s == y.s.(maxOffset := y.r.peerOffset)
  {
    hide WriterOk, ReaderOk, NetOk, ClosureOk, ArrivedOk, NoLoss, AcksOk;
    var acts := [Advertise(y.r.peerOffset), RecvWindow(WindowFrame(y.r.peerOffset))];
    ContinueOk(c, y, acts);
    var y1 := Step(c, y, acts[0]);
    var y2 := Step(c, y1, acts[1]);
    assert acts[1..] == [acts[1]] && acts[1..][1..] == [];
    assert Continue(c, y, acts) == Continue(c, y1, acts[1..]) == Continue(c, y2, []);
  }
}
