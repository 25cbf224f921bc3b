/**
 * When a sender that is behind can still catch up.  What stands in the way is a stretch of
 * 2^20 held frames that no watermark can fall into.
 */
module CatchUp {
  import opened Geometry
  import opened Receiver
  import opened Exactness
  import opened Delivery
  import opened Wire
  import opened Ledger
  import opened Sender
  import opened System
  import opened Safety
  import opened Runs
  import opened Progress
  import opened Wedge
  import opened AckReach
  import opened Deadlock

  /** Every frame that a watermark accepted at m could stop at is held. */
  predicate Leap(r: RState, m: nat) {
    forall x: nat :: m < x <= m + MAX_CUM_ADVANCE ==> Has(r, x)
  }

  /** A sender at or below m gets past m by no watermark on its way, and by none the receiver can still send. */
  predicate Barrier(y: Sys, m: nat) {
    && y.s.ackedThrough <= m && Leap(y.r, m)
    && (forall f :: f in y.net && f.AckFrame? ==> !Accepted(m, f.cum))
  }

  // --- a barrier stays ---

  lemma DataHolds(c: Config, y: Sys, f: Frame, ramp: set<nat>, x: nat)
    requires Inv(c, y) && y.r.Live() && Enabled(c, y, RecvData(f, ramp)) && Has(y.r, x)
    ensures Has(Deliver(c, ramp, y.r, f.sn, f.payload, false).r, x)
  {
    NetHas(c, y, f);
    hide Deliver, WriterOk, NetOk, ClosureOk, ArrivedOk, NoLoss, AcksOk, Core, FinOk, NoRevival;
    DeliverOk(c, ramp, y.s.sent, y.got, y.r, f.sn);
  }

  lemma ParityHolds(c: Config, y: Sys, f: Frame, ramp: set<nat>, x: nat)
    requires Inv(c, y) && Enabled(c, y, RecvParity(f, ramp)) && Has(y.r, x)
    ensures Has(ApplyFec(c, ramp, y.r, f.row, f.base, f.p).r, x)
  {
    hide TryReconstruct, WriterOk, ClosureOk, ArrivedOk, NoLoss, AcksOk, Core, FinOk, Genuine, AllHere, TwoMissing, StoreParity;
    NetHas(c, y, f);
    TryReconstructOk(c, ramp, y.s.sent, y.got, y.r, f.row, f.base, f.p);
  }

  lemma FinHolds(c: Config, r: RState, sn: nat, x: nat)
    requires r.Live() && Has(r, x)
    ensures Has(Deliver(c, {}, r, sn, [], true).r, x)
  {
  }

  lemma ReadHolds(c: Config, y: Sys, n: nat, x: nat)
    requires Inv(c, y) && y.r.Live() && Enabled(c, y, Read(n)) && Has(y.r, x)
    ensures Has(ReadSome(c, y.r, n), x)
  {
    hide Inv, ReadSome;
    ReadKeeps(c, y, n);
  }

  /** What is held stays held for as long as the stream is open. */
  lemma HeldStays(c: Config, y: Sys, a: Action, x: nat)
    requires Inv(c, y) && Open(Step(c, y, a)) && Has(y.r, x)
    ensures Has(Step(c, y, a).r, x)
  {
    hide Inv, Deliver, ApplyFec, ReadSome, WriteChunk, Sender.CloseWrite, HandleAck, From;
    OpenBefore(c, y, a);
    if Enabled(c, y, a) {
      match a
      case RecvData(f, ramp) => DataHolds(c, y, f, ramp, x);
      case RecvParity(f, ramp) => ParityHolds(c, y, f, ramp, x);
      case RecvFin(f) => FinHolds(c, y.r, f.sn, x);
      case Read(n) => ReadHolds(c, y, n, x);
      case _ =>
    }
  }

  lemma MarkStopped(c: Config, y: Sys, f: Frame, m: nat)
    requires Inv(c, y) && Open(y) && Barrier(y, m)
    ensures Step(c, y, RecvAck(f)).s.ackedThrough <= m
  {
    hide Inv, HandleAck, WriterOk, Leap;
    WriterIsOk(c, y);
    if f in y.net && f.AckFrame? {
      AckLeaves(c, y.s, f.cum, f.seqs);
    }
  }

  lemma BarrierStep(c: Config, y: Sys, a: Action, m: nat)
    requires Inv(c, y) && Open(Step(c, y, a)) && Barrier(y, m)
    ensures Barrier(Step(c, y, a), m)
  {
    hide Inv, Step, Has;
    var z := Step(c, y, a);
    OpenBefore(c, y, a);
    AheadOfReader(c, y);
    forall x: nat | m < x <= m + MAX_CUM_ADVANCE ensures Has(z.r, x) {
      HeldStays(c, y, a, x);
    }
    forall f | f in z.net && f.AckFrame? ensures !Accepted(m, f.cum) {
      if f !in y.net {
        AcksCreated(c, y, a, f);
      }
    }
    match a {
      case RecvAck(f) => MarkStopped(c, y, f, m);
      case Write(chunk, limit) => WroteQueue(c, y, chunk, limit);
      case _ => QueueSame(c, y, a);
    }
  }

  lemma {:induction false} BarrierForever(c: Config, y: Sys, acts: seq<Action>, m: nat)
    requires Inv(c, y) && Barrier(y, m) && Open(Continue(c, y, acts))
    ensures Barrier(Continue(c, y, acts), m)
    decreases |acts|
  {
    hide Inv, Step, Barrier;
    if acts != [] {
      var z := Step(c, y, acts[0]);
      StepOk(c, y, acts[0]);
      OpenAllAlong(c, z, acts[1..]);
      BarrierStep(c, y, acts[0], m);
      BarrierForever(c, z, acts[1..], m);
    }
  }

  lemma {:induction false} OpenAllAlong(c: Config, y: Sys, acts: seq<Action>)
    requires Inv(c, y) && Open(Continue(c, y, acts))
    ensures Open(y)
    decreases |acts|
  {
    hide Inv, Step;
    if acts != [] {
      StepOk(c, y, acts[0]);
      OpenAllAlong(c, Step(c, y, acts[0]), acts[1..]);
      OpenBefore(c, y, acts[0]);
    }
  }

  /** The frame at the sender's watermark waits for ever. */
  lemma BehindBarrier(c: Config, y: Sys, m: nat)
    requires Inv(c, y) && Open(y) && HeardOk(c, y) && Barrier(y, m)
    ensures y.s.ackedThrough in y.s.unacked
  {
    hide Inv, Has, Listed, ListsOk;
    AheadOfReader(c, y);
    assert Has(y.r, m + 1);
  }

  // --- without one, the sender catches up ---

  lemma AckedNow(c: Config, y: Sys) returns (acts: seq<Action>)
    requires Inv(c, y) && Open(y) && Accepted(y.s.ackedThrough, y.r.readSeq)
    ensures var z := Continue(c, y, acts);
            && Inv(c, z) && Open(z) && z.s.sent == y.s.sent && z.s.ackedThrough == z.r.readSeq == y.r.readSeq
            && z.r.reorder == y.r.reorder && z.r.NumPend() == y.r.NumPend()
  {
    hide Inv, HandleAck, From;
    var f := AckFrame(y.r.readSeq, []);
    acts := [SendAck, RecvAck(f)];
    AckNow(c, y);
    ContinueOk(c, y, acts);
    ContinueTwo(c, y, SendAck, RecvAck(f));
    MarkMoves(y.s, y.r.readSeq);
    AckSender(y.s, y.r.readSeq);
  }

  lemma AckSender(s: SState, cum: nat)
    ensures var t := HandleAck(s, cum, []); t.sent == s.sent && t.fin == s.fin && t.failed == s.failed
  {
  }

  lemma TakeBelieved(c: Config, y: Sys, f: Frame)
    requires Inv(c, y) && Open(y) && f in y.net && f.AckFrame? && Accepted(y.s.ackedThrough, f.cum)
    ensures var z := Step(c, y, RecvAck(f));
            Inv(c, z) && Open(z) && z.r == y.r && z.net == y.net && z.s.sent == y.s.sent && z.s.ackedThrough == f.cum <= y.r.readSeq
  {
    hide Inv, HandleAck, WriterOk;
    WriterIsOk(c, y);
    StepOk(c, y, RecvAck(f));
    AckLeaves(c, y.s, f.cum, f.seqs);
    ListedIsHeld(c, y, f);
  }

  /** The sender learns how far the receiver is. */
  lemma {:induction false} LearnMark(c: Config, y: Sys) returns (acts: seq<Action>)
    requires Inv(c, y) && Open(y) && y.s.ackedThrough <= y.r.readSeq && forall m: nat :: !Barrier(y, m)
    ensures var z := Continue(c, y, acts);
            && Inv(c, z) && Open(z) && z.s.sent == y.s.sent && z.s.ackedThrough == z.r.readSeq == y.r.readSeq
            && z.r.reorder == y.r.reorder && z.r.NumPend() == y.r.NumPend()
    decreases y.r.readSeq - y.s.ackedThrough
  {
    hide Inv, Step;
    var t := y.s.ackedThrough;
    if t == y.r.readSeq {
      acts := [];
    } else if y.r.readSeq <= t + MAX_CUM_ADVANCE {
      acts := AckedNow(c, y);
    } else {
      assert !Barrier(y, t);
      var f :| f in y.net && f.AckFrame? && Accepted(t, f.cum);
      TakeBelieved(c, y, f);
      var z := Step(c, y, RecvAck(f));
      forall m: nat ensures !Barrier(z, m) {
        assert !Barrier(y, m);
      }
      var rest := LearnMark(c, z);
      acts := [RecvAck(f)] + rest;
      ContinueOne(c, y, RecvAck(f));
      ContinueJoins(c, y, [RecvAck(f)], rest);
    }
  }

  /** The head arrives, and nothing else. */
  lemma HeadAlone(c: Config, y: Sys)
    requires Inv(c, y) && Open(y) && y.r.NumPend() == 0 && y.r.readSeq < |y.s.sent|
    ensures var z := Continue(c, y, [Resend(y.r.readSeq), RecvData(HeadFrame(y), {})]);
            && z.r.NumPend() == 0 && forall x: nat :: Has(z.r, x) <==> Has(y.r, x) || x == y.r.readSeq
  {
    hide Inv, Deliver, Admit, Core, Has;
    var n := y.r.readSeq;
    var acts := [Resend(n), RecvData(HeadFrame(y), {})];
    HeadIsQueued(c, y);
    ContinueTwo(c, y, acts[0], acts[1]);
    var y1 := Step(c, y, acts[0]);
    assert y1 == y.(net := y.net + {HeadFrame(y)});
    LiveReader(c, y);
    AdmitOk(c, {}, y.s.sent, y.got, y.r, n);
    PlainDelivery(c, {}, y.r, n, y.s.sent[n]);
    var a := Admit(c, {}, y.r, n, y.s.sent[n]).r;
    HeldSame(a, a.(ackPending := a.ackPending + [n]));
  }

  /** From a receiver whose position the sender knows, frame by frame. */
  lemma {:induction false} Catch(c: Config, y: Sys) returns (acts: seq<Action>)
    requires Inv(c, y) && Open(y) && y.r.NumPend() == 0 && y.s.ackedThrough == y.r.readSeq
    requires forall m: nat :: y.r.readSeq <= m ==> !Leap(y.r, m)
    ensures var z := Continue(c, y, acts); Inv(c, z) && Open(z) && z.s.sent == y.s.sent && z.s.ackedThrough == |y.s.sent|
    decreases |y.s.sent| - y.r.readSeq
  {
    hide Inv, Step, Has;
    AheadOfReader(c, y);
    var n := y.r.readSeq;
    if n == |y.s.sent| {
      acts := [];
    } else {
      var head := [Resend(n), RecvData(HeadFrame(y), {})];
      HeadArrives(c, y);
      HeadAlone(c, y);
      var y1 := Continue(c, y, head);
      NoEndYet(c, y1);
      AheadOfReader(c, y1);
      assert !Leap(y.r, n);
      var x: nat :| n < x <= n + MAX_CUM_ADVANCE && !Has(y.r, x);
      MissingIsAhead(y1.r, x);
      var ack := AckedNow(c, y1);
      var y2 := Continue(c, y1, ack);
      HeldSame(y1.r, y2.r);
      forall m: nat | y2.r.readSeq <= m ensures !Leap(y2.r, m) {
        assert !Leap(y.r, m);
      }
      var rest := Catch(c, y2);
      acts := head + (ack + rest);
      ContinueJoins(c, y1, ack, rest);
      ContinueJoins(c, y, head, ack + rest);
    }
  }

  lemma MissingIsAhead(r: RState, x: nat)
    requires !Has(r, x)
    ensures r.readSeq <= x
  {
  }

  /** The sender's queue can be emptied with the stream still open, and then a chunk of any legal size can be sent. */
  ghost predicate CanCatchUp(c: Config, acts: seq<Action>)
    requires c.Valid()
  {
    exists more: seq<Action> :: CaughtUpAfter(c, Run(c, acts + more))
  }

  ghost predicate CaughtUpAfter(c: Config, y: Sys) {
    && Open(y) && y.s.unacked == map[]
    && forall n: nat, limit: int :: n <= c.DataCap() && n <= limit ==> MayWrite(y.s, n, limit)
  }

  lemma CatchesUp(c: Config, acts: seq<Action>) returns (more: seq<Action>)
    requires c.Valid() && Open(Run(c, acts)) && Run(c, acts).r.NumPend() == 0 && forall m: nat :: !Barrier(Run(c, acts), m)
    ensures CaughtUpAfter(c, Run(c, acts + more))
  {
    hide Run, Inv, Step, Has, MayWrite;
    var y := Run(c, acts);
    RunOk(c, acts);
    RunHeard(c, acts);
    var a := LearnMark(c, y);
    var y1 := Continue(c, y, a);
    forall m: nat | y1.r.readSeq <= m ensures !Leap(y1.r, m) {
      HeldSame(y.r, y1.r);
      NoLeap(c, y, m);
    }
    var b := Catch(c, y1);
    ContinueJoins(c, y, a, b);
    RunContinues(c, acts, a + b);
    var rest := WriterCanProceed(c, acts + (a + b));
    more := (a + b) + rest;
    assert acts + more == acts + (a + b) + rest;
  }

  /** Ahead of the receiver a leap is a barrier: no ACK has a watermark there yet. */
  lemma NoLeap(c: Config, y: Sys, m: nat)
    requires Inv(c, y) && Open(y) && y.s.ackedThrough <= y.r.readSeq <= m && !Barrier(y, m)
    ensures !Leap(y.r, m)
  {
    hide Inv, Has;
    forall f | f in y.net && f.AckFrame? ensures f.cum <= m {
      ListedIsHeld(c, y, f);
    }
  }

  /**
   * From any state of any run with the stream open: behind a barrier the sender's queue is never
   * empty again; with none, and no parity waiting for frames, it can be emptied.
   */
  lemma CatchUpIff(c: Config, acts: seq<Action>)
    requires c.Valid() && Open(Run(c, acts))
    ensures (exists m: nat :: Barrier(Run(c, acts), m)) ==> !CanCatchUp(c, acts)
    ensures Run(c, acts).r.NumPend() == 0 ==> (CanCatchUp(c, acts) <==> forall m: nat :: !Barrier(Run(c, acts), m))
  {
    hide Run, Inv, Barrier, HeardOk, MayWrite;
    var y := Run(c, acts);
    RunOk(c, acts);
    if m: nat :| Barrier(y, m) {
      forall more: seq<Action> ensures !CaughtUpAfter(c, Run(c, acts + more)) {
        var z := Run(c, acts + more);
        if Open(z) {
          RunContinues(c, acts, more);
          RunOk(c, acts + more);
          RunHeard(c, acts + more);
          BarrierForever(c, y, more, m);
          BehindBarrier(c, z, m);
        }
      }
    } else if y.r.NumPend() == 0 {
      var more := CatchesUp(c, acts);
    }
  }
}
