/** What happens when one side gives up: the other is told, and is not held up. */
module GiveUp {
  import opened Bytes
  import opened Geometry
  import opened Receiver
  import opened Exactness
  import opened Delivery
  import opened Wire
  import opened Ledger
  import opened Sender
  import opened System
  import opened Safety
  import opened Runs
  import opened Steps
  import opened Progress

  // --- the writer aborts ---

  /** An aborted writer's RESET is in the network, after its last frame; nothing else is outstanding. */
  predicate ResetOut(y: Sys) {
    y.s.failed ==> ResetFrame(|y.s.sent|) in y.net && forall k :: k in y.s.unacked ==> k == |y.s.sent|
  }

  /** What a step does to a writer that has ended. */
  lemma EndedWriter(c: Config, y: Sys, a: Action)
    requires y.s.fin && y.s.failed
    ensures var z := Step(c, y, a);
            && z.s.fin && z.s.failed && z.s.sent == y.s.sent
            && (!a.RecvAck? ==> z.s.unacked == y.s.unacked && z.s.ackedThrough == y.s.ackedThrough)
  {
    hide Deliver, ApplyFec, ReadSome, WriteChunk, AckCumulative, SweepList, From, FlushLanes, ResetLanes;
  }

  /** An acknowledgement only removes. */
  lemma AckRemovesOnly(s: SState, cum: nat, seqs: seq<nat>, k: nat)
    requires k in HandleAck(s, cum, seqs).unacked
    ensures k in s.unacked && k !in seqs && HandleAck(s, cum, seqs).unacked[k] == s.unacked[k]
  {
    if Accepted(s.ackedThrough, cum) {
      SweepRangeRemoves(s.unacked, s.ackedThrough, cum);
    }
    SweepListRemoves(AckCumulative(s.unacked, s.ackedThrough, cum).rest, seqs);
    hide SweepRange, SweepList;
  }

  lemma AckStep(c: Config, y: Sys, f: Frame)
    ensures var z := Step(c, y, RecvAck(f));
            && z.net == y.net && z.s == (if f in y.net && f.AckFrame? then HandleAck(y.s, f.cum, f.seqs) else y.s)
  {
    hide HandleAck;
  }

  lemma ResetOutStep(c: Config, y: Sys, a: Action)
    requires ResetOut(y) && (y.s.failed ==> y.s.fin)
    ensures ResetOut(Step(c, y, a))
  {
    hide Step;
    var z := Step(c, y, a);
    if y.s.failed {
      EndedWriter(c, y, a);
      NetGrowsOnly(c, y, a);
      if a.RecvAck? {
        AckStep(c, y, a.f);
        hide HandleAck;
        forall k | k in z.s.unacked ensures k == |z.s.sent| {
          if a.f in y.net && a.f.AckFrame? {
            AckRemovesOnly(y.s, a.f.cum, a.f.seqs, k);
          }
        }
      }
    } else if z.s.failed {
      AbortsNow(c, y, a);
    }
  }

  lemma AbortsNow(c: Config, y: Sys, a: Action)
    requires !y.s.failed && Step(c, y, a).s.failed
    ensures ResetOut(Step(c, y, a))
  {
    hide Deliver, ApplyFec, ReadSome, WriteChunk, AckCumulative, SweepList, From, FlushLanes, ResetLanes;
    if a.Write? && Enabled(c, y, a) {
      WriteKeeps(c, y.s, a.chunk);
    }
  }

  lemma FailedIsFin(c: Config, y: Sys)
    requires Inv(c, y)
    ensures y.s.failed ==> y.s.fin
  {
    hide NetOk, ClosureOk, ArrivedOk, NoLoss, AcksOk, ReaderOk, LanesOk, Records, InFlight;
  }

  /** In every run: once the writer has aborted, its RESET is on the wire, and only the RESET is resent. */
  lemma {:induction false} ResetIsOut(c: Config, acts: seq<Action>)
    requires c.Valid()
    ensures ResetOut(Run(c, acts))
  {
    hide Step, Inv;
    if acts != [] {
      ResetIsOut(c, acts[..|acts| - 1]);
      RunOk(c, acts[..|acts| - 1]);
      FailedIsFin(c, Run(c, acts[..|acts| - 1]));
      ResetOutStep(c, Run(c, acts[..|acts| - 1]), acts[|acts| - 1]);
    }
  }

  /** The ACK acknowledges position n. */
  predicate Covers(f: Frame, n: nat) {
    f.AckFrame? && (n < f.cum || n in f.seqs)
  }

  /** The RESET with its code, and nothing else, is outstanding. */
  predicate OnlyReset(s: SState, n: nat, code: Bytes) {
    s.fin && s.failed && |s.sent| == n && s.unacked == map[n := code]
  }

  lemma UncoveredAck(s: SState, cum: nat, seqs: seq<nat>, n: nat, code: Bytes)
    requires OnlyReset(s, n, code) && cum <= n && n !in seqs
    ensures OnlyReset(HandleAck(s, cum, seqs), n, code)
  {
    if Accepted(s.ackedThrough, cum) {
      SweepRangeRemoves(s.unacked, s.ackedThrough, cum);
    }
    SweepListRemoves(AckCumulative(s.unacked, s.ackedThrough, cum).rest, seqs);
    hide SweepRange, SweepList;
  }

  lemma ResetStep(c: Config, y: Sys, a: Action, n: nat, code: Bytes)
    requires OnlyReset(y.s, n, code) && (a.RecvAck? ==> !Covers(a.f, n))
    ensures OnlyReset(Step(c, y, a).s, n, code)
  {
    hide Step, HandleAck;
    EndedWriter(c, y, a);
    if a.RecvAck? {
      AckStep(c, y, a.f);
      if a.f in y.net && a.f.AckFrame? {
        UncoveredAck(y.s, a.f.cum, a.f.seqs, n, code);
      }
    }
  }

  lemma {:induction false} ResetStays(c: Config, y: Sys, acts: seq<Action>, n: nat, code: Bytes)
    requires OnlyReset(y.s, n, code) && (forall a :: a in acts && a.RecvAck? ==> !Covers(a.f, n))
    ensures OnlyReset(Continue(c, y, acts).s, n, code)
    decreases |acts|
  {
    hide Step, OnlyReset, Covers;
    if acts != [] {
      ResetStep(c, y, acts[0], n, code);
      ResetStays(c, Step(c, y, acts[0]), acts[1..], n, code);
    }
  }

  /** After an abort the RESET with the application's code is what is outstanding, until an ACK covers it. */
  lemma AbortIsReliable(c: Config, acts: seq<Action>, code: Bytes, more: seq<Action>)
    requires c.Valid() && !Run(c, acts).s.fin && !Run(c, acts).s.failed
    requires forall a :: a in more && a.RecvAck? ==> !Covers(a.f, |Run(c, acts).s.sent|)
    ensures var n, z := |Run(c, acts).s.sent|, Run(c, acts + [Abort(code)] + more);
            z.s.failed && z.s.unacked == map[n := code] && ResetFrame(n) in z.net
  {
    hide Run, Covers, Continue;
    var y := Run(c, acts);
    var first := acts + [Abort(code)];
    RunContinues(c, acts, [Abort(code)]);
    ContinueOne(c, y, Abort(code));
    RunContinues(c, first, more);
    assert OnlyReset(Run(c, first).s, |y.s.sent|, code);
    hide Step;
    ResetStays(c, Run(c, first), more, |y.s.sent|, code);
    ResetIsOut(c, first + more);
  }

  /** The reader of an aborted stream can be told. */
  lemma ReaderCanLearn(c: Config, acts: seq<Action>) returns (more: seq<Action>)
    requires c.Valid() && Run(c, acts).s.failed && Run(c, acts).r.Live()
    ensures var z := Run(c, acts + more); z.r.readErr.StreamReset? && !z.r.canceled && z.s == Run(c, acts).s
  {
    hide Run;
    ResetIsOut(c, acts);
    var a := RecvReset(ResetFrame(|Run(c, acts).s.sent|));
    more := [a];
    RunContinues(c, acts, more);
    ContinueOne(c, Run(c, acts), a);
  }

  lemma NamedIsGone(s: SState, n: nat)
    requires forall k :: k in s.unacked ==> k == n
    ensures HandleAck(s, 0, [n]).unacked == map[]
  {
    SweepListRemoves(s.unacked, [n]);
    hide SweepList;
  }

  /**
   * Which ACKs clear the RESET of a fresh abort: those that name its position, and those whose watermark
   * is past it, but not by the plausibility limit from zero, where the abort has put the sender's own.
   */
  lemma ClearsResetIff(s: SState, code: Bytes, cum: nat, seqs: seq<nat>)
    requires !s.fin && !s.failed
    ensures HandleAck(AbortWrite(s, code).s, cum, seqs).unacked == map[] <==>
            |s.sent| in seqs || |s.sent| < cum <= 0x10_0000
  {
    var t, n := AbortWrite(s, code).s, |s.sent|;
    if Accepted(t.ackedThrough, cum) {
      SweepRangeRemoves(t.unacked, t.ackedThrough, cum);
    }
    var rest := AckCumulative(t.unacked, t.ackedThrough, cum).rest;
    SweepListRemoves(rest, seqs);
    hide SweepRange, SweepList;
    var left := HandleAck(t, cum, seqs).unacked;
    assert left == map[] <==> n !in left;
  }

  /** And the RESET can be acknowledged: then nothing is outstanding any more. */
  lemma ResetCanBeAcked(c: Config, acts: seq<Action>) returns (more: seq<Action>)
    requires c.Valid() && Run(c, acts).s.failed && !Run(c, acts).r.readErr.StreamClosed?
    ensures Run(c, acts + more).s.unacked == map[]
  {
    hide Run, HandleAck;
    ResetIsOut(c, acts);
    var y := Run(c, acts);
    var n := |y.s.sent|;
    var a, b := RecvReset(ResetFrame(n)), RecvAck(AckFrame(0, [n]));
    more := [a] + [b];
    RunContinues(c, acts, more);
    ContinueJoins(c, y, [a], [b]);
    ContinueOne(c, y, a);
    ContinueOne(c, Step(c, y, a), b);
    NamedIsGone(y.s, n);
  }

  // --- a reader is reset only by an abort ---

  predicate ResetForCause(y: Sys) {
    y.r.readErr.StreamReset? && !y.r.canceled ==> y.s.failed
  }

  lemma DataError(c: Config, y: Sys, f: Frame, ramp: set<nat>)
    requires Inv(c, y) && Enabled(c, y, RecvData(f, ramp))
    ensures var t := Deliver(c, ramp, y.r, f.sn, f.payload, false).r;
            t.canceled == y.r.canceled && (t.readErr == y.r.readErr || t.readErr.EOF?)
  {
    NetHas(c, y, f);
    if y.r.Live() {
      hide Deliver, WriterOk, NetOk, ClosureOk, ArrivedOk, NoLoss, AcksOk, Core, NoRevival;
      DeliverOk(c, ramp, y.s.sent, y.got, y.r, f.sn);
    } else {
      hide Inv;
    }
  }

  lemma ParityError(c: Config, y: Sys, f: Frame, ramp: set<nat>)
    requires Inv(c, y) && Enabled(c, y, RecvParity(f, ramp))
    ensures var t := ApplyFec(c, ramp, y.r, f.row, f.base, f.p).r;
            t.canceled == y.r.canceled && (t.readErr == y.r.readErr || t.readErr.EOF?)
  {
    hide TryReconstruct, WriterOk, ClosureOk, ArrivedOk, NoLoss, AcksOk, Core, Genuine, AllHere, TwoMissing, StoreParity;
    NetHas(c, y, f);
    TryReconstructOk(c, ramp, y.s.sent, y.got, y.r, f.row, f.base, f.p);
  }

  lemma ReadError(c: Config, y: Sys, n: nat)
    requires Inv(c, y) && Enabled(c, y, Read(n))
    ensures var t := ReadSome(c, y.r, n); t.canceled == y.r.canceled && t.readErr == y.r.readErr
  {
    hide WriterOk, NetOk, ClosureOk, ArrivedOk, NoLoss, AcksOk, Core;
    if y.r.readErr.EOF? {
      var r1 := y.r.(ring := y.r.ring[Min(n, |y.r.ring|)..]);
      assert Drain(c, r1) == r1;
    } else {
      hide ReadSome;
      RingHolds(y.r, y.got);
      ReadSomeOk(c, y.s.sent, y.got, y.r, n);
    }
  }

  lemma FinError(c: Config, r: RState, sn: nat)
    ensures var t := Deliver(c, {}, r, sn, [], true).r; t.canceled == r.canceled && (t.readErr == r.readErr || t.readErr.EOF?)
  {
  }

  lemma ResetForCauseStep(c: Config, y: Sys, a: Action)
    requires Inv(c, y) && ResetForCause(y)
    ensures ResetForCause(Step(c, y, a))
  {
    hide Step, Inv;
    if y.s.failed {
      FailedStays(c, y, a);
    } else {
      ErrorStep(c, y, a);
    }
  }

  /** A reader of a stream that was not aborted ends with an error only by its own side, or at end of file. */
  lemma ErrorStep(c: Config, y: Sys, a: Action)
    requires Inv(c, y) && !y.s.failed
    ensures var t := Step(c, y, a).r;
            t.readErr == y.r.readErr || t.readErr.EOF? || (a.CancelReading? && t.canceled) || (a.CloseConnection? && t.readErr.StreamClosed?)
    ensures y.r.canceled ==> Step(c, y, a).r.canceled
  {
    hide Inv, Deliver, ApplyFec, ReadSome, WriteChunk, Sender.CloseWrite, HandleAck, From;
    if Enabled(c, y, a) {
      match a
      case RecvData(f, ramp) => DataError(c, y, f, ramp);
      case RecvParity(f, ramp) => ParityError(c, y, f, ramp);
      case RecvFin(f) => FinError(c, y.r, f.sn);
      case RecvReset(f) => ResetSource(c, y, f);
      case Read(n) => ReadError(c, y, n);
      case _ =>
    }
  }

  /** In every run a reader that did not cancel reports a reset only if the writer aborted. */
  lemma {:induction false} ResetMeansAborted(c: Config, acts: seq<Action>)
    requires c.Valid()
    ensures ResetForCause(Run(c, acts))
  {
    hide Step, Inv;
    if acts != [] {
      ResetMeansAborted(c, acts[..|acts| - 1]);
      RunOk(c, acts[..|acts| - 1]);
      ResetForCauseStep(c, Run(c, acts[..|acts| - 1]), acts[|acts| - 1]);
    }
  }

  // --- the reader cancels ---

  predicate StopOut(y: Sys) {
    y.r.canceled ==> StopFrame in y.net
  }

  lemma CanceledBefore(c: Config, y: Sys, a: Action)
    requires Inv(c, y) && !a.CancelReading?
    ensures Step(c, y, a).r.canceled == y.r.canceled
  {
    hide Inv, Deliver, ApplyFec, ReadSome, WriteChunk, Sender.CloseWrite, HandleAck, From;
    if Enabled(c, y, a) {
      match a
      case RecvData(f, ramp) => DataError(c, y, f, ramp);
      case RecvParity(f, ramp) => ParityError(c, y, f, ramp);
      case RecvFin(f) => FinError(c, y.r, f.sn);
      case Read(n) => ReadError(c, y, n);
      case _ =>
    }
  }

  /** In every run: once the reader has cancelled, its request to stop is on the wire. */
  lemma {:induction false} StopIsOut(c: Config, acts: seq<Action>)
    requires c.Valid()
    ensures StopOut(Run(c, acts))
  {
    hide Step, Inv;
    if acts != [] {
      var y, a := Run(c, acts[..|acts| - 1]), acts[|acts| - 1];
      StopIsOut(c, acts[..|acts| - 1]);
      RunOk(c, acts[..|acts| - 1]);
      NetGrowsOnly(c, y, a);
      if a.CancelReading? {
        StopSent(c, y);
      } else {
        CanceledBefore(c, y, a);
      }
    }
  }

  lemma StopSent(c: Config, y: Sys)
    ensures StopFrame in Step(c, y, CancelReading).net
  {
  }

  /** The writer of a cancelled stream can be told: it ends, and its RESET is out. */
  lemma WriterCanLearn(c: Config, acts: seq<Action>) returns (more: seq<Action>)
    requires c.Valid() && Run(c, acts).r.canceled && !Run(c, acts).s.fin
    ensures var z := Run(c, acts + more);
            z.s.failed && z.s.sent == Run(c, acts).s.sent && ResetFrame(|z.s.sent|) in z.net
  {
    hide Run, Inv;
    StopIsOut(c, acts);
    RunOk(c, acts);
    FailedIsFin(c, Run(c, acts));
    var a := RecvStop(StopFrame);
    more := [a];
    RunContinues(c, acts, more);
    ContinueOne(c, Run(c, acts), a);
    ResetIsOut(c, acts + more);
  }

  /** A reader that dropped its state holds nothing. */
  predicate Empty(r: RState) {
    && r.ring == [] && r.reorder == map[] && r.reorderBytes == 0 && r.ackPending == [] && r.ackReplay == []
    && r.colAcc == map[] && r.rowAcc == map[] && r.colPend == map[] && r.rowPend == map[]
  }

  lemma DroppedStep(c: Config, y: Sys, a: Action)
    requires Inv(c, y) && (Dropped(y.r) ==> Empty(y.r)) && Dropped(Step(c, y, a).r)
    ensures Empty(Step(c, y, a).r)
  {
    hide Inv, Deliver, ApplyFec, ReadSome, WriteChunk, Sender.CloseWrite, HandleAck;
    if Enabled(c, y, a) {
      match a
      case RecvData(f, ramp) => DataError(c, y, f, ramp); EndedKeeps(c, ramp, y.r, f.sn, f.payload, false);
      case RecvParity(f, ramp) => ParityError(c, y, f, ramp);
      case RecvFin(f) => FinError(c, y.r, f.sn); EndedKeeps(c, {}, y.r, f.sn, [], true);
      case Read(n) => ReadError(c, y, n);
      case _ =>
    }
  }

  lemma EndedKeeps(c: Config, ramp: set<nat>, r: RState, sn: nat, payload: Bytes, isFin: bool)
    requires Dropped(r) && Empty(r)
    ensures Empty(Deliver(c, ramp, r, sn, payload, isFin).r)
  {
  }

  /** In every run: after a cancellation or a RESET nothing is buffered any more, and nothing ever again. */
  lemma {:induction false} DroppedIsEmpty(c: Config, acts: seq<Action>)
    requires c.Valid() && Dropped(Run(c, acts).r)
    ensures Empty(Run(c, acts).r)
  {
    hide Step, Inv, Empty;
    if acts != [] {
      var y, a := Run(c, acts[..|acts| - 1]), acts[|acts| - 1];
      RunOk(c, acts[..|acts| - 1]);
      if Dropped(y.r) {
        DroppedIsEmpty(c, acts[..|acts| - 1]);
      }
      DroppedStep(c, y, a);
    }
  }

  // --- and until then the writer is not held up ---

  /** Every frame sent can still arrive, and credit is never less than at the start. */
  predicate Available(c: Config, y: Sys)
    requires c.Valid()
  {
    && (forall i :: 0 <= i < |y.s.sent| ==> DataFrame(i, y.s.sent[i]) in y.net)
    && c.InitialWindow() <= y.s.maxOffset
  }

  lemma AvailableStep(c: Config, y: Sys, a: Action)
    requires c.Valid() && Available(c, y)
    ensures Available(c, Step(c, y, a))
  {
    hide Deliver, ApplyFec, ReadSome, WriteChunk, AckCumulative, SweepList, From, FlushLanes, ResetLanes;
    NetGrowsOnly(c, y, a);
    if a.Write? && Enabled(c, y, a) {
      WriteKeeps(c, y.s, a.chunk);
      assert DataFrame(|y.s.sent|, a.chunk) in WriteChunk(c, y.s, a.chunk).frames by { ChunkOut(c, y.s, a.chunk); }
    }
  }

  lemma ChunkOut(c: Config, s: SState, chunk: Bytes)
    requires s.lanes == [] || |s.lanes| == c.group
    ensures DataFrame(|s.sent|, chunk) in WriteChunk(c, s, chunk).frames
  {
    hide FecFold;
  }

  lemma {:induction false} AllAvailable(c: Config, acts: seq<Action>)
    requires c.Valid()
    ensures Available(c, Run(c, acts))
  {
    hide Step;
    if acts != [] {
      hide Available;
      AllAvailable(c, acts[..|acts| - 1]);
      AvailableStep(c, Run(c, acts[..|acts| - 1]), acts[|acts| - 1]);
    }
  }

  /** The reader dropped what it had, and still answers. */
  predicate Discarding(y: Sys) {
    Dropped(y.r) && !y.r.readErr.StreamClosed?
  }

  /** A frame that is discarded is credited and counted as received. */
  lemma Discarded(c: Config, y: Sys, f: Frame)
    requires Inv(c, y) && Discarding(y) && f in y.net && f.DataFrame? && !y.s.fin
    ensures var z := Step(c, y, RecvData(f, {}));
            && Inv(c, z) && Discarding(z) && z.s == y.s && z.net == y.net
            && z.r.peerOffset == y.r.peerOffset + |f.payload| && f.sn < z.r.readSeq <= |y.s.sent|
  {
    StepOk(c, y, RecvData(f, {}));
    hide Inv;
    PositionBound(c, Step(c, y, RecvData(f, {})));
  }

  lemma PositionBound(c: Config, y: Sys)
    requires Inv(c, y) && !y.s.fin
    ensures y.r.readSeq <= |y.s.sent|
  {
    hide WriterOk, ReaderOk, NetOk, ClosureOk, ArrivedOk, NoLoss, AcksOk;
  }

  /** By discarding the last frame again and again the writer gets as much credit as it wants. */
  lemma {:induction false} CreditUpTo(c: Config, y: Sys, f: Frame, want: nat) returns (acts: seq<Action>)
    requires Inv(c, y) && Discarding(y) && f in y.net && f.DataFrame? && f.payload != [] && !y.s.fin
    requires f.sn + 1 == |y.s.sent|
    ensures var z := Continue(c, y, acts);
            && Inv(c, z) && Discarding(z) && z.s == y.s && want <= z.r.peerOffset && z.r.readSeq == |y.s.sent|
    decreases want - y.r.peerOffset
  {
    hide Inv, Step, Discarding;
    var a := RecvData(f, {});
    Discarded(c, y, f);
    var z := Step(c, y, a);
    ContinueOne(c, y, a);
    if want <= z.r.peerOffset {
      acts := [a];
    } else {
      var rest := CreditUpTo(c, z, f, want);
      acts := [a] + rest;
      ContinueJoins(c, y, [a], rest);
    }
  }

  lemma ChunkNotEmpty(c: Config, y: Sys)
    requires Inv(c, y)
    ensures forall i :: 0 <= i < |y.s.sent| ==> y.s.sent[i] != []
    ensures y.s.sentOffset == |Flatten(y.s.sent)| && c.DataCap() <= c.InitialWindow() && c.Valid()
  {
    hide NetOk, ClosureOk, ArrivedOk, NoLoss, AcksOk, ReaderOk, LanesOk, Records, InFlight, Flatten;
  }

  lemma NothingOut(c: Config, y: Sys)
    requires Inv(c, y) && y.s.sent == [] && !y.s.fin && !y.s.failed
    ensures y.s.unacked == map[] && y.s.sentOffset == 0 == y.s.ackedBytes
  {
    hide NetOk, ClosureOk, ArrivedOk, NoLoss, AcksOk, ReaderOk, LanesOk;
    assert forall k :: k in y.s.unacked ==> false;
    NothingInFlight(c, y.s);
  }

  /**
   * A reader that gave up never blocks its peer: what arrives is discarded, but credited and
   * acknowledged, so the writer can be brought to where any legal chunk may be sent.
   */
  lemma GivenUpNeverBlocks(c: Config, acts: seq<Action>) returns (more: seq<Action>)
    requires c.Valid() && Discarding(Run(c, acts)) && !Run(c, acts).s.fin && !Run(c, acts).s.failed
    requires Believable(Run(c, acts))
    ensures var z := Run(c, acts + more);
            && z.s.sent == Run(c, acts).s.sent && z.s.unacked == map[]
            && forall n: nat, limit: int :: n <= c.DataCap() && n <= limit ==> MayWrite(z.s, n, limit)
  {
    hide Run, Inv, Step, HandleAck, Discarding, Flatten;
    var y := Run(c, acts);
    RunOk(c, acts);
    AllAvailable(c, acts);
    ChunkNotEmpty(c, y);
    var n := |y.s.sent|;
    if n == 0 {
      more := [];
      assert acts + more == acts;
      NothingOut(c, y);
    } else {
      var f := DataFrame(n - 1, y.s.sent[n - 1]);
      var a := CreditUpTo(c, y, f, y.s.sentOffset + c.DataCap());
      var y1 := Continue(c, y, a);
      AckRound(c, y1);
      var z := Continue(c, y1, AckAll(y1));
      AckedAndGranted(c, y1, z);
      more := a + AckAll(y1);
      ContinueJoins(c, y, a, AckAll(y1));
      RunContinues(c, acts, more);
      SnapshotCredit(y1.r);
    }
  }

  lemma SnapshotCredit(r: RState)
    ensures AckSnapshot(r).r.peerOffset == r.peerOffset
  {
    hide From;
  }
}
