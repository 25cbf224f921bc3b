/** What no step ever undoes. */
module Steps {
  import opened Bytes
  import opened Geometry
  import opened Receiver
  import opened Exactness
  import opened Delivery
  import opened Wire
  import opened Ledger
  import opened Sender
  import opened System
  import opened Safety
  import opened Runs

  lemma NetGrowsOnly(c: Config, y: Sys, a: Action)
    ensures y.net <= Step(c, y, a).net
  {
    hide Deliver, ApplyFec, ReadSome, WriteChunk, Sender.CloseWrite, HandleAck, From;
  }

  lemma SentGrows(c: Config, y: Sys, a: Action)
    ensures |y.s.sent| <= |Step(c, y, a).s.sent|
  {
    hide Deliver, ApplyFec, ReadSome, WriteChunk, AckCumulative, SweepList, From;
    if a.Write? && Enabled(c, y, a) {
      WriteKeeps(c, y.s, a.chunk);
    }
  }

  lemma ParityKeepsSeq(c: Config, y: Sys, f: Frame, ramp: set<nat>)
    requires Inv(c, y) && Enabled(c, y, RecvParity(f, ramp))
    ensures y.r.readSeq <= ApplyFec(c, ramp, y.r, f.row, f.base, f.p).r.readSeq
  {
    hide TryReconstruct, WriterOk, ClosureOk, ArrivedOk, NoLoss, AcksOk, Core, FinOk, Genuine, AllHere, TwoMissing, StoreParity;
    NetHas(c, y, f);
    TryReconstructOk(c, ramp, y.s.sent, y.got, y.r, f.row, f.base, f.p);
  }

  lemma DataKeepsSeq(c: Config, y: Sys, f: Frame, ramp: set<nat>)
    requires Inv(c, y) && Enabled(c, y, RecvData(f, ramp))
    ensures y.r.readSeq <= Deliver(c, ramp, y.r, f.sn, f.payload, false).r.readSeq
  {
    NetHas(c, y, f);
    if y.r.Live() {
      hide Deliver, WriterOk, NetOk, ClosureOk, ArrivedOk, NoLoss, AcksOk, Core, FinOk;
      DeliverOk(c, ramp, y.s.sent, y.got, y.r, f.sn);
    } else {
      hide Inv;
    }
  }

  lemma FinKeepsSeq(c: Config, r: RState, sn: nat)
    ensures r.readSeq <= Deliver(c, {}, r, sn, [], true).r.readSeq
  {
  }

  lemma ReadKeepsSeq(c: Config, y: Sys, n: nat)
    requires Inv(c, y) && Enabled(c, y, Read(n))
    ensures y.r.readSeq == ReadSome(c, y.r, n).readSeq
  {
    hide WriterOk, NetOk, ClosureOk, ArrivedOk, NoLoss, AcksOk, Core;
    if y.r.readErr.EOF? {
      var r1 := y.r.(ring := y.r.ring[Min(n, |y.r.ring|)..]);
      assert Drain(c, r1) == r1;
    } else {
      hide ReadSome;
      RingHolds(y.r, y.got);
      ReadSomeOk(c, y.s.sent, y.got, y.r, n);
    }
  }

  /** The receiver's position never moves back. */
  lemma SeqGrows(c: Config, y: Sys, a: Action)
    requires Inv(c, y)
    ensures y.r.readSeq <= Step(c, y, a).r.readSeq
  {
    hide Inv, Deliver, ApplyFec, ReadSome, WriteChunk, Sender.CloseWrite, HandleAck, From;
    if Enabled(c, y, a) {
      match a
      case RecvData(f, ramp) => DataKeepsSeq(c, y, f, ramp);
      case RecvParity(f, ramp) => ParityKeepsSeq(c, y, f, ramp);
      case RecvFin(f) => FinKeepsSeq(c, y.r, f.sn);
      case Read(n) => ReadKeepsSeq(c, y, n);
      case _ =>
    }
  }

  // --- a reader that has ended stays so ---

  lemma DeliverStaysEnded(c: Config, ramp: set<nat>, r: RState, sn: nat, payload: Bytes, isFin: bool)
    requires !r.Live()
    ensures !Deliver(c, ramp, r, sn, payload, isFin).r.Live()
  {
  }

  lemma ReadStaysEnded(c: Config, y: Sys, n: nat)
    requires Inv(c, y) && Enabled(c, y, Read(n)) && !y.r.Live()
    ensures !ReadSome(c, y.r, n).Live()
  {
    hide WriterOk, NetOk, ClosureOk, ArrivedOk, NoLoss, AcksOk, Core;
    if y.r.readErr.EOF? {
      var r1 := y.r.(ring := y.r.ring[Min(n, |y.r.ring|)..]);
      assert Drain(c, r1) == r1;
    } else {
      hide ReadSome;
      RingHolds(y.r, y.got);
      ReadSomeOk(c, y.s.sent, y.got, y.r, n);
    }
  }

  /** A reader that is live was live before. */
  lemma LiveBefore(c: Config, y: Sys, a: Action)
    requires Inv(c, y) && Step(c, y, a).r.Live()
    ensures y.r.Live()
  {
    hide Inv, Deliver, ApplyFec, ReadSome, WriteChunk, AckCumulative, SweepList, From, FlushLanes, ResetLanes;
    if Enabled(c, y, a) && !y.r.Live() {
      match a
      case RecvData(f, ramp) => DeliverStaysEnded(c, ramp, y.r, f.sn, f.payload, false);
      case RecvFin(f) => DeliverStaysEnded(c, {}, y.r, f.sn, [], true);
      case Read(n) => ReadStaysEnded(c, y, n);
      case _ =>
    }
  }

  // --- an aborted writer stays so ---

  lemma FailedStays(c: Config, y: Sys, a: Action)
    requires y.s.failed
    ensures Step(c, y, a).s.failed
  {
    hide Deliver, ApplyFec, ReadSome, WriteChunk, From;
  }

  /** A RESET is on the wire only after an abort. */
  lemma ResetSource(c: Config, y: Sys, f: Frame)
    requires Inv(c, y) && Enabled(c, y, RecvReset(f))
    ensures y.s.failed
  {
    NetHas(c, y, f);
  }

  // --- accumulators ---

  /** A group that began below readSeq and has no accumulator gets none. */
  predicate Gone(r: RState, row: bool, base: nat) {
    base < r.readSeq && base !in r.Acc(row)
  }

  lemma GoneKept(r: RState, t: RState, row: bool, base: nat)
    requires Keeps(r, t) && Gone(r, row, base)
    ensures Gone(t, row, base)
  {
  }

  lemma DataGone(c: Config, y: Sys, f: Frame, ramp: set<nat>, row: bool, base: nat)
    requires Inv(c, y) && Enabled(c, y, RecvData(f, ramp)) && Gone(y.r, row, base)
    ensures Gone(Deliver(c, ramp, y.r, f.sn, f.payload, false).r, row, base)
  {
    NetHas(c, y, f);
    if y.r.Live() {
      hide Deliver, WriterOk, NetOk, ClosureOk, ArrivedOk, NoLoss, AcksOk, Core, FinOk;
      DeliverOk(c, ramp, y.s.sent, y.got, y.r, f.sn);
      GoneKept(y.r, Deliver(c, ramp, y.r, f.sn, f.payload, false).r, row, base);
    } else {
      hide Inv;
    }
  }

  lemma ParityGone(c: Config, y: Sys, f: Frame, ramp: set<nat>, row: bool, base: nat)
    requires Inv(c, y) && Enabled(c, y, RecvParity(f, ramp)) && Gone(y.r, row, base)
    ensures Gone(ApplyFec(c, ramp, y.r, f.row, f.base, f.p).r, row, base)
  {
    hide TryReconstruct, WriterOk, ClosureOk, ArrivedOk, NoLoss, AcksOk, Core, FinOk, Genuine, AllHere, TwoMissing, StoreParity;
    NetHas(c, y, f);
    TryReconstructOk(c, ramp, y.s.sent, y.got, y.r, f.row, f.base, f.p);
    GoneKept(y.r, TryReconstruct(c, ramp, y.r, f.row, f.base, f.p).r, row, base);
  }

  lemma FinGone(c: Config, r: RState, sn: nat, row: bool, base: nat)
    requires Gone(r, row, base)
    ensures Gone(Deliver(c, {}, r, sn, [], true).r, row, base)
  {
  }

  lemma ReadGone(c: Config, y: Sys, n: nat, row: bool, base: nat)
    requires Inv(c, y) && Enabled(c, y, Read(n)) && Gone(y.r, row, base)
    ensures Gone(ReadSome(c, y.r, n), row, base)
  {
    hide WriterOk, NetOk, ClosureOk, ArrivedOk, NoLoss, AcksOk, Core;
    if y.r.readErr.EOF? {
      var r1 := y.r.(ring := y.r.ring[Min(n, |y.r.ring|)..]);
      assert Drain(c, r1) == r1;
    } else {
      hide ReadSome;
      RingHolds(y.r, y.got);
      ReadSomeOk(c, y.s.sent, y.got, y.r, n);
    }
  }

  lemma GoneStep(c: Config, y: Sys, a: Action, row: bool, base: nat)
    requires Inv(c, y) && Gone(y.r, row, base)
    ensures Gone(Step(c, y, a).r, row, base)
  {
    hide Inv, Deliver, ApplyFec, ReadSome, WriteChunk, Sender.CloseWrite, HandleAck, From;
    if Enabled(c, y, a) {
      match a
      case RecvData(f, ramp) => DataGone(c, y, f, ramp, row, base);
      case RecvParity(f, ramp) => ParityGone(c, y, f, ramp, row, base);
      case RecvFin(f) => FinGone(c, y.r, f.sn, row, base);
      case Read(n) => ReadGone(c, y, n, row, base);
      case _ =>
    }
  }

  /** In every run, the accumulator of a group that has begun is never created again once it was swept. */
  lemma {:induction false} NeverRecreated(c: Config, acts: seq<Action>, more: seq<Action>, row: bool, base: nat)
    requires c.Valid() && Gone(Run(c, acts).r, row, base)
    ensures Gone(Run(c, acts + more).r, row, base)
  {
    hide Step, Gone, Inv;
    if more == [] {
      assert acts + more == acts;
    } else {
      var n := |more| - 1;
      NeverRecreated(c, acts, more[..n], row, base);
      RunOk(c, acts + more[..n]);
      assert (acts + more)[..|acts + more| - 1] == acts + more[..n];
      GoneStep(c, Run(c, acts + more[..n]), more[n], row, base);
    }
  }
}
