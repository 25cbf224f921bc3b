/**
 * When a writer can be blocked for ever.  The answer depends on two numbers of the
 * configuration only: the receive buffer and the in-flight cap.
 */
module Deadlock {
  import opened Bytes
  import opened Geometry
  import opened Receiver
  import opened Exactness
  import opened Delivery
  import opened Wire
  import opened Ledger
  import opened Sender
  import opened System
  import opened Runs
  import opened Steps
  import opened Progress
  import opened Wedge
  import opened AckReach

  // --- one byte at a time ---

  const ONE: Bytes := [7]

  function Sent(c: Config, y: Sys, limit: int): Sys {
    Step(c, y, Write(ONE, limit))
  }

  /** What a write of one byte does. */
  lemma ByteWritten(c: Config, y: Sys, limit: int)
    requires Inv(c, y) && Open(y) && MayWrite(y.s, 1, limit) && limit <= c.MaxBuf()
    ensures var z := Sent(c, y, limit);
            && Inv(c, z) && Open(z) && z.r == y.r && z.got == y.got
            && z.s == y.s.(sent := y.s.sent + [ONE], sentOffset := y.s.sentOffset + 1,
                           unacked := y.s.unacked[|y.s.sent| := ONE], lanes := z.s.lanes, rowLane := z.s.rowLane)
            && DataFrame(|y.s.sent|, ONE) in z.net && (forall f :: f in z.net && f.AckFrame? ==> f in y.net)
  {
    hide Inv, WriteChunk, WriterOk, LanesOk;
    var a := Write(ONE, limit);
    WriterIsOk(c, y);
    LanesAre(c, y);
    StepOk(c, y, a);
    assert Enabled(c, y, a);
    WriteKeeps(c, y.s, ONE);
    WroteFrames(c, y.s, ONE);
  }

  lemma LanesAre(c: Config, y: Sys)
    requires Inv(c, y) && !y.s.fin
    ensures y.s.lanes == [] || |y.s.lanes| == c.group
  {
    hide NetOk, ClosureOk, ArrivedOk, NoLoss, AcksOk, ReaderOk, Records, LaneIs, InFlight;
  }

  lemma ContinueTwo(c: Config, y: Sys, a: Action, b: Action)
    ensures Continue(c, y, [a, b]) == Step(c, Step(c, y, a), b)
  {
    hide Step;
    assert [a, b] == [a] + [b];
    ContinueJoins(c, y, [a], [b]);
    ContinueOne(c, y, a);
    ContinueOne(c, Step(c, y, a), b);
  }

  // --- filling the ring ---

  /** All was delivered and acknowledged, nothing was read, no credit is withheld. */
  ghost predicate Clear(c: Config, y: Sys) {
    && Inv(c, y) && Open(y) && y.got == [] && y.r.grantPending == 0 && y.r.NumPend() == 0
    && y.r.readSeq == |y.s.sent| == y.s.ackedThrough && y.s.unacked == map[] && y.s.ackedBytes == y.s.sentOffset
    && y.s.maxOffset == y.r.peerOffset
  }

  lemma ClearStart(c: Config)
    requires c.Valid()
    ensures Clear(c, Start(c)) && |Start(c).r.ring| < Start(c).r.cap
  {
    StartOk(c);
  }

  /** How much was sent, and how much may be. */
  lemma ClearOffsets(c: Config, y: Sys)
    requires Clear(c, y)
    ensures y.s.sentOffset == |y.r.ring| && y.s.maxOffset == y.r.cap <= c.MaxBuf() && 24 <= y.r.cap
  {
    hide NetOk, ClosureOk, ArrivedOk, NoLoss, AcksOk, AccsOk, PendOk, Records, LanesOk, Flatten, InFlight;
    RingRead(c, y);
  }

  /** Without buffered parities a frame is put in place, and that is all. */
  lemma PlainDelivery(c: Config, ramp: set<nat>, r: RState, sn: nat, payload: Bytes)
    requires r.Live() && r.NumPend() == 0
    ensures var a := Admit(c, ramp, r, sn, payload);
            Deliver(c, ramp, r, sn, payload, false) ==
            Delivered(a.ack, if a.ack && a.r.readSeq <= sn then a.r.(ackPending := a.r.ackPending + [sn]) else a.r)
  {
    hide Admit;
    var a := Admit(c, ramp, r, sn, payload);
    assert r.colPend == map[] && r.rowPend == map[];
    assert RetrySeq(c, ramp, a.r, sn) == a.r;
  }

  /** The ramp doubles the ring. */
  lemma AdvanceGrows(c: Config, r: RState, payload: Bytes)
    requires r.readSeq + 1 !in r.reorder && r.cap <= c.MaxBuf()
    ensures Min(2 * r.cap, c.MaxBuf()) <= Advance(c, {r.readSeq + 1}, r, payload).cap
  {
    hide MaybeFold;
  }

  lemma LiveReader(c: Config, y: Sys)
    requires Inv(c, y) && y.r.Live()
    ensures Good(c, y.s.sent, y.got, y.r) && y.r.cap <= c.MaxBuf()
  {
    hide WriterOk, NetOk, ClosureOk, ArrivedOk, NoLoss, AcksOk, AccsOk, PendOk;
  }

  /** A frame received in order at a moment when the ramp lets the ring grow. */
  lemma GrownDelivery(c: Config, y: Sys)
    requires Inv(c, y) && Open(y) && y.r.NumPend() == 0 && y.r.readSeq + 1 == |y.s.sent|
    ensures var n := y.r.readSeq;
            var t := Deliver(c, {n + 1}, y.r, n, y.s.sent[n], false).r;
            && t.NumPend() == 0 && t.grantPending == y.r.grantPending && Min(2 * y.r.cap, c.MaxBuf()) <= t.cap
            && n < t.readSeq && Good(c, y.s.sent, y.got, t)
  {
    hide Inv, Deliver, Core, Advance, Admit, NoRevival, Has;
    var n := y.r.readSeq;
    LiveReader(c, y);
    AheadOfReader(c, y);
    DeliverOk(c, {n + 1}, y.s.sent, y.got, y.r, n);
    AdmitInOrder(c, {n + 1}, y.s.sent, y.got, y.r);
    PlainDelivery(c, {n + 1}, y.r, n, y.s.sent[n]);
    assert !Has(y.r, n + 1) && n + 1 !in y.r.reorder by { NotYet(y.r, n + 1); }
    AdvanceGrows(c, y.r.(maxSeen := Max(y.r.maxSeen, n)), y.s.sent[n]);
    assert Has(Deliver(c, {n + 1}, y.r, n, y.s.sent[n], false).r, n);
    HeldIsPassed(c, y.s.sent, y.got, Deliver(c, {n + 1}, y.r, n, y.s.sent[n], false).r, n);
  }

  lemma NotYet(r: RState, x: nat)
    ensures x in r.reorder ==> Has(r, x)
  {
  }

  /** Receiving the newest frame so. */
  lemma ClearReceived(c: Config, y: Sys)
    requires Inv(c, y) && Open(y) && y.r.NumPend() == 0 && y.r.grantPending == 0
    requires y.r.readSeq + 1 == |y.s.sent| && DataFrame(y.r.readSeq, y.s.sent[y.r.readSeq]) in y.net
    ensures var n := y.r.readSeq;
            var z := Step(c, y, RecvData(DataFrame(n, y.s.sent[n]), {n + 1}));
            && Inv(c, z) && Open(z) && z.s == y.s && z.got == y.got && z.r.readSeq == |y.s.sent|
            && z.r.NumPend() == 0 && z.r.grantPending == 0 && Min(2 * y.r.cap, c.MaxBuf()) <= z.r.cap
  {
    hide Inv, Deliver, Core;
    var n := y.r.readSeq;
    GrownDelivery(c, y);
    StepOk(c, y, RecvData(DataFrame(n, y.s.sent[n]), {n + 1}));
    NoEndYet(c, Step(c, y, RecvData(DataFrame(n, y.s.sent[n]), {n + 1})));
  }

  /** One more byte sent, received and acknowledged. */
  lemma ClearRound(c: Config, y: Sys, limit: nat) returns (acts: seq<Action>)
    requires Clear(c, y) && |y.r.ring| < y.r.cap && 0 < limit <= c.MaxBuf()
    ensures var z := Continue(c, y, acts);
            && Clear(c, z) && |z.r.ring| == |y.r.ring| + 1 && Min(2 * y.r.cap, c.MaxBuf()) <= z.r.cap
    ensures Under(acts, limit)
  {
    hide Inv, Step, HandleAck;
    ClearOffsets(c, y);
    ByteWritten(c, y, limit);
    var y1 := Sent(c, y, limit);
    var n := y.r.readSeq;
    ClearReceived(c, y1);
    var got := RecvData(DataFrame(n, ONE), {n + 1});
    var y2 := Step(c, y1, got);
    AckRound(c, y2);
    var z := Continue(c, y2, AckAll(y2));
    AckedAndGranted(c, y2, z);
    MarkMoves(y2.s, |y2.s.sent|);
    acts := [Write(ONE, limit), got] + AckAll(y2);
    ContinueTwo(c, y, Write(ONE, limit), got);
    ContinueJoins(c, y, [Write(ONE, limit), got], AckAll(y2));
    assert Clear(c, z);
    ClearOffsets(c, z);
  }

  /** Until the ring has its full size and is a quarter full. */
  lemma {:induction false} Fill(c: Config, y: Sys, limit: nat) returns (acts: seq<Action>)
    requires Clear(c, y) && |y.r.ring| < y.r.cap && 0 < limit <= c.MaxBuf()
    ensures var z := Continue(c, y, acts); Clear(c, z) && z.r.cap == c.MaxBuf() && c.MaxBuf() / 4 <= |z.r.ring|
    ensures Under(acts, limit)
    decreases c.MaxBuf() - y.r.cap, c.MaxBuf() - |y.r.ring|
  {
    hide Clear, Inv, Step;
    ClearOffsets(c, y);
    if y.r.cap == c.MaxBuf() && c.MaxBuf() / 4 <= |y.r.ring| {
      acts := [];
    } else {
      var one := ClearRound(c, y, limit);
      var z := Continue(c, y, one);
      ClearOffsets(c, z);
      var rest := Fill(c, z, limit);
      acts := one + rest;
      ContinueJoins(c, y, one, rest);
    }
  }

  // --- full credit ---

  /** All was delivered, acknowledged and read, and the sender has credit for a whole buffer. */
  ghost predicate Primed(c: Config, y: Sys) {
    && Inv(c, y) && Open(y) && y.r.NumPend() == 0
    && y.r.readSeq == |y.s.sent| == y.s.ackedThrough && y.s.unacked == map[] && y.s.ackedBytes == y.s.sentOffset
    && y.s.maxOffset == y.s.sentOffset + c.MaxBuf()
  }

  /** Reading a quarter of the ring or more at once withholds nothing. */
  lemma ReadGrantsAll(c: Config, r: RState)
    requires r.Live() && r.readSeq !in r.reorder && r.cap / 4 <= |r.ring| && 0 < r.cap && (r.finRecvd ==> r.readSeq < r.finSeq)
    ensures ReadSome(c, r, |r.ring|).grantPending == 0
  {
  }

  lemma Waiting(c: Config, y: Sys)
    requires Inv(c, y) && Open(y)
    ensures y.r.readSeq !in y.r.reorder && !y.r.finRecvd
    ensures y.s.sentOffset == |Flatten(y.s.sent)| && y.r.peerOffset + y.r.grantPending == y.r.cap + |y.got|
  {
    hide NetOk, ClosureOk, ArrivedOk, NoLoss, AcksOk, AccsOk, PendOk, Records, LanesOk, Flatten, InFlight;
  }

  /** Reading all of a well filled ring brings full credit. */
  lemma ReadOut(c: Config, y: Sys) returns (acts: seq<Action>)
    requires Clear(c, y) && y.r.cap == c.MaxBuf() && c.MaxBuf() / 4 <= |y.r.ring|
    ensures Primed(c, Continue(c, y, acts)) && Writeless(acts)
  {
    hide Inv, Step, Flatten, ReadSome;
    ClearOffsets(c, y);
    Waiting(c, y);
    var a := Read(|y.r.ring|);
    ReadAll(c, y);
    StepOk(c, y, a);
    var y1 := Step(c, y, a);
    ReadGrantsAll(c, y.r);
    ReadIs(c, y);
    Waiting(c, y1);
    CreditArrives(c, y1);
    var last := [Advertise(y1.r.peerOffset), RecvWindow(WindowFrame(y1.r.peerOffset))];
    acts := [a] + last;
    ContinueOne(c, y, a);
    ContinueJoins(c, y, [a], last);
  }

  lemma RunIsContinue(c: Config, acts: seq<Action>)
    requires c.Valid()
    ensures Run(c, acts) == Continue(c, Start(c), acts)
  {
    hide Step, Continue;
    RunContinues(c, [], acts);
    assert [] + acts == acts;
  }

  lemma Prime(c: Config, limit: nat) returns (acts: seq<Action>)
    requires c.Valid() && 0 < limit <= c.MaxBuf()
    ensures Primed(c, Run(c, acts)) && Under(acts, limit)
  {
    hide Clear, Primed, Run, Step;
    ClearStart(c);
    var fill := Fill(c, Start(c), limit);
    var y := Continue(c, Start(c), fill);
    var rest := ReadOut(c, y);
    acts := fill + rest;
    ContinueJoins(c, Start(c), fill, rest);
    RunIsContinue(c, acts);
  }

  lemma ReadIs(c: Config, y: Sys)
    requires y.r.ring != []
    ensures Step(c, y, Read(|y.r.ring|)).r == ReadSome(c, y.r, |y.r.ring|)
  {
    hide ReadSome;
  }

  // --- one frame held back, the rest of a buffer heard of ---

  /** Frame t is missing; the j - 1 frames after it arrived, and the sender knows. */
  ghost predicate Holding(c: Config, y: Sys, t: nat, j: nat) {
    && Inv(c, y) && Open(y) && y.r.NumPend() == 0
    && y.r.readSeq == t == y.s.ackedThrough && |y.s.sent| == t + j && y.s.unacked.Keys == {t}
    && y.s.sentOffset == y.s.ackedBytes + 1 && y.s.maxOffset + j == y.s.sentOffset + c.MaxBuf()
  }

  /** A frame received ahead of its turn waits, and will be acknowledged by name. */
  lemma AheadDelivered(c: Config, y: Sys, sn: nat)
    requires Inv(c, y) && Open(y) && y.r.NumPend() == 0 && y.r.readSeq < sn < |y.s.sent| && !Has(y.r, sn)
    requires DataFrame(sn, y.s.sent[sn]) in y.net
    ensures var z := Step(c, y, RecvData(DataFrame(sn, y.s.sent[sn]), {}));
            && Inv(c, z) && Open(z) && z.s == y.s && z.r.readSeq == y.r.readSeq && z.r.NumPend() == 0
            && sn in z.r.ackPending
  {
    hide Inv, Deliver, Core, Admit;
    LiveReader(c, y);
    AdmitAhead(c, {}, y.s.sent, y.got, y.r, sn);
    PlainDelivery(c, {}, y.r, sn, y.s.sent[sn]);
    StepOk(c, y, RecvData(DataFrame(sn, y.s.sent[sn]), {}));
  }

  /** One acknowledged frame can be named alone. */
  lemma NamedAlone(c: Config, y: Sys, x: nat)
    requires x in y.r.ackPending && y.r.readSeq <= x
    ensures AckFrame(y.r.readSeq, [x]) in Step(c, y, SendAck).net
  {
    hide From;
    var k := AckSnapshot(y.r);
    assert x in k.seqs;
    var i :| 0 <= i < |k.seqs| && k.seqs[i] == x;
    assert k.seqs[i..i + 1] == [x];
    assert AckFrame(k.cum, k.seqs[i..i + 1]) in AckFrames(k.cum, k.seqs);
  }

  /** An out of date ACK for one frame. */
  lemma OneNamed(s: SState, x: nat)
    requires x in s.unacked && |s.unacked[x]| == 1
    ensures HandleAck(s, s.ackedThrough, [x]) == s.(unacked := s.unacked - {x}, ackedBytes := s.ackedBytes + 1)
  {
    assert [x][1..] == [];
    assert SweepList(s.unacked, [x]) == Swept(s.unacked - {x}, 1);
  }

  lemma HoldRound(c: Config, y: Sys, t: nat, j: nat, limit: nat) returns (acts: seq<Action>)
    requires Holding(c, y, t, j) && 0 < j < c.MaxBuf() && 2 <= limit <= c.MaxBuf()
    ensures Holding(c, Continue(c, y, acts), t, j + 1) && Under(acts, limit)
  {
    hide Inv, Step, HandleAck, Has;
    AheadOfReader(c, y);
    ByteWritten(c, y, limit);
    var y1, sn := Sent(c, y, limit), t + j;
    var w, r := Write(ONE, limit), RecvData(DataFrame(sn, ONE), {});
    AheadDelivered(c, y1, sn);
    var y2 := Step(c, y1, r);
    NamedAlone(c, y2, sn);
    var f := AckFrame(t, [sn]);
    Flushed(c, y2);
    var y3 := Step(c, y2, SendAck);
    AckTaken(c, y3, f);
    OneNamed(y3.s, sn);
    acts := [w, r] + [SendAck, RecvAck(f)];
    ContinueTwo(c, y, w, r);
    ContinueTwo(c, y2, SendAck, RecvAck(f));
    ContinueJoins(c, y, [w, r], [SendAck, RecvAck(f)]);
    assert (y3.s.unacked - {sn}).Keys == {t};
  }

  lemma Flushed(c: Config, y: Sys)
    requires Inv(c, y)
    ensures var z := Step(c, y, SendAck);
            && Inv(c, z) && z.s == y.s && z.r.NumPend() == y.r.NumPend() && z.r.readSeq == y.r.readSeq && Open(z) == Open(y)
  {
    hide Inv, From;
    StepOk(c, y, SendAck);
  }

  lemma AckTaken(c: Config, y: Sys, f: Frame)
    requires Inv(c, y) && f in y.net && f.AckFrame?
    ensures var z := Step(c, y, RecvAck(f)); Inv(c, z) && z.r == y.r && z.s == HandleAck(y.s, f.cum, f.seqs)
  {
    hide Inv, HandleAck;
    StepOk(c, y, RecvAck(f));
  }

  lemma {:induction false} Hold(c: Config, y: Sys, j: nat, limit: nat) returns (acts: seq<Action>)
    requires Primed(c, y) && 0 < j <= c.MaxBuf() && 2 <= limit <= c.MaxBuf()
    ensures Holding(c, Continue(c, y, acts), |y.s.sent|, j) && Under(acts, limit)
  {
    hide Inv, Step;
    if j == 1 {
      ByteWritten(c, y, limit);
      acts := [Write(ONE, limit)];
      ContinueOne(c, y, acts[0]);
    } else {
      hide Holding, Primed;
      var before := Hold(c, y, j - 1, limit);
      var more := HoldRound(c, Continue(c, y, before), |y.s.sent|, j - 1, limit);
      acts := before + more;
      ContinueJoins(c, y, before, more);
    }
  }

  // --- frames that nobody hears of ---

  /**
   * All was received and read.  The sender's watermark is t; k frames of a byte each are
   * outstanding, and no ACK names them or tells of anything above t.
   */
  ghost predicate Unheard(c: Config, y: Sys, t: nat, k: nat) {
    && Inv(c, y) && Open(y) && y.got == Flatten(y.s.sent) && y.s.maxOffset == y.r.peerOffset
    && y.r.readSeq == |y.s.sent| == t + c.MaxBuf() + k - 1 && y.s.ackedThrough == t
    && y.s.sentOffset == y.s.ackedBytes + k && |y.s.unacked| == k && Unnamed(y, t)
  }

  predicate Unnamed(y: Sys, t: nat) {
    forall f :: f in y.net && f.AckFrame? ==> f.cum <= t && forall x :: x in f.seqs ==> x !in y.s.unacked
  }

  /** Everything sent is received and read, and the credit for it comes back; no ACK is sent. */
  lemma Settle(c: Config, y: Sys) returns (acts: seq<Action>)
    requires Inv(c, y) && Open(y)
    ensures var z := Continue(c, y, acts);
            && Inv(c, z) && Open(z) && z.got == Flatten(z.s.sent) && z.r.readSeq == |z.s.sent|
            && z.s == y.s.(maxOffset := z.r.peerOffset) && (forall f :: f in z.net && f.AckFrame? ==> f in y.net)
    ensures Writeless(acts)
  {
    hide Inv, Step, Flatten;
    var a := AllArrive(c, y);
    var y1 := Continue(c, y, a);
    var b := AllRead(c, y1);
    var y2 := Continue(c, y1, b);
    NoEndYet(c, y2);
    CreditArrives(c, y2);
    var last := [Advertise(y2.r.peerOffset), RecvWindow(WindowFrame(y2.r.peerOffset))];
    acts := a + (b + last);
    ContinueJoins(c, y1, b, last);
    ContinueJoins(c, y, a, b + last);
  }

  /** The frame held back arrives after all. */
  lemma Release(c: Config, y: Sys, t: nat) returns (acts: seq<Action>)
    requires Holding(c, y, t, c.MaxBuf())
    ensures Unheard(c, Continue(c, y, acts), t, 1) && Writeless(acts)
  {
    hide Inv, Step, Flatten, Has;
    AheadOfReader(c, y);
    forall f | f in y.net && f.AckFrame? ensures f.cum <= t && forall x :: x in f.seqs ==> x !in y.s.unacked {
      ListedIsHeld(c, y, f);
    }
    acts := Settle(c, y);
    assert |y.s.unacked.Keys| == 1;
  }

  /** One more frame of which the sender hears nothing. */
  lemma UnheardRound(c: Config, y: Sys, t: nat, k: nat, limit: nat) returns (acts: seq<Action>)
    requires Unheard(c, y, t, k) && k < limit <= c.MaxBuf()
    ensures Unheard(c, Continue(c, y, acts), t, k + 1) && Under(acts, limit)
  {
    hide Inv, Step, Flatten, Has;
    CreditForOne(c, y);
    InQueue(c, y);
    AheadOfReader(c, y);
    ByteWritten(c, y, limit);
    var y1 := Sent(c, y, limit);
    forall f | f in y1.net && f.AckFrame? ensures forall x :: x in f.seqs ==> x !in y1.s.unacked {
      ListedIsHeld(c, y, f);
    }
    assert y1.s.unacked.Keys == y.s.unacked.Keys + {|y.s.sent|};
    var rest := Settle(c, y1);
    acts := [Write(ONE, limit)] + rest;
    ContinueOne(c, y, acts[0]);
    ContinueJoins(c, y, [Write(ONE, limit)], rest);
  }

  lemma {:induction false} UnheardRounds(c: Config, y: Sys, t: nat, k: nat, limit: nat) returns (acts: seq<Action>)
    requires Unheard(c, y, t, k) && k <= limit <= c.MaxBuf()
    ensures Unheard(c, Continue(c, y, acts), t, limit) && Under(acts, limit)
    decreases limit - k
  {
    hide Unheard, Step;
    if k == limit {
      acts := [];
    } else {
      var one := UnheardRound(c, y, t, k, limit);
      var rest := UnheardRounds(c, Continue(c, y, one), t, k + 1, limit);
      acts := one + rest;
      ContinueJoins(c, y, one, rest);
    }
  }

  /** With as many outstanding as the cap admits, and so far ahead that no watermark will be believed. */
  lemma UnheardIsWedged(c: Config, y: Sys, t: nat, k: nat)
    requires Unheard(c, y, t, k) && MAX_CUM_ADVANCE + 1 < c.MaxBuf() + k
    ensures Wedged(y) && (forall sn :: sn in y.s.unacked ==> Leaked(y, sn)) && |y.s.unacked| == k
  {
    hide Inv, Flatten;
    InQueue(c, y);
  }

  // --- blocked for ever ---

  /** No chunk can be written under this in-flight cap. */
  ghost predicate Blocked(c: Config, y: Sys, cap: nat) {
    forall chunk: Bytes, limit: int :: limit <= cap ==> !Enabled(c, y, Write(chunk, limit))
  }

  lemma SpentIsBlocked(c: Config, y: Sys, cap: nat)
    requires y.s.failed || cap <= y.s.sentOffset - y.s.ackedBytes
    ensures Blocked(c, y, cap)
  {
  }

  /** A sender wedged with as many leaked frames as the cap has bytes is blocked in every continuation. */
  lemma WedgedBlocks(c: Config, y: Sys, cap: nat, acts: seq<Action>)
    requires Inv(c, y) && Open(y) && Wedged(y) && cap <= |y.s.unacked| && (forall sn :: sn in y.s.unacked ==> Leaked(y, sn))
    ensures Blocked(c, Continue(c, y, acts), cap)
  {
    hide Inv, Step, Wedged, Leaked, Blocked;
    var z := Continue(c, y, acts);
    ContinueOk(c, y, acts);
    SentKept(c, y, acts);
    InQueue(c, y);
    WedgedForever(c, y, acts, 0);
    if !z.s.failed {
      forall sn | sn in y.s.unacked ensures sn in z.s.unacked {
        WedgedForever(c, y, acts, sn);
        LeakedIsOut(z, sn);
      }
      FramesInFlight(c, z, y.s.unacked.Keys);
      assert |y.s.unacked.Keys| == |y.s.unacked|;
    }
    SpentIsBlocked(c, z, cap);
  }

  lemma LeakedIsOut(y: Sys, sn: nat)
    requires Leaked(y, sn)
    ensures sn in y.s.unacked
  {
  }

  lemma {:induction false} SentKept(c: Config, y: Sys, acts: seq<Action>)
    ensures |y.s.sent| <= |Continue(c, y, acts).s.sent|
    decreases |acts|
  {
    hide Step;
    if acts != [] {
      SentGrows(c, y, acts[0]);
      SentKept(c, Step(c, y, acts[0]), acts[1..]);
    }
  }

  /** The stream is open, and no write under the cap will ever be possible again, whatever happens. */
  ghost predicate Deadlocked(c: Config, acts: seq<Action>, cap: nat)
    requires c.Valid()
  {
    Open(Run(c, acts)) && forall more: seq<Action> :: Blocked(c, Run(c, acts + more), cap)
  }

  /** All of it in one run. */
  lemma Overrun(c: Config, cap: nat) returns (acts: seq<Action>, t: nat)
    requires c.Valid() && 2 <= cap <= c.MaxBuf()
    ensures Under(acts, cap) && Unheard(c, Run(c, acts), t, cap)
  {
    hide Run, Primed, Holding, Unheard, Step;
    var a1 := Prime(c, cap);
    var y1 := Run(c, a1);
    t := |y1.s.sent|;
    var a2 := Hold(c, y1, c.MaxBuf(), cap);
    var y2 := Continue(c, y1, a2);
    var a3 := Release(c, y2, t);
    var y3 := Continue(c, y2, a3);
    var a4 := UnheardRounds(c, y3, t, 1, cap);
    ContinueJoins(c, y2, a3, a4);
    ContinueJoins(c, y1, a2, a3 + a4);
    RunContinues(c, a1, a2 + (a3 + a4));
    acts := a1 + (a2 + (a3 + a4));
  }

  /**
   * Deadlock: if the buffer and the in-flight cap together exceed 2^20 + 1 bytes there is a run
   * within the cap that wedges the sender, after which no write under that cap is possible.
   */
  lemma DeadlockIsReachable(c: Config, cap: nat) returns (acts: seq<Action>)
    requires c.Valid() && 2 <= cap <= c.MaxBuf() && MAX_CUM_ADVANCE + 1 < c.MaxBuf() + cap
    ensures Under(acts, cap) && Wedged(Run(c, acts)) && Deadlocked(c, acts, cap)
  {
    hide Run, Inv, Blocked, Wedged, Leaked;
    var t: nat;
    acts, t := Overrun(c, cap);
    var y := Run(c, acts);
    UnheardIsWedged(c, y, t, cap);
    hide Unheard;
    RunOk(c, acts);
    forall more: seq<Action> ensures Blocked(c, Run(c, acts + more), cap) {
      RunContinues(c, acts, more);
      WedgedBlocks(c, y, cap, more);
    }
  }

  lemma MayIsEnabled(c: Config, y: Sys, cap: nat)
    requires Inv(c, y) && Open(y) && MayWrite(y.s, 1, cap) && cap <= c.MaxBuf()
    ensures !Blocked(c, y, cap)
  {
    hide Inv, MayWrite;
    LanesAre(c, y);
    WriterIsOk(c, y);
    assert Enabled(c, y, Write(ONE, cap));
  }

  /** A write of the only byte that may be in flight happens only when all before it was acknowledged. */
  lemma OnlyByteWritten(c: Config, y: Sys, chunk: Bytes, limit: int)
    requires Inv(c, y) && Open(y) && HeardOk(c, y) && limit <= 1 && |y.s.sent| <= y.s.ackedThrough + 1
    ensures var z := Step(c, y, Write(chunk, limit)); |z.s.sent| <= z.s.ackedThrough + 1
  {
    hide Inv, WriteChunk, Listed, ListsOk;
    if Enabled(c, y, Write(chunk, limit)) {
      WriteKeeps(c, y.s, chunk);
      InQueue(c, y);
      FramesInFlight(c, y, y.s.unacked.Keys);
      assert |y.s.unacked.Keys| == 0;
      assert y.s.ackedThrough !in y.s.unacked;
    }
  }

  /** With a cap of one byte the sender is never more than one frame ahead of its watermark. */
  lemma {:induction false} OneAhead(c: Config, acts: seq<Action>)
    requires c.Valid() && Under(acts, 1) && Open(Run(c, acts))
    ensures var s := Run(c, acts).s; |s.sent| <= s.ackedThrough + 1
  {
    hide Inv, Step, HeardOk;
    if acts != [] {
      var before, a := acts[..|acts| - 1], acts[|acts| - 1];
      var y := Run(c, before);
      RunOk(c, before);
      OpenBefore(c, y, a);
      OneAhead(c, before);
      RunHeard(c, before);
      match a {
        case Write(chunk, limit) => OnlyByteWritten(c, y, chunk, limit);
        case RecvAck(f) => MarkGrows(c, y, f);
        case _ => QueueSame(c, y, a);
      }
    }
  }

  lemma MarkGrows(c: Config, y: Sys, f: Frame)
    requires Inv(c, y) && Open(y)
    ensures var z := Step(c, y, RecvAck(f)); z.s.sent == y.s.sent && y.s.ackedThrough <= z.s.ackedThrough
  {
    hide Inv, HandleAck, WriterOk;
    WriterIsOk(c, y);
    if f in y.net && f.AckFrame? {
      AckLeaves(c, y.s, f.cum, f.seqs);
    }
  }

  /** Otherwise an open stream can always be written to again. */
  lemma NeverDeadlocked(c: Config, acts: seq<Action>, cap: nat)
    requires c.Valid() && 0 < cap <= c.MaxBuf() && (cap == 1 || c.MaxBuf() + cap <= MAX_CUM_ADVANCE + 1) && Under(acts, cap)
    ensures !Deadlocked(c, acts, cap)
  {
    hide Run, Inv, Blocked, Near;
    if Open(Run(c, acts)) {
      if cap == 1 {
        OneAhead(c, acts);
      } else {
        AlwaysBelievable(c, acts, cap);
      }
      var more := WriterCanProceed(c, acts);
      RunOk(c, acts + more);
      MayIsEnabled(c, Run(c, acts + more), cap);
    }
  }

  /** Exactly which configurations can deadlock. */
  lemma DeadlockIff(c: Config, cap: nat)
    requires c.Valid() && 0 < cap <= c.MaxBuf()
    ensures (exists acts :: Under(acts, cap) && Deadlocked(c, acts, cap)) <==> 1 < cap && 0x10_0001 < c.MaxBuf() + cap
  {
    hide Deadlocked, Under;
    if 1 < cap && MAX_CUM_ADVANCE + 1 < c.MaxBuf() + cap {
      var acts := DeadlockIsReachable(c, cap);
    } else {
      forall acts | Under(acts, cap) ensures !Deadlocked(c, acts, cap) {
        NeverDeadlocked(c, acts, cap);
      }
    }
  }
}
