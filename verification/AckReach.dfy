/**
 * What acknowledgements can have removed from the retransmit queue, in every run: which frames
 * are still outstanding bounds how far the sender can get ahead of its own watermark.
 */
module AckReach {
  import opened Bytes
  import opened Geometry
  import opened Receiver
  import opened Exactness
  import opened Wire
  import opened Ledger
  import opened Sender
  import opened System
  import opened Safety
  import opened Runs
  import opened Steps
  import opened Progress
  import opened Wedge

  /** Neither side has ended or given up. */
  predicate Open(y: Sys) {
    y.r.Live() && !y.s.fin && !y.s.failed
  }

  /** Some ACK in the network names x. */
  predicate Listed(net: set<Frame>, x: nat) {
    exists f :: f in net && f.AckFrame? && x in f.seqs
  }

  /** An ACK names frames ahead of its watermark, at most a buffer's worth, and no ACK names the watermark itself. */
  predicate ListsOk(c: Config, net: set<Frame>) {
    forall f :: f in net && f.AckFrame? ==>
      (forall x :: x in f.seqs ==> f.cum < x < f.cum + c.MaxBuf()) && !Listed(net, f.cum)
  }

  /** What left the queue above the sender's watermark was named by an ACK; the watermark's own frame never was. */
  predicate HeardOk(c: Config, y: Sys) {
    && ListsOk(c, y.net)
    && !Listed(y.net, y.s.ackedThrough)
    && y.s.ackedThrough <= y.r.readSeq
    && (forall x: nat :: y.s.ackedThrough <= x < |y.s.sent| && x !in y.s.unacked ==> Listed(y.net, x))
  }

  // --- staying open ---

  /** A stream that is open was open before. */
  lemma OpenBefore(c: Config, y: Sys, a: Action)
    requires Inv(c, y) && Open(Step(c, y, a))
    ensures Open(y)
  {
    hide Inv, Deliver, ApplyFec, ReadSome, WriteChunk, AckCumulative, SweepList, From, FlushLanes, ResetLanes;
    if Enabled(c, y, a) {
      match a
      case Write(chunk, _) => WriteKeeps(c, y.s, chunk);
      case RecvData(f, ramp) => if !y.r.Live() { DeliverStaysEnded(c, ramp, y.r, f.sn, f.payload, false); }
      case RecvFin(f) => if !y.r.Live() { DeliverStaysEnded(c, {}, y.r, f.sn, [], true); }
      case Read(n) => if !y.r.Live() { ReadStaysEnded(c, y, n); }
      case _ =>
    }
  }

  // --- every step keeps it ---

  lemma {:induction false} FramesAreBytes(c: Config, sent: seq<Bytes>, n: nat)
    requires ChunksOk(c, sent) && n <= |sent|
    ensures |Flatten(sent)| >= |Flatten(sent[..n])| + |sent| - n
    decreases |sent|
  {
    if n < |sent| {
      var k := |sent| - 1;
      FramesAreBytes(c, sent[..k], n);
      assert sent[..k][..n] == sent[..n];
    } else {
      assert sent[..n] == sent;
    }
  }

  /** The sender is at most a buffer ahead of the receiver, which does not hold the frame it waits for. */
  lemma AheadOfReader(c: Config, y: Sys)
    requires Inv(c, y) && y.r.Live()
    ensures y.r.readSeq <= |y.s.sent| <= y.r.readSeq + c.MaxBuf() && !Has(y.r, y.r.readSeq)
    ensures forall x: nat :: Has(y.r, x) ==> x < |y.s.sent|
  {
    hide WriterOk, NetOk, ClosureOk, ArrivedOk, AcksOk, NoLoss, AccsOk, PendOk, Flatten;
    FramesAreBytes(c, y.s.sent, y.r.readSeq);
    assert |y.got| <= |Flatten(y.s.sent[..y.r.readSeq])|;
  }

  /** ACKs name frames that the receiver holds. */
  lemma ListedIsHeld(c: Config, y: Sys, f: Frame)
    requires Inv(c, y) && Open(y) && f in y.net && f.AckFrame?
    ensures f.cum <= y.r.readSeq && forall x :: x in f.seqs ==> Has(y.r, x)
  {
    NetHas(c, y, f);
    hide WriterOk, NetOk, ClosureOk, ArrivedOk, AcksOk, NoLoss, Core, Has;
  }

  /** What a flush of acknowledgements adds. */
  lemma FlushedLists(c: Config, y: Sys)
    requires Inv(c, y) && Open(y) && ListsOk(c, y.net)
    ensures ListsOk(c, Step(c, y, SendAck).net)
  {
    hide Inv, Has;
    var z := Step(c, y, SendAck);
    StepOk(c, y, SendAck);
    AheadOfReader(c, y);
    assert z.s == y.s && z.r.readSeq == y.r.readSeq && z.r.reorder == y.r.reorder && Open(z);
    assert forall x: nat :: Has(z.r, x) <==> Has(y.r, x) by { HeldSame(y.r, z.r); }
    hide Step, AckSnapshot;
    forall f | f in z.net && f.AckFrame?
      ensures (forall x :: x in f.seqs ==> f.cum < x < f.cum + c.MaxBuf()) && !Listed(z.net, f.cum)
    {
      ListedIsHeld(c, z, f);
      if f !in y.net {
        AcksCreated(c, y, SendAck, f);
      } else {
        assert !Listed(y.net, f.cum);
      }
      forall g | g in z.net && g.AckFrame? ensures f.cum !in g.seqs {
        ListedIsHeld(c, z, g);
        if g !in y.net {
          AcksCreated(c, y, SendAck, g);
        }
      }
    }
  }

  lemma HeldSame(r: RState, t: RState)
    requires t.readSeq == r.readSeq && t.reorder == r.reorder
    ensures forall x: nat :: Has(t, x) <==> Has(r, x)
  {
  }

  /** Exactly which frames an acknowledgement leaves outstanding. */
  lemma AckLeaves(c: Config, s: SState, cum: nat, seqs: seq<nat>)
    requires WriterOk(c, s) && !s.failed
    ensures var t := HandleAck(s, cum, seqs);
            && t.ackedThrough == (if Accepted(s.ackedThrough, cum) then cum else s.ackedThrough)
            && t == s.(unacked := t.unacked, ackedThrough := t.ackedThrough, ackedBytes := t.ackedBytes)
            && s.ackedBytes <= t.ackedBytes
            && forall k :: k in t.unacked <==> k in s.unacked && t.ackedThrough <= k && k !in seqs
  {
    hide SweepRange, SweepList, LanesOk;
    var a := AckCumulative(s.unacked, s.ackedThrough, cum);
    if Accepted(s.ackedThrough, cum) {
      CumulativeCoversAll(s.unacked, s.ackedThrough, cum);
    }
    SweepListRemoves(a.rest, seqs);
  }

  lemma HeardAck(c: Config, y: Sys, f: Frame)
    requires Inv(c, y) && Open(y) && HeardOk(c, y) && f in y.net && f.AckFrame?
    ensures HeardOk(c, y.(s := HandleAck(y.s, f.cum, f.seqs)))
  {
    hide Inv, WriterOk, HandleAck;
    WriterIsOk(c, y);
    AckLeaves(c, y.s, f.cum, f.seqs);
    ListedIsHeld(c, y, f);
  }

  /** Only a flush of acknowledgements creates ACK frames. */
  lemma NoNewAcks(c: Config, y: Sys, a: Action, f: Frame)
    requires Inv(c, y) && Open(y) && !a.SendAck? && f in Step(c, y, a).net && f.AckFrame?
    ensures f in y.net
  {
    hide Deliver, ApplyFec, ReadSome, WriteChunk, Sender.CloseWrite, HandleAck, NetOk, ClosureOk, ArrivedOk, NoLoss, AcksOk,
         ReaderOk, LanesOk, OnWire, From;
    if f !in y.net {
      match a
      case Write(chunk, _) => WriteLanes(c, y.s, chunk);
      case Close => CloseWriteOk(c, y.s, f);
      case RecvReset(g) => if Enabled(c, y, a) { ResetSource(c, y, g); }
      case _ =>
    }
  }

  lemma ListedSame(c: Config, m: set<Frame>, n: set<Frame>)
    requires forall f: Frame :: f.AckFrame? ==> (f in m <==> f in n)
    ensures forall x: nat :: Listed(m, x) <==> Listed(n, x)
    ensures ListsOk(c, m) ==> ListsOk(c, n)
  {
    forall x: nat ensures Listed(m, x) <==> Listed(n, x) {
    }
  }

  /** What the steps that stay open do to the sender, other than writes and acknowledgements. */
  lemma QueueSame(c: Config, y: Sys, a: Action)
    requires !a.Write? && !a.RecvAck? && Open(Step(c, y, a))
    ensures var z := Step(c, y, a); z.s == y.s.(maxOffset := z.s.maxOffset)
  {
    hide Deliver, ApplyFec, ReadSome, WriteChunk, From, FlushLanes, ResetLanes;
  }

  lemma HeardStep(c: Config, y: Sys, a: Action)
    requires Inv(c, y) && HeardOk(c, y) && Open(Step(c, y, a))
    ensures HeardOk(c, Step(c, y, a))
  {
    hide Inv, Step, Listed, ListsOk;
    var z := Step(c, y, a);
    OpenBefore(c, y, a);
    SeqGrows(c, y, a);
    match a {
      case SendAck =>
        FlushedLists(c, y);
        QueueSame(c, y, a);
        FlushKeepsListed(c, y);
      case RecvAck(f) => HeardRecvAck(c, y, f);
      case Write(chunk, limit) =>
        AcksSame(c, y, a);
        WroteQueue(c, y, chunk, limit);
      case _ =>
        AcksSame(c, y, a);
        QueueSame(c, y, a);
    }
  }

  lemma AcksSame(c: Config, y: Sys, a: Action)
    requires Inv(c, y) && Open(y) && !a.SendAck?
    ensures var z := Step(c, y, a);
            && (forall f: Frame :: f.AckFrame? ==> (f in y.net <==> f in z.net))
            && (forall x: nat :: Listed(y.net, x) <==> Listed(z.net, x)) && (ListsOk(c, y.net) ==> ListsOk(c, z.net))
  {
    hide Inv, Step, Listed, ListsOk;
    var z := Step(c, y, a);
    NetGrowsOnly(c, y, a);
    forall f: Frame | f.AckFrame? ensures f in y.net <==> f in z.net {
      if f in z.net {
        NoNewAcks(c, y, a, f);
      }
    }
    ListedSame(c, y.net, z.net);
  }

  lemma HeardRecvAck(c: Config, y: Sys, f: Frame)
    requires Inv(c, y) && Open(y) && HeardOk(c, y)
    ensures HeardOk(c, Step(c, y, RecvAck(f)))
  {
    hide Inv, HandleAck, HeardOk;
    if f in y.net && f.AckFrame? {
      HeardAck(c, y, f);
    }
  }

  lemma FlushKeepsListed(c: Config, y: Sys)
    requires Inv(c, y) && Open(y) && HeardOk(c, y)
    ensures var z := Step(c, y, SendAck);
            && (forall x: nat :: Listed(y.net, x) ==> Listed(z.net, x)) && !Listed(z.net, y.s.ackedThrough)
  {
    hide Inv, Step, ListsOk;
    var z := Step(c, y, SendAck);
    NetGrowsOnly(c, y, SendAck);
    FlushedLists(c, y);
    forall g | g in z.net && g.AckFrame? ensures y.s.ackedThrough !in g.seqs {
      if g !in y.net {
        AcksCreated(c, y, SendAck, g);
        AheadInLists(c, z.net, g);
      }
    }
  }

  lemma AheadInLists(c: Config, net: set<Frame>, g: Frame)
    requires ListsOk(c, net) && g in net && g.AckFrame?
    ensures forall x :: x in g.seqs ==> g.cum < x
  {
  }

  lemma WroteQueue(c: Config, y: Sys, chunk: Bytes, limit: int)
    ensures var z := Step(c, y, Write(chunk, limit));
            && z.s.ackedThrough == y.s.ackedThrough && y.s.unacked.Keys <= z.s.unacked.Keys
            && forall x :: |y.s.sent| <= x < |z.s.sent| ==> x in z.s.unacked
  {
    hide WriteChunk;
    if Enabled(c, y, Write(chunk, limit)) {
      WriteKeeps(c, y.s, chunk);
    }
  }

  lemma {:induction false} RunHeard(c: Config, acts: seq<Action>)
    requires c.Valid() && Open(Run(c, acts))
    ensures HeardOk(c, Run(c, acts))
  {
    hide Inv, Step, HeardOk;
    if acts == [] {
      NothingHeard(c);
    } else {
      var before, a := acts[..|acts| - 1], acts[|acts| - 1];
      RunOk(c, before);
      OpenBefore(c, Run(c, before), a);
      RunHeard(c, before);
      HeardStep(c, Run(c, before), a);
    }
  }

  lemma NothingHeard(c: Config)
    requires c.Valid()
    ensures HeardOk(c, Start(c))
  {
  }

  // --- counting ---

  /** Frames are never empty, so each one in flight counts for at least a byte. */
  lemma {:induction false} EachCounts(c: Config, sent: seq<Bytes>, keys: set<nat>, part: set<nat>, a: nat)
    requires ChunksOk(c, sent) && part <= keys && (forall x :: x in part ==> a <= x < |sent|)
    ensures |part| <= SumIn(sent, keys, a)
    decreases |sent| - a
  {
    if a < |sent| {
      EachCounts(c, sent, keys, part - {a}, a + 1);
    } else {
      assert part == {};
    }
  }

  /** As many frames are outstanding as there are bytes in flight, or fewer. */
  lemma FramesInFlight(c: Config, y: Sys, part: set<nat>)
    requires Inv(c, y) && !y.s.failed && part <= y.s.unacked.Keys && (forall x :: x in part ==> x < |y.s.sent|)
    ensures |part| <= y.s.sentOffset - y.s.ackedBytes <= c.MaxBuf()
  {
    hide NetOk, ClosureOk, ArrivedOk, NoLoss, AcksOk, ReaderOk, LanesOk, Records, SumIn;
    EachCounts(c, y.s.sent, y.s.unacked.Keys, part, 0);
  }

  function Span(a: nat, b: nat): (s: set<nat>)
    ensures forall x: nat :: x in s <==> a <= x < b
    decreases b
  {
    if a < b then Span(a, b - 1) + {b - 1} else {}
  }

  lemma {:induction false} SpanSize(a: nat, b: nat)
    requires a <= b
    ensures |Span(a, b)| == b - a
    decreases b
  {
    if a < b {
      SpanSize(a, b - 1);
    }
  }

  // --- a small enough window ---

  /** Every write of the schedule is made under an in-flight cap of at most cap bytes. */
  predicate Under(acts: seq<Action>, cap: nat) {
    forall i :: 0 <= i < |acts| && acts[i].Write? ==> acts[i].limit <= cap
  }

  /** At most cap bytes are in flight, and what left the queue is within a buffer of the watermark. */
  predicate Near(c: Config, y: Sys, cap: nat) {
    && y.s.sentOffset - y.s.ackedBytes <= cap
    && (forall x: nat :: y.s.ackedThrough + c.MaxBuf() <= x < |y.s.sent| ==> x in y.s.unacked)
  }

  /** The sender is never further ahead of its watermark than the buffer and the in-flight cap together allow. */
  lemma AheadOfMark(c: Config, y: Sys, cap: nat)
    requires Inv(c, y) && Open(y) && HeardOk(c, y) && Near(c, y, cap) && 0 < cap
    ensures |y.s.sent| < y.s.ackedThrough + c.MaxBuf() + cap
  {
    hide Inv, Listed, ListsOk;
    var t, n := y.s.ackedThrough, |y.s.sent|;
    WriterIsOk(c, y);
    var far := t + c.MaxBuf();
    if far < n {
      SpanSize(far, n);
      var part := Span(far, n) + {t};
      assert |part| == n - far + 1;
      FramesInFlight(c, y, part);
    }
  }

  /** An ACK that is believed or out of date leaves what is gone within a buffer of the watermark. */
  lemma NearAck(c: Config, y: Sys, cap: nat, f: Frame)
    requires Inv(c, y) && Open(y) && HeardOk(c, y) && Near(c, y, cap) && Believable(y)
    ensures Near(c, Step(c, y, RecvAck(f)), cap)
  {
    hide Inv, WriterOk, HandleAck;
    if f in y.net && f.AckFrame? {
      WriterIsOk(c, y);
      AckLeaves(c, y.s, f.cum, f.seqs);
      ListedIsHeld(c, y, f);
      AheadOfReader(c, y);
    }
  }

  lemma NearWrite(c: Config, y: Sys, cap: nat, chunk: Bytes, limit: int)
    requires Near(c, y, cap) && limit <= cap
    ensures Near(c, Step(c, y, Write(chunk, limit)), cap)
  {
    hide WriteChunk;
    if Enabled(c, y, Write(chunk, limit)) {
      WriteKeeps(c, y.s, chunk);
    }
  }

  /**
   * A buffer and an in-flight cap of together at most 2^20 + 1 bytes keep every watermark
   * believable: in every run, whatever the network does.
   */
  lemma {:induction false} AlwaysBelievable(c: Config, acts: seq<Action>, cap: nat)
    requires c.Valid() && 0 < cap && c.MaxBuf() + cap <= MAX_CUM_ADVANCE + 1
    requires Under(acts, cap) && Open(Run(c, acts))
    ensures Believable(Run(c, acts)) && Near(c, Run(c, acts), cap)
  {
    hide Inv, Step, HeardOk, Near, Believable;
    if acts == [] {
      NearStart(c, cap);
    } else {
      var before, a := acts[..|acts| - 1], acts[|acts| - 1];
      var y := Run(c, before);
      RunOk(c, before);
      OpenBefore(c, y, a);
      AlwaysBelievable(c, before, cap);
      RunHeard(c, before);
      match a {
        case Write(chunk, limit) => NearWrite(c, y, cap, chunk, limit);
        case RecvAck(f) => NearAck(c, y, cap, f);
        case _ => QueueSame(c, y, a); NearSame(c, y, Step(c, y, a), cap);
      }
      RunOk(c, acts);
      RunHeard(c, acts);
      NearBelieved(c, Run(c, acts), cap);
    }
  }

  lemma NearStart(c: Config, cap: nat)
    requires c.Valid()
    ensures Near(c, Start(c), cap) && Believable(Start(c))
  {
  }

  lemma NearSame(c: Config, y: Sys, z: Sys, cap: nat)
    requires Near(c, y, cap) && z.s == y.s.(maxOffset := z.s.maxOffset)
    ensures Near(c, z, cap)
  {
  }

  lemma NearBelieved(c: Config, y: Sys, cap: nat)
    requires Inv(c, y) && Open(y) && HeardOk(c, y) && Near(c, y, cap)
    requires 0 < cap && c.MaxBuf() + cap <= MAX_CUM_ADVANCE + 1
    ensures Believable(y)
  {
    hide Inv, HeardOk, Near;
    AheadOfMark(c, y, cap);
  }

  // --- a wedged sender ---

  predicate Follows(heads: set<nat>, m: nat, x: nat) {
    exists h :: h in heads && h <= x < h + m
  }

  /** Frames from a to n, each within m after one of heads, are at most m for each head. */
  lemma {:induction false} CoveredBy(a: nat, n: nat, m: nat, heads: set<nat>)
    requires a <= n && (forall x: nat :: a <= x < n ==> Follows(heads, m, x))
    ensures n - a <= |heads| * m
    decreases n
  {
    if a < n {
      assert Follows(heads, m, n - 1);
      var h :| h in heads && h <= n - 1 < h + m;
      var rest := heads - {h};
      assert |heads| * m == |rest| * m + m;
      if a < h {
        forall x: nat | a <= x < h ensures Follows(rest, m, x) {
          assert Follows(heads, m, x);
          var g :| g in heads && g <= x < g + m;
          assert g in rest;
        }
        CoveredBy(a, h, m, rest);
      }
    }
  }

  /** Above the watermark, every frame is outstanding or follows an outstanding one within a buffer. */
  lemma HeadBefore(c: Config, y: Sys, x: nat) returns (h: nat)
    requires Inv(c, y) && Open(y) && HeardOk(c, y) && y.s.ackedThrough <= x < |y.s.sent|
    ensures h in y.s.unacked && h < |y.s.sent| && h <= x < h + c.MaxBuf()
  {
    hide Inv;
    WriterIsOk(c, y);
    if x in y.s.unacked {
      h := x;
    } else {
      var f :| f in y.net && f.AckFrame? && x in f.seqs;
      h := Max(f.cum, y.s.ackedThrough);
      assert !Listed(y.net, h);
    }
  }

  /**
   * In every run, at every moment: the frames sent since the watermark are at most a buffer's
   * worth for every frame still outstanding.
   */
  lemma SentSinceMark(c: Config, acts: seq<Action>)
    requires c.Valid() && Open(Run(c, acts))
    ensures var s := Run(c, acts).s; |s.sent| - s.ackedThrough <= |s.unacked| * c.MaxBuf() <= c.MaxBuf() * c.MaxBuf()
  {
    hide Run, Inv, HeardOk;
    var y := Run(c, acts);
    RunOk(c, acts);
    RunHeard(c, acts);
    var a, n, m := y.s.ackedThrough, |y.s.sent|, c.MaxBuf();
    forall x: nat | a <= x < n ensures Follows(y.s.unacked.Keys, m, x) {
      var h := HeadBefore(c, y, x);
    }
    if a <= n {
      CoveredBy(a, n, m, y.s.unacked.Keys);
    }
    InQueue(c, y);
    FramesInFlight(c, y, y.s.unacked.Keys);
    assert |y.s.unacked.Keys| == |y.s.unacked|;
    Product(|y.s.unacked|, m, m);
  }

  lemma Product(a: nat, b: nat, m: nat)
    requires a <= b
    ensures a * m <= b * m
  {
  }

  lemma InQueue(c: Config, y: Sys)
    requires Inv(c, y) && Open(y)
    ensures forall k :: k in y.s.unacked ==> k < |y.s.sent|
  {
    hide NetOk, ClosureOk, ArrivedOk, NoLoss, AcksOk, ReaderOk, LanesOk, Records, SumIn;
  }

  /**
   * A wedged sender writes only so much more: in every continuation that stays open, all frames
   * ever sent number at most MaxBuf squared above the watermark at which it is stuck.
   */
  lemma WedgedWritesBounded(c: Config, acts: seq<Action>, more: seq<Action>)
    requires c.Valid() && Wedged(Run(c, acts)) && Open(Run(c, acts + more))
    ensures |Run(c, acts + more).s.sent| <= Run(c, acts).s.ackedThrough + c.MaxBuf() * c.MaxBuf()
  {
    hide Run, Inv, Wedged;
    RunOk(c, acts);
    RunContinues(c, acts, more);
    WedgedForever(c, Run(c, acts), more, 0);
    SentSinceMark(c, acts + more);
  }
}
