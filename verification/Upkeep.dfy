/**
 * What the reader's bookkeeping is for: every gap it has evidence of is asked for, every frame that
 * arrives out of order is acknowledged by name twice, a parity's verdict says what it did, the ring
 * grows before it is more than half full, and credit is granted in large steps.
 */
module Upkeep {
  import opened Bytes
  import opened Geometry
  import opened Receiver
  import opened Exactness
  import opened Delivery
  import opened Bounds
  import opened Wire
  import opened Sender
  import opened System
  import opened Safety
  import opened Runs
  import opened Steps
  import opened Progress
  import opened Theorems

  /** Nothing to be acknowledged is forgotten. */
  predicate Listens(r: RState, t: RState) {
    t.ackReplay == r.ackReplay && forall x :: x in r.ackPending ==> x in t.ackPending
  }

  // --- in every run ---

  lemma GoodLive(c: Config, y: Sys)
    requires Inv(c, y) && y.r.Live()
    ensures Good(c, y.s.sent, y.got, y.r) && Balanced(y.r, y.got) && y.r.readSeq !in y.r.reorder
  {
    hide WriterOk, NetOk, ClosureOk, ArrivedOk, NoLoss, AcksOk, AccsOk, PendOk;
  }

  lemma DataTidy(c: Config, ramp: set<nat>, r: RState, sn: nat, payload: Bytes)
    requires Tidy(c, r)
    ensures var t := Deliver(c, ramp, r, sn, payload, false).r; Tidy(c, t) && Listens(r, t)
  {
    hide Kept, Deliver;
    DeliverFine(c, ramp, r, sn, payload);
  }

  lemma ParityTidy(c: Config, ramp: set<nat>, r: RState, row: bool, base: nat, p: Parity)
    requires Tidy(c, r)
    ensures var t := ApplyFec(c, ramp, r, row, base, p).r; Tidy(c, t) && Listens(r, t)
  {
    hide Kept, TryReconstruct, StoreParity;
    TryFine(c, ramp, r, row, base, p);
    hide Tidy, Fine;
    var t := TryReconstruct(c, ramp, r, row, base, p).r;
    TidyOf(c, ramp, r, t);
    SameTidy(c, t, t.WithPend(row, StoreParity(t.Pend(row), base, p)));
  }

  lemma TidyOf(c: Config, ramp: set<nat>, r: RState, t: RState)
    requires Tidy(c, r) && Fine(c, ramp, r, t)
    ensures Tidy(c, t) && Listens(r, t)
  {
    hide Kept;
  }

  lemma SameTidy(c: Config, r: RState, t: RState)
    requires t.reorder == r.reorder && t.reorderBytes == r.reorderBytes && t.maxSeen == r.maxSeen
    requires t.ring == r.ring && t.cap == r.cap && t.colAcc == r.colAcc && t.rowAcc == r.rowAcc
    ensures Tidy(c, r) ==> Tidy(c, t)
  {
  }

  lemma ReadTidy(c: Config, y: Sys, n: nat)
    requires Inv(c, y) && y.r.Live() && Enabled(c, y, Read(n)) && Tidy(c, y.r)
    ensures Tidy(c, ReadSome(c, y.r, n)) && SameLists(y.r, ReadSome(c, y.r, n))
  {
    hide Inv;
    ReadKeeps(c, y, n);
    ReadShrinks(c, y, n);
    hide ReadSome;
  }

  lemma ReadShrinks(c: Config, y: Sys, n: nat)
    requires Inv(c, y) && y.r.Live() && Enabled(c, y, Read(n))
    ensures |ReadSome(c, y.r, n).ring| <= |y.r.ring|
  {
    GoodLive(c, y);
    hide Inv, Good;
    var r1 := y.r.(ring := y.r.ring[Min(n, |y.r.ring|)..]);
    assert Drain(c, r1) == r1;
  }

  lemma FinTidy(c: Config, r: RState, sn: nat)
    requires r.Live() && Tidy(c, r)
    ensures var t := Deliver(c, {}, r, sn, [], true).r; Tidy(c, t) && SameLists(r, t)
  {
    hide Kept, Tidy;
    SameTidy(c, r, MaybeEOF(r.(finRecvd := true, finSeq := sn)));
  }

  lemma TidyStep(c: Config, y: Sys, a: Action)
    requires Inv(c, y) && y.r.Live() && Tidy(c, y.r) && Step(c, y, a).r.Live()
    ensures Tidy(c, Step(c, y, a).r)
  {
    hide Inv, Deliver, ApplyFec, ReadSome, WriteChunk, Sender.CloseWrite, HandleAck, From, Tidy;
    if Enabled(c, y, a) {
      match a
      case RecvData(f, ramp) => DataTidy(c, ramp, y.r, f.sn, f.payload);
      case RecvParity(f, ramp) => ParityTidy(c, ramp, y.r, f.row, f.base, f.p);
      case RecvFin(f) => FinTidy(c, y.r, f.sn);
      case Read(n) => ReadTidy(c, y, n);
      case SendAck => SameTidy(c, y.r, AckSnapshot(y.r).r);
      case _ =>
    }
  }

  /** In every run the ring of a live reader is at most half full, or has reached its full size. */
  lemma {:induction false} RunTidy(c: Config, acts: seq<Action>)
    requires c.Valid() && Run(c, acts).r.Live()
    ensures Tidy(c, Run(c, acts).r)
  {
    hide Step, Inv;
    if acts != [] {
      hide Tidy;
      var y, a := Run(c, acts[..|acts| - 1]), acts[|acts| - 1];
      RunOk(c, acts[..|acts| - 1]);
      LiveBefore(c, y, a);
      RunTidy(c, acts[..|acts| - 1]);
      TidyStep(c, y, a);
    }
  }

  // --- every gap is asked for ---

  /** What is not listed comes after everything that is. */
  lemma {:induction false} GapsFirst(r: RState, sn: nat, hi: int, n: nat, x: nat)
    requires sn <= x <= hi && x !in r.reorder && x !in Gaps(r, sn, hi, n)
    ensures forall g :: g in Gaps(r, sn, hi, n) ==> g < x
    decreases hi - sn
  {
    if n > 0 {
      if sn in r.reorder {
        GapsFirst(r, sn + 1, hi, n, x);
      } else {
        var t := Gaps(r, sn + 1, hi, n - 1);
        assert Gaps(r, sn, hi, n) == [sn] + t;
        assert x != sn;
        GapsFirst(r, sn + 1, hi, n - 1, x);
      }
    }
  }

  /** The receiver has evidence that frame x was sent: a later one is here, or the FIN is. */
  ghost predicate Evident(r: RState, x: nat) {
    (exists later: nat :: x < later && Has(r, later)) || (r.finRecvd && x < r.finSeq)
  }

  /** In every run a NACK asks for every missing frame there is evidence of, or for 1024 earlier ones. */
  lemma NacksReachEverything(c: Config, acts: seq<Action>, x: nat)
    requires c.Valid() && Run(c, acts).r.Live() && !Has(Run(c, acts).r, x) && Evident(Run(c, acts).r, x)
    ensures var asked := NackList(Run(c, acts).r);
            x in asked || (|asked| == 1024 && forall g :: g in asked ==> g < x)
  {
    hide Run, Gaps;
    RunTidy(c, acts);
    var r := Run(c, acts).r;
    if !(r.finRecvd && x < r.finSeq) {
      var later: nat :| x < later && Has(r, later);
      assert later in r.reorder;
    }
    GapsRange(r, r.readSeq, NackHorizon(r), MAX_NACK_SEQS_PER_FIRE);
    if x !in NackList(r) {
      GapsFirst(r, r.readSeq, NackHorizon(r), MAX_NACK_SEQS_PER_FIRE, x);
    }
  }

  /** And a reader knows of a gap exactly if there is a frame to ask for. */
  lemma GappedIff(c: Config, acts: seq<Action>)
    requires c.Valid() && Run(c, acts).r.Live()
    ensures var r := Run(c, acts).r; Gapped(r) <==> exists x: nat :: !Has(r, x) && Evident(r, x)
  {
    hide Run, Inv;
    RunOk(c, acts);
    var r := Run(c, acts).r;
    BeyondHead(c, Run(c, acts));
    assert !Has(r, r.readSeq);
    if r.reorder != map[] {
      var k :| k in r.reorder;
      assert r.readSeq < k && Has(r, k);
      assert Evident(r, r.readSeq);
    } else if r.finRecvd && r.readSeq < r.finSeq {
      assert Evident(r, r.readSeq);
    }
  }

  lemma BeyondHead(c: Config, y: Sys)
    requires Inv(c, y) && y.r.Live()
    ensures y.r.readSeq !in y.r.reorder && forall k :: k in y.r.reorder ==> y.r.readSeq < k
  {
    hide WriterOk, NetOk, ClosureOk, ArrivedOk, NoLoss, AcksOk, AccsOk, PendOk;
  }

  // --- every frame is acknowledged twice ---

  /** The next snapshot names x, or its watermark covers it. */
  predicate Named(r: RState, x: nat) {
    var k := AckSnapshot(r);
    x < k.cum || x in k.seqs
  }

  predicate Arrived(r: RState, x: nat) {
    x < r.readSeq || x in r.ackPending
  }

  predicate Replayed(r: RState, x: nat) {
    x < r.readSeq || x in r.ackReplay
  }

  lemma ListedIsNamed(r: RState, x: nat)
    requires Arrived(r, x) || Replayed(r, x)
    ensures Named(r, x)
  {
    hide From;
  }

  lemma DroppedStays(c: Config, y: Sys, a: Action)
    requires Inv(c, y) && Dropped(y.r)
    ensures Dropped(Step(c, y, a).r)
  {
    hide WriterOk, NetOk, ClosureOk, ArrivedOk, NoLoss, AcksOk, Core, ApplyFec, WriteChunk, Sender.CloseWrite, HandleAck, From;
  }

  lemma EndedRemembers(c: Config, y: Sys, a: Action)
    requires Inv(c, y) && !y.r.Live() && !a.SendAck? && !Dropped(Step(c, y, a).r)
    ensures Listens(y.r, Step(c, y, a).r)
  {
    hide Inv, Deliver, ApplyFec, ReadSome, WriteChunk, Sender.CloseWrite, HandleAck, From;
    if Enabled(c, y, a) {
      match a
      case RecvData(f, ramp) => DeliverEnded(c, ramp, y.r, f.sn, f.payload, false);
      case RecvFin(f) => DeliverEnded(c, {}, y.r, f.sn, [], true);
      case Read(n) => EndedReadSame(c, y, n);
      case RecvReset(f) => ResetDrops(c, y, f);
      case _ =>
    }
  }

  /** A RESET drops whatever is buffered. */
  lemma ResetDrops(c: Config, y: Sys, f: Frame)
    requires Inv(c, y) && Enabled(c, y, RecvReset(f))
    ensures Dropped(Step(c, y, RecvReset(f)).r)
  {
    NetHas(c, y, f);
    hide WriterOk, NetOk, ClosureOk, ArrivedOk, NoLoss, AcksOk, Core;
  }

  lemma EndedReadSame(c: Config, y: Sys, n: nat)
    requires Inv(c, y) && Enabled(c, y, Read(n)) && !y.r.Live()
    ensures SameLists(y.r, ReadSome(c, y.r, n))
  {
    hide WriterOk, NetOk, ClosureOk, ArrivedOk, NoLoss, AcksOk, Core;
    if y.r.readErr.EOF? {
      var r1 := y.r.(ring := y.r.ring[Min(n, |y.r.ring|)..]);
      assert Drain(c, r1) == r1;
    } else {
      hide ReadSome;
      RingHolds(y.r, y.got);
      ReadSomeOk(c, y.s.sent, y.got, y.r, n);
    }
  }

  lemma LiveRemembers(c: Config, y: Sys, a: Action)
    requires Inv(c, y) && y.r.Live() && Tidy(c, y.r) && !a.SendAck? && !Dropped(Step(c, y, a).r)
    ensures Listens(y.r, Step(c, y, a).r)
  {
    hide Inv, Deliver, ApplyFec, ReadSome, WriteChunk, Sender.CloseWrite, HandleAck, From, Tidy;
    if Enabled(c, y, a) {
      match a
      case RecvData(f, ramp) => DataTidy(c, ramp, y.r, f.sn, f.payload);
      case RecvParity(f, ramp) => ParityTidy(c, ramp, y.r, f.row, f.base, f.p);
      case RecvFin(f) => FinTidy(c, y.r, f.sn);
      case Read(n) => ReadTidy(c, y, n);
      case _ =>
    }
  }

  predicate NoFlush(acts: seq<Action>) {
    forall a :: a in acts ==> !a.SendAck?
  }

  /** Between two snapshots nothing is forgotten, unless the reader is dropped. */
  lemma {:induction false} ListsStay(c: Config, acts: seq<Action>, more: seq<Action>, x: nat)
    requires c.Valid() && NoFlush(more) && !Dropped(Run(c, acts + more).r)
    ensures !Dropped(Run(c, acts).r)
    ensures Arrived(Run(c, acts).r, x) ==> Arrived(Run(c, acts + more).r, x)
    ensures Replayed(Run(c, acts).r, x) ==> Replayed(Run(c, acts + more).r, x)
  {
    hide Step, Inv, Dropped;
    if more == [] {
      assert acts + more == acts;
    } else {
      var n := |more| - 1;
      var y, a := Run(c, acts + more[..n]), more[n];
      RunOk(c, acts + more[..n]);
      assert (acts + more)[..|acts + more| - 1] == acts + more[..n];
      if Dropped(y.r) {
        DroppedStays(c, y, a);
      }
      ListsStay(c, acts, more[..n], x);
      SeqGrows(c, y, a);
      if y.r.Live() {
        RunTidy(c, acts + more[..n]);
        LiveRemembers(c, y, a);
      } else {
        EndedRemembers(c, y, a);
      }
    }
  }

  lemma RunSnoc(c: Config, acts: seq<Action>, a: Action)
    requires c.Valid()
    ensures Run(c, acts + [a]) == Step(c, Run(c, acts), a)
  {
    hide Step;
    assert (acts + [a])[..|acts|] == acts;
  }

  /** A frame that arrives at a live reader is in order, or to be acknowledged by name: a repetition too. */
  lemma ArrivalIsListed(c: Config, y: Sys, f: Frame, ramp: set<nat>)
    requires Inv(c, y) && y.r.Live() && f in y.net && f.DataFrame?
    ensures Arrived(Step(c, y, RecvData(f, ramp)).r, f.sn)
  {
    NetHas(c, y, f);
    GoodLive(c, y);
    hide Inv, DeliverData, Good;
    DeliverDataOk(c, ramp, y.s.sent, y.got, y.r, f.sn);
  }

  lemma FlushRotates(c: Config, y: Sys, x: nat)
    requires Arrived(y.r, x)
    ensures Replayed(Step(c, y, SendAck).r, x)
  {
    hide From;
  }

  /**
   * A frame received by a live reader, for the first time or again, is named by the two next
   * snapshots, or their watermarks cover it, whatever happens in between short of dropping the reader.
   */
  lemma NamedTwice(c: Config, acts: seq<Action>, f: Frame, ramp: set<nat>, until: seq<Action>, after: seq<Action>)
    requires c.Valid() && Run(c, acts).r.Live() && f in Run(c, acts).net && f.DataFrame?
    requires NoFlush(until) && NoFlush(after)
    requires !Dropped(Run(c, acts + [RecvData(f, ramp)] + until + [SendAck] + after).r)
    ensures Named(Run(c, acts + [RecvData(f, ramp)] + until).r, f.sn)
    ensures Named(Run(c, acts + [RecvData(f, ramp)] + until + [SendAck] + after).r, f.sn)
  {
    hide Run, Step, Inv, Dropped, Arrived, Replayed, Named;
    var got := acts + [RecvData(f, ramp)];
    RunOk(c, acts);
    RunSnoc(c, acts, RecvData(f, ramp));
    ArrivalIsListed(c, Run(c, acts), f, ramp);
    var first := got + until;
    RunSnoc(c, first, SendAck);
    ListsStay(c, first + [SendAck], after, f.sn);
    RunOk(c, first);
    if Dropped(Run(c, first).r) {
      DroppedStays(c, Run(c, first), SendAck);
    }
    ListsStay(c, got, until, f.sn);
    ListedIsNamed(Run(c, first).r, f.sn);
    FlushRotates(c, Run(c, first), f.sn);
    ListedIsNamed(Run(c, first + [SendAck] + after).r, f.sn);
  }

  /** And no more than twice: two snapshots empty both lists. */
  lemma ListsExpire(r: RState)
    ensures var t := AckSnapshot(AckSnapshot(r).r).r; t.ackPending == [] && t.ackReplay == []
  {
    hide From;
  }

  /** Once the FIN was received, every snapshot acknowledges its position. */
  lemma FinIsNamed(c: Config, acts: seq<Action>)
    requires c.Valid() && Run(c, acts).r.finRecvd && !Dropped(Run(c, acts).r)
    ensures Named(Run(c, acts).r, |Run(c, acts).s.sent|)
  {
    hide Run, Inv, From;
    RunOk(c, acts);
    FinKnown(c, Run(c, acts));
  }

  // --- the verdict on a parity ---

  /** Exactly one member of the group is not here. */
  predicate OneMissing(c: Config, r: RState, row: bool, base: nat, count: nat) {
    exists m: nat :: m < count && !Has(r, c.Member(row, base, m)) && AllBut(c, r, row, base, count, m)
  }

  lemma HeldGrows(r: RState, t: RState)
    requires forall x: nat :: Has(r, x) ==> Has(t, x)
    ensures Held(r) <= Held(t)
  {
    forall x | x in Held(r) ensures x in Held(t) {
      HeldIsHas(r, x);
      HeldIsHas(t, x);
    }
  }

  /** The parity's frame passes the receiver's checks. */
  lemma OnWireAcceptable(c: Config, y: Sys, f: Frame)
    requires Inv(c, y) && y.r.Live() && f in y.net && f.ParityFrame?
    ensures Genuine(c, y.s.sent, f.row, f.base, f.p) && Acceptable(c, y.r, f.row, f.base, f.p)
  {
    NetHas(c, y, f);
    hide WriterOk, ReaderOk, NetOk, ClosureOk, ArrivedOk, NoLoss, AcksOk, GroupData, GroupLen, GroupCount;
  }

  /**
   * In every run, for every parity that arrives: it reports a recovery if and only if the reader is
   * live and exactly one member was missing, which is if and only if a frame was gained; otherwise
   * what is held stays.
   */
  lemma VerdictIff(c: Config, acts: seq<Action>, f: Frame, ramp: set<nat>)
    requires c.Valid() && f in Run(c, acts).net && f.ParityFrame?
    ensures var r := Run(c, acts).r;
            var a := ApplyFec(c, ramp, r, f.row, f.base, f.p);
            && (a.recovered <==> r.Live() && OneMissing(c, r, f.row, f.base, f.p.count))
            && (a.recovered <==> Held(a.r) != Held(r)) && Held(r) <= Held(a.r)
  {
    hide Run, TryReconstruct, Held, OneMissing;
    if Run(c, acts).r.Live() {
      LiveVerdict(c, acts, f, ramp);
    }
  }

  lemma LiveVerdict(c: Config, acts: seq<Action>, f: Frame, ramp: set<nat>)
    requires c.Valid() && Run(c, acts).r.Live() && f in Run(c, acts).net && f.ParityFrame?
    ensures var r := Run(c, acts).r;
            var a := ApplyFec(c, ramp, r, f.row, f.base, f.p);
            && (a.recovered <==> OneMissing(c, r, f.row, f.base, f.p.count))
            && (a.recovered <==> Held(a.r) != Held(r)) && Held(r) <= Held(a.r)
  {
    hide Run, Inv, Has, Deliver, TryReconstruct, Genuine, Good, Held, c.Member, Keeps, StoreParity;
    var y := Run(c, acts);
    RunOk(c, acts);
    GoodLive(c, y);
    OnWireAcceptable(c, y, f);
    var t := TryReconstruct(c, ramp, y.r, f.row, f.base, f.p);
    var k := TryCases(c, ramp, y.s.sent, y.got, y.r, f.row, f.base, f.p);
    match k {
      case Complete =>
      case Waits => StoredHolds(y.r, f.row, f.base, f.p);
      case Yields(m) =>
        var sn := c.Member(f.row, f.base, m);
        DeliverOk(c, ramp, y.s.sent, y.got, y.r, sn);
        KeepsHeld(y.r, t.r);
        HeldIsHas(y.r, sn);
        HeldIsHas(t.r, sn);
    }
  }

  lemma KeepsHeld(r: RState, t: RState)
    requires Keeps(r, t)
    ensures Held(r) <= Held(t)
  {
    HeldGrows(r, t);
  }

  lemma StoredHolds(r: RState, row: bool, base: nat, p: Parity)
    ensures Held(r.WithPend(row, StoreParity(r.Pend(row), base, p))) == Held(r)
  {
    hide StoreParity;
  }

  // --- credit ---

  /** A read grants nothing, or at least a quarter of the ring: window updates are rare. */
  lemma GrantsAreCoarse(c: Config, acts: seq<Action>, n: nat)
    requires c.Valid() && Run(c, acts).r.Live()
    ensures var y := Run(c, acts);
            var was, now := y.r.peerOffset, Step(c, y, Read(n)).r.peerOffset;
            now == was || y.r.cap / 4 <= now - was
  {
    hide Run;
    var y := Run(c, acts);
    RunOk(c, acts);
    GoodLive(c, y);
    hide Inv, Good;
    var r1 := y.r.(ring := y.r.ring[Min(n, |y.r.ring|)..]);
    assert Drain(c, r1) == r1;
  }
}
