/** What every run of the protocol guarantees. */
module Theorems {
  import opened Bytes
  import opened Geometry
  import opened Receiver
  import opened Exactness
  import opened Delivery
  import opened Peeling
  import opened Wire
  import opened Ledger
  import opened Sender
  import opened System
  import opened Safety
  import opened Runs

  // --- end-to-end safety ---

  /** Bytes returned by Read are always a prefix of the bytes passed to Write. */
  lemma ReadsArePrefix(c: Config, acts: seq<Action>)
    requires c.Valid()
    ensures Run(c, acts).got <= Flatten(Run(c, acts).s.sent)
  {
    hide Inv, Run;
    RunOk(c, acts);
    GotIsPrefix(c, Run(c, acts));
  }

  /** Read returns io.EOF: nothing is buffered and the sticky error is EOF. */
  predicate AtEOF(y: Sys) {
    y.r.ring == [] && y.r.readErr.EOF?
  }

  /** Unless the application itself cancelled reading, EOF means that everything written was read. */
  lemma EofMeansComplete(c: Config, acts: seq<Action>)
    requires c.Valid() && AtEOF(Run(c, acts)) && !Run(c, acts).r.canceled
    ensures Run(c, acts).got == Flatten(Run(c, acts).s.sent)
    ensures Run(c, acts).s.fin && !Run(c, acts).s.failed
  {
    hide Run, WriterOk, NetOk, ClosureOk, ArrivedOk, NoLoss, AcksOk;
    RunOk(c, acts);
    var y := Run(c, acts);
    assert y.got + y.r.ring == y.got;
  }

  /** A stream that reached EOF and is then cancelled still reports EOF: complete iff nothing was left unread. */
  lemma CancelAfterEof(c: Config, acts: seq<Action>)
    requires c.Valid() && Run(c, acts).r.readErr.EOF? && !Run(c, acts).r.canceled
    ensures var y := Run(c, acts);
            var z := Step(c, y, CancelReading);
            AtEOF(z) && (z.got == Flatten(z.s.sent) <==> y.r.ring == [])
  {
    hide Run, WriterOk, NetOk, ClosureOk, ArrivedOk, NoLoss, AcksOk, Flatten;
    RunOk(c, acts);
    var y := Run(c, acts);
    if y.r.ring == [] {
      assert y.got + y.r.ring == y.got;
    } else {
      assert |y.got + y.r.ring| > |y.got|;
    }
  }

  const W0 := Write([7], 24)
  const D0 := DataFrame(0, [7])
  const F0 := FinFrame(1)

  lemma WitnessSends(c: Config)
    requires c == Config(0, false, 12, 100)
    ensures var y := Run(c, [W0, Close]);
            y.r == Fresh(c) && y.got == [] && y.s.sent == [[7]] && D0 in y.net && F0 in y.net
  {
    RunUnfold(c, [], W0);
    RunUnfold(c, [W0], Close);
    assert [] + [W0] == [W0] && [W0] + [Close] == [W0, Close];
    var y := Run(c, [W0]);
    assert y == Do(c, Start(c), W0);
    assert y.s.sent == [[7]] && D0 in y.net && y.r == Fresh(c);
  }

  lemma FirstByte(c: Config)
    requires c == Config(0, false, 12, 100)
    ensures var r := Deliver(c, {}, Fresh(c), 0, [7], false).r;
            r.ring == [7] && r.readSeq == 1 && r.Live() && !r.finRecvd
  {
    var r := Fresh(c);
    assert MakeRoom(c, r, 1) == Room(true, r);
    var r1 := r.(ring := [7], readSeq := 1);
    assert Drain(c, r1) == r1;
    assert Admit(c, {}, r, 0, [7]).r == MaybeEOF(MaybeGrow(c, {}, r1));
  }

  lemma ByteArrives(c: Config, y: Sys)
    requires c == Config(0, false, 12, 100) && y.r == Fresh(c) && D0 in y.net && F0 in y.net && y.got == []
    ensures var z := Step(c, y, RecvData(D0, {}));
            z.r.readSeq == 1 && z.r.Live() && F0 in z.net && z.got == [] && z.s == y.s
  {
    FirstByte(c);
    hide Deliver;
  }

  /** The case is real: one byte written and delivered, the stream closed, then cancelled unread. */
  lemma CancelLosesBytes(c: Config)
    requires c == Config(0, false, 12, 100)
    ensures var y := Run(c, [W0, Close, RecvData(D0, {}), RecvFin(F0), CancelReading]);
            AtEOF(y) && y.got == [] && Flatten(y.s.sent) == [7]
  {
    hide Run, Step, AtEOF, Flatten;
    WitnessSends(c);
    var a := [W0, Close];
    var b := a + [RecvData(D0, {})];
    var d := b + [RecvFin(F0)];
    RunUnfold(c, a, RecvData(D0, {}));
    RunUnfold(c, b, RecvFin(F0));
    RunUnfold(c, d, CancelReading);
    assert d + [CancelReading] == [W0, Close, RecvData(D0, {}), RecvFin(F0), CancelReading];
    ByteArrives(c, Run(c, a));
    FinThenCancel(c, Run(c, b));
    OneByte();
  }

  lemma OneByte()
    ensures Flatten([[7]]) == [7]
  {
    var none: seq<Bytes> := [];
    FlattenSnoc(none, [7]);
    assert none + [[7]] == [[7]];
  }

  lemma FinThenCancel(c: Config, y: Sys)
    requires y.r.readSeq == 1 && y.r.Live() && F0 in y.net
    ensures var z := Step(c, Step(c, y, RecvFin(F0)), CancelReading);
            AtEOF(z) && z.got == y.got && z.s == y.s
  {
  }

  lemma RunUnfold(c: Config, acts: seq<Action>, a: Action)
    requires c.Valid()
    ensures Run(c, acts + [a]) == Step(c, Run(c, acts), a)
  {
    assert (acts + [a])[..|acts|] == acts;
  }

  // --- flow control ---

  /** A conforming sender is never refused: every frame in the network is accepted whenever it arrives. */
  lemma NeverRefused(c: Config, acts: seq<Action>, f: Frame, ramp: set<nat>)
    requires c.Valid() && f in Run(c, acts).net && f.DataFrame? && Run(c, acts).r.Live()
    ensures var d := Deliver(c, ramp, Run(c, acts).r, f.sn, f.payload, false);
            d.ack && Has(d.r, f.sn)
  {
    hide Run, Deliver, WriterOk, ClosureOk, ArrivedOk, NoLoss, AcksOk, Core, FinOk;
    RunOk(c, acts);
    var y := Run(c, acts);
    NetHas(c, y, f);
    DeliverOk(c, ramp, y.s.sent, y.got, y.r, f.sn);
  }

  /** So is every frame a parity yields: the group is complete afterwards. */
  lemma InjectedNeverRefused(c: Config, acts: seq<Action>, f: Frame, ramp: set<nat>)
    requires c.Valid() && f in Run(c, acts).net && f.ParityFrame? && Run(c, acts).r.Live()
    ensures var y := Run(c, acts);
            var t := TryReconstruct(c, ramp, y.r, f.row, f.base, f.p);
            t.outcome.FecRecovered? ==> AllHere(c, t.r, f.row, f.base, f.p.count)
  {
    hide Run, TryReconstruct, WriterOk, ClosureOk, ArrivedOk, NoLoss, AcksOk, Core, FinOk, Genuine, AllHere, TwoMissing;
    RunOk(c, acts);
    var y := Run(c, acts);
    NetHas(c, y, f);
    TryReconstructOk(c, ramp, y.s.sent, y.got, y.r, f.row, f.base, f.p);
  }

  /** Deferred grants cannot starve the sender: with everything read and the watermark known, more than three
      quarters of the ring, and at least one full chunk, may be written. */
  lemma CreditSuffices(c: Config, acts: seq<Action>)
    requires c.Valid() && Run(c, acts).r.Live()
    requires Run(c, acts).got == Flatten(Run(c, acts).s.sent)
    requires Run(c, acts).s.maxOffset == Run(c, acts).r.peerOffset
    ensures var y := Run(c, acts);
            4 * (y.s.maxOffset - y.s.sentOffset) > 3 * y.r.cap && y.s.maxOffset - y.s.sentOffset >= c.DataCap()
  {
    hide Run, NetOk, ClosureOk, ArrivedOk, NoLoss, AcksOk, Core, FinOk, LanesOk, Records, Flatten;
    RunOk(c, acts);
  }

  /** Bytes in flight are exactly the payload of the unacknowledged frames, and never exceed the buffer size. */
  lemma InFlightConserved(c: Config, acts: seq<Action>)
    requires c.Valid() && !Run(c, acts).s.failed
    ensures var s := Run(c, acts).s;
            s.sentOffset - s.ackedBytes == InFlight(s.sent, s.unacked) <= c.MaxBuf() &&
            s.sentOffset == |Flatten(s.sent)| && Records(s.sent, s.unacked)
  {
    hide Run, NetOk, ClosureOk, ArrivedOk, NoLoss, AcksOk, ReaderOk, LanesOk;
    RunOk(c, acts);
  }

  // --- no frame is lost ---

  /** Until the write side is aborted or the read side dropped, each frame is queued at the sender or held here. */
  lemma NoFrameLost(c: Config, acts: seq<Action>, sn: nat)
    requires c.Valid() && !Run(c, acts).s.failed && !Dropped(Run(c, acts).r) && sn < |Run(c, acts).s.sent|
    ensures var y := Run(c, acts);
            Has(y.r, sn) || (sn in y.s.unacked && y.s.unacked[sn] == y.s.sent[sn])
  {
    hide Run, NetOk, ClosureOk, ArrivedOk, AcksOk, ReaderOk, LanesOk, Has;
    RunOk(c, acts);
  }

  /** The frame a stalled receiver waits for can always be resent. */
  lemma HeadCanBeResent(c: Config, acts: seq<Action>)
    requires c.Valid() && !Run(c, acts).s.failed && Run(c, acts).r.Live()
    requires Run(c, acts).r.readSeq < |Run(c, acts).s.sent|
    ensures Enabled(c, Run(c, acts), Resend(Run(c, acts).r.readSeq))
  {
    hide Run, NetOk, ClosureOk, ArrivedOk, AcksOk, LanesOk, CorePre;
    RunOk(c, acts);
  }

  lemma {:induction false} GapsRange(r: RState, sn: nat, hi: int, n: nat)
    ensures forall x :: x in Gaps(r, sn, hi, n) ==> sn <= x <= hi && x !in r.reorder
    ensures forall i, j :: 0 <= i < j < |Gaps(r, sn, hi, n)| ==> Gaps(r, sn, hi, n)[i] < Gaps(r, sn, hi, n)[j]
    ensures |Gaps(r, sn, hi, n)| <= n
    ensures |Gaps(r, sn, hi, n)| < n ==>
              forall x :: sn <= x <= hi && x !in r.reorder ==> x in Gaps(r, sn, hi, n)
    decreases hi - sn
  {
    if sn <= hi && n > 0 {
      if sn in r.reorder {
        GapsRange(r, sn + 1, hi, n);
      } else {
        GapsRange(r, sn + 1, hi, n - 1);
        var t := Gaps(r, sn + 1, hi, n - 1);
        forall i, j | 0 <= i < j < |[sn] + t| ensures ([sn] + t)[i] < ([sn] + t)[j] {
          assert t[j - 1] in t;
        }
      }
    }
  }

  /** A NACK asks only for frames that are missing here and still queued at the sender. */
  lemma NacksAreAnswerable(c: Config, acts: seq<Action>, x: nat)
    requires c.Valid() && !Run(c, acts).s.failed && Run(c, acts).r.Live() && Gapped(Run(c, acts).r)
    requires x in NackList(Run(c, acts).r)
    ensures var y := Run(c, acts); !Has(y.r, x) && x < |y.s.sent| && x in y.s.unacked
  {
    hide Run, NetOk, ClosureOk, ArrivedOk, AcksOk, LanesOk, AccsOk, PendOk, Gaps;
    RunOk(c, acts);
    var y := Run(c, acts);
    GapsRange(y.r, y.r.readSeq, NackHorizon(y.r), MAX_NACK_SEQS_PER_FIRE);
    if y.r.reorder != map[] {
      var k :| k in y.r.reorder;
    }
  }

  // --- parity exactness ---

  /** Every parity in the network is the XOR of exactly the members the static geometry assigns to its group,
      a full group or what the close found in progress. */
  lemma ParityIsExact(c: Config, acts: seq<Action>, f: Frame)
    requires c.Valid() && f in Run(c, acts).net && f.ParityFrame?
    ensures var s := Run(c, acts).s;
            OnWire(c, s, f.row, f.base, f.p) &&
            f.p.data == GroupData(c, s.sent, f.row, f.base, f.p.count) &&
            f.p.lenXor == GroupLen(c, s.sent, f.row, f.base, f.p.count)
  {
    hide Run, WriterOk, ClosureOk, ArrivedOk, AcksOk, ReaderOk, NoLoss, GroupData, GroupLen, GroupCount;
    RunOk(c, acts);
    NetHas(c, Run(c, acts), f);
  }

  /** Each accumulator map stays within 2G groups and describes exactly the members below readSeq. */
  lemma AccumulatorsExact(c: Config, acts: seq<Action>, row: bool)
    requires c.Valid() && Run(c, acts).r.Live() && Uses(c, row)
    ensures var y := Run(c, acts);
            |y.r.Acc(row)| <= 2 * c.group && AccExact(c, y.s.sent, row, y.r.Acc(row), y.r.readSeq)
  {
    hide Run, WriterOk, NetOk, ClosureOk, ArrivedOk, AcksOk, NoLoss, AccExact, BufOk, PendOk;
    RunOk(c, acts);
  }

  // --- recovery as a closure ---

  function Held(r: RState): set<nat> {
    UpTo(r.readSeq) + r.reorder.Keys
  }

  lemma HeldIsHas(r: RState, x: nat)
    ensures x in Held(r) <==> Has(r, x)
  {
  }

  /** H is the least set that contains the frames D and obeys the recovery rule of every parity in P. */
  ghost predicate LeastClosure(c: Config, D: set<nat>, P: map<Key, nat>, H: set<nat>) {
    D <= H && ArrivedClosed(c, H, P) && forall C :: D <= C && ArrivedClosed(c, C, P) ==> H <= C
  }

  lemma ServedClosed(c: Config, y: Sys, k: Key)
    requires QuietExcept(c, y.r, {}) && PendArrived(y.r, y.arrived) && Served(c, y)
    requires k in y.arrived && k !in y.evicted
    ensures Closed(c, Held(y.r), k.0, k.1, y.arrived[k])
  {
    hide c.Member, Held;
    var count := y.arrived[k];
    forall m: nat | m < count && (forall i: nat :: i < count && i != m ==> c.Member(k.0, k.1, i) in Held(y.r))
      ensures c.Member(k.0, k.1, m) in Held(y.r)
    {
      HeldIsHas(y.r, c.Member(k.0, k.1, m));
      if k.1 in y.r.Pend(k.0) {
        assert TwoMissing(c, y.r, k.0, k.1, count);
        var i: nat, j: nat :| i < j < count && !Has(y.r, c.Member(k.0, k.1, i)) && !Has(y.r, c.Member(k.0, k.1, j));
        HeldIsHas(y.r, c.Member(k.0, k.1, i));
        HeldIsHas(y.r, c.Member(k.0, k.1, j));
      } else {
        assert AllHere(c, y.r, k.0, k.1, count);
      }
    }
  }

  /** Whatever was evicted, recovery lies between two closures: at least that of the parities still served,
      at most that of all parities that arrived. */
  lemma RecoveryBetweenClosures(c: Config, acts: seq<Action>)
    requires c.Valid() && Run(c, acts).r.Live()
    ensures var y := Run(c, acts);
            y.seen <= Held(y.r) &&
            (forall k :: k in y.arrived && k !in y.evicted ==> Closed(c, Held(y.r), k.0, k.1, y.arrived[k])) &&
            (forall C :: y.seen <= C && ArrivedClosed(c, C, y.arrived) ==> Held(y.r) <= C)
  {
    hide Run, WriterOk, NetOk, ArrivedOk, AcksOk, NoLoss, ReaderOk, Closed, Held, Served, QuietExcept, PendArrived,
         ArrivedClosed;
    RunOk(c, acts);
    var y := Run(c, acts);
    forall x | x in y.seen ensures x in Held(y.r) {
      HeldIsHas(y.r, x);
    }
    forall k | k in y.arrived && k !in y.evicted ensures Closed(c, Held(y.r), k.0, k.1, y.arrived[k]) {
      ServedClosed(c, y, k);
    }
    forall C | y.seen <= C && ArrivedClosed(c, C, y.arrived) ensures Held(y.r) <= C {
      assert Within(y.r, C);
      forall x | x in Held(y.r) ensures x in C {
        HeldIsHas(y.r, x);
      }
    }
  }

  /** Without eviction, the frames held are exactly the least closure of the arrivals under peeling. */
  lemma PeelingIsLeastClosure(c: Config, acts: seq<Action>)
    requires c.Valid() && Run(c, acts).r.Live() && Run(c, acts).evicted == {}
    ensures LeastClosure(c, Run(c, acts).seen, Run(c, acts).arrived, Held(Run(c, acts).r))
  {
    hide Run, Closed, Held;
    RecoveryBetweenClosures(c, acts);
  }

  /** Recovery does not depend on the order, number or timing of arrivals. */
  lemma RecoveryIsOrderIndependent(c: Config, a: seq<Action>, b: seq<Action>)
    requires c.Valid() && Run(c, a).r.Live() && Run(c, b).r.Live()
    requires Run(c, a).evicted == {} == Run(c, b).evicted
    requires Run(c, a).seen == Run(c, b).seen && Run(c, a).arrived == Run(c, b).arrived
    ensures Held(Run(c, a).r) == Held(Run(c, b).r)
  {
    hide Run, Held, ArrivedClosed;
    PeelingIsLeastClosure(c, a);
    PeelingIsLeastClosure(c, b);
  }

  /** A parity left in the buffer misses at least two of its members. */
  lemma BufferedParityMissesTwo(c: Config, acts: seq<Action>, row: bool, base: nat)
    requires c.Valid() && Run(c, acts).r.Live() && base in Run(c, acts).r.Pend(row)
    ensures TwoMissing(c, Run(c, acts).r, row, base, Run(c, acts).r.Pend(row)[base].count)
  {
    hide Run, WriterOk, NetOk, ArrivedOk, AcksOk, NoLoss, ReaderOk, Served, PendArrived, TwoMissing;
    RunOk(c, acts);
    assert QuietExcept(c, Run(c, acts).r, {});
  }

  // --- evictions ---

  /** Every parity of one dimension arrives when at most one of its members is missing. */
  ghost predicate Prompt(c: Config, acts: seq<Action>, row: bool)
    requires c.Valid()
  {
    acts != [] ==>
      var y, a := Run(c, acts[..|acts| - 1]), acts[|acts| - 1];
      Prompt(c, acts[..|acts| - 1], row) &&
      (a.RecvParity? && a.f.ParityFrame? && a.f.row == row && Enabled(c, y, a) ==>
         !TwoMissing(c, y.r, row, a.f.base, a.f.p.count))
  }

  /** No parity of that dimension was dropped. */
  ghost predicate Unevicted(y: Sys, row: bool) {
    forall k :: k in y.evicted ==> k.0 != row
  }

  /** A dimension whose parities are prompt never fills its pending buffer, whatever the other one does. */
  lemma {:induction false} PromptNeverEvicts(c: Config, acts: seq<Action>, row: bool)
    requires c.Valid() && Prompt(c, acts, row)
    ensures Unevicted(Run(c, acts), row)
  {
    if acts != [] {
      hide Inv, TwoMissing;
      var y, a := Run(c, acts[..|acts| - 1]), acts[|acts| - 1];
      PromptNeverEvicts(c, acts[..|acts| - 1], row);
      RunOk(c, acts[..|acts| - 1]);
      if a.RecvParity? && Enabled(c, y, a) && a.f.row == row {
        PromptParity(c, y, a.f, a.ramp);
      }
      hide Do, Run;
      EvictedStep(c, y, a, row);
    }
  }

  /** A parity that finds at most one member missing is not buffered, so it evicts nothing. */
  lemma PromptParity(c: Config, y: Sys, f: Frame, ramp: set<nat>)
    requires Inv(c, y) && Enabled(c, y, RecvParity(f, ramp)) && !TwoMissing(c, y.r, f.row, f.base, f.p.count)
    ensures Evicts(c, ramp, y.r, f.row, f.base, f.p) == {}
  {
    hide TryReconstruct, WriterOk, NetOk, ClosureOk, ArrivedOk, NoLoss, AcksOk, Core, FinOk, Genuine, AllHere, TwoMissing;
    NetHas(c, y, f);
    TryReconstructOk(c, ramp, y.s.sent, y.got, y.r, f.row, f.base, f.p);
  }

  /** Only an arriving parity evicts, and only in its own dimension. */
  lemma EvictedStep(c: Config, y: Sys, a: Action, row: bool)
    requires Unevicted(y, row)
    requires a.RecvParity? && Enabled(c, y, a) && a.f.row == row ==> Evicts(c, a.ramp, y.r, a.f.row, a.f.base, a.f.p) == {}
    ensures Unevicted(Step(c, y, a), row)
  {
    hide Deliver, ApplyFec, ReadSome, WriteChunk, HandleAck, TryReconstruct, From;
  }
}
