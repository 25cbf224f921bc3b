/** Every locked operation keeps the receive state exact and accepts every genuine frame. */
module Delivery {
  import opened Bytes
  import opened Geometry
  import opened Receiver
  import opened Exactness

  ghost predicate Good(c: Config, sent: seq<Bytes>, got: Bytes, r: RState) {
    Core(c, sent, got, r) && FinOk(sent, r)
  }

  /** Acknowledgement bookkeeping does not matter to exactness. */
  lemma GoodNoAck(c: Config, sent: seq<Bytes>, got: Bytes, r: RState, acks: seq<nat>, seen: nat)
    requires Good(c, sent, got, r) && (seen == 0 || seen < |sent|)
    ensures Good(c, sent, got, r.(ackPending := acks, maxSeen := seen))
  {
    hide AccOk, PendOk;
  }

  lemma AdmitInOrder(c: Config, ramp: set<nat>, sent: seq<Bytes>, got: Bytes, r: RState)
    requires Good(c, sent, got, r) && r.Live() && r.readSeq < |sent|
    ensures var sn := r.readSeq;
            var r1 := r.(maxSeen := Max(r.maxSeen, sn));
            Good(c, sent, got, r1) &&
            Admit(c, ramp, r, sn, sent[sn]) == Admitted(true, true, Advance(c, ramp, r1, sent[sn]))
  {
    hide AccsOk, PendOk, Advance, MakeRoom, BufOk;
    var r1 := r.(maxSeen := Max(r.maxSeen, r.readSeq));
    GoodSeen(c, sent, got, r);
    GoodNoAck(c, sent, got, r, r.ackPending, r1.maxSeen);
    Fits(c, sent, got, r1);
  }

  lemma AdmitAhead(c: Config, ramp: set<nat>, sent: seq<Bytes>, got: Bytes, r: RState, sn: nat)
    requires Good(c, sent, got, r) && r.Live() && r.readSeq < sn < |sent| && sn !in r.reorder
    ensures var r1 := r.(maxSeen := Max(r.maxSeen, sn));
            Good(c, sent, got, r1) &&
            Admit(c, ramp, r, sn, sent[sn]) == Admitted(true, true, Buffer(r1, sn, sent[sn]))
  {
    hide AccsOk, PendOk, Buffer, BufOk;
    var r1 := r.(maxSeen := Max(r.maxSeen, sn));
    GoodSeen(c, sent, got, r);
    GoodNoAck(c, sent, got, r, r.ackPending, r1.maxSeen);
    ReorderFits(c, sent, got, r1, sn);
  }

  /** Noting a sequence number as seen changes nothing else. */
  lemma SeenKeeps(r: RState, seen: nat)
    requires r.maxSeen <= seen
    ensures var r1 := r.(maxSeen := seen);
            Keeps(r, r1) && forall x: nat :: Has(r1, x) <==> Has(r, x)
  {
  }

  /** A frame that is not held yet is put in place, never refused. */
  lemma AdmitOk(c: Config, ramp: set<nat>, sent: seq<Bytes>, got: Bytes, r: RState, sn: nat)
    requires Good(c, sent, got, r) && r.Live() && sn < |sent|
    ensures var a := Admit(c, ramp, r, sn, sent[sn]);
            a.ack && Good(c, sent, got, a.r) && Keeps(r, a.r) && a.novel == !Has(r, sn) &&
            a.r.ackPending == r.ackPending && sn <= a.r.maxSeen &&
            forall x: nat :: Has(a.r, x) <==> Has(r, x) || x == sn
  {
    hide Core, Advance, Buffer, Keeps;
    var r1 := r.(maxSeen := Max(r.maxSeen, sn));
    SeenKeeps(r, r1.maxSeen);
    if sn == r.readSeq {
      HeadNotHeld(c, sent, got, r);
      AdmitInOrder(c, ramp, sent, got, r);
      hide Admit, Has;
      AdvanceOk(c, ramp, sent, got, r1);
      KeepsTrans(r, r1, Advance(c, ramp, r1, sent[sn]));
    } else if sn > r.readSeq && sn !in r.reorder {
      AdmitAhead(c, ramp, sent, got, r, sn);
      assert !Has(r, sn);
      hide Admit, Has;
      BufferOk(c, sent, got, r1, sn);
      KeepsTrans(r, r1, Buffer(r1, sn, sent[sn]));
    } else {
      GoodSeen(c, sent, got, r);
      GoodNoAck(c, sent, got, r, r.ackPending, r1.maxSeen);
    }
  }

  lemma HeadNotHeld(c: Config, sent: seq<Bytes>, got: Bytes, r: RState)
    requires Core(c, sent, got, r)
    ensures !Has(r, r.readSeq)
  {
    hide CorePre;
  }

  /** What one parity can do: nothing because all is here, wait for two, or yield the one missing frame. */
  datatype Case = Complete | Waits | Yields(m: nat)

  lemma AllPast(c: Config, r: RState, row: bool, base: nat, count: nat)
    requires c.group > 0 && count > 0 && r.readSeq > c.Member(row, base, count - 1)
    ensures AllHere(c, r, row, base, count)
  {
    forall i: nat | i < count ensures Has(r, c.Member(row, base, i)) {
      if i < count - 1 {
        MemberOrder(c, row, base, i, count - 1);
      }
    }
  }

  /** The scan of a genuine parity that is not past its last member. */
  lemma ScanGenuine(c: Config, sent: seq<Bytes>, got: Bytes, r: RState, row: bool, base: nat, p: Parity)
    requires Core(c, sent, got, r) && Genuine(c, sent, row, base, p)
    requires r.readSeq <= c.Member(row, base, p.count - 1)
    ensures base in r.Acc(row) ==> |r.Acc(row)[base].data| <= |p.data|
    ensures var s := Scan(c, r, row, base, p.count, 0, -1);
            !s.ScanUseless? &&
            (s.ScanPending? ==> TwoMissing(c, r, row, base, p.count)) &&
            (s.ScanDone? ==> -1 <= s.missing < p.count && AllBut(c, r, row, base, p.count, s.missing) &&
                             (s.missing >= 0 ==> !Has(r, c.Member(row, base, s.missing))))
  {
    hide GroupData, GroupLen, Scan, c.Member, BufOk;
    AccState(c, sent, r, row, base, p);
    GroupDataCovers(c, sent, row, base, p.count, Below(c, row, base, r.readSeq, c.group));
    ScanOk(c, r, row, base, p.count, 0, -1);
  }

  lemma TryCases(c: Config, ramp: set<nat>, sent: seq<Bytes>, got: Bytes, r: RState,
                 row: bool, base: nat, p: Parity) returns (k: Case)
    requires Good(c, sent, got, r) && Genuine(c, sent, row, base, p)
    ensures var t := TryReconstruct(c, ramp, r, row, base, p);
            match k
            case Complete => t == Tried(FecUseless, r) && AllHere(c, r, row, base, p.count)
            case Waits => t == Tried(FecPending, r) && TwoMissing(c, r, row, base, p.count)
            case Yields(m) =>
              m < p.count && r.Live() && AllBut(c, r, row, base, p.count, m) &&
              var sn := c.Member(row, base, m);
              sn < |sent| && !Has(r, sn) &&
              t == Tried(FecRecovered, Deliver(c, ramp, r, sn, sent[sn], false).r)
  {
    hide Deliver, GroupData, GroupLen, Solve, Scan, c.Member, CorePre;
    if r.readSeq > c.Member(row, base, p.count - 1) {
      AllPast(c, r, row, base, p.count);
      return Complete;
    }
    ScanGenuine(c, sent, got, r, row, base, p);
    var s := Scan(c, r, row, base, p.count, 0, -1);
    if s.ScanPending? {
      return Waits;
    }
    if s.missing < 0 {
      return Complete;
    }
    SolveOk(c, sent, got, r, row, base, p, s.missing);
    return Yields(s.missing);
  }

  lemma TryReconstructOk(c: Config, ramp: set<nat>, sent: seq<Bytes>, got: Bytes, r: RState,
                         row: bool, base: nat, p: Parity)
    requires Good(c, sent, got, r) && Genuine(c, sent, row, base, p)
    ensures var t := TryReconstruct(c, ramp, r, row, base, p);
            Good(c, sent, got, t.r) && Keeps(r, t.r) &&
            match t.outcome
            case FecPending => TwoMissing(c, r, row, base, p.count)
            case FecUseless => AllHere(c, r, row, base, p.count)
            case FecRecovered => AllHere(c, t.r, row, base, p.count)
    decreases r.NumPend(), 3
  {
    hide Good, TryReconstruct, Deliver, Genuine, c.Member;
    var k := TryCases(c, ramp, sent, got, r, row, base, p);
    if k.Yields? {
      DeliverOk(c, ramp, sent, got, r, c.Member(row, base, k.m));
    }
  }

  lemma DropPending(c: Config, sent: seq<Bytes>, got: Bytes, r: RState, row: bool, base: nat)
    requires Good(c, sent, got, r)
    ensures var r1 := r.WithPend(row, r.Pend(row) - {base}); Good(c, sent, got, r1) && Keeps(r, r1)
  {
    hide AccOk, Genuine;
  }

  /** A parity that must wait goes back where it was. */
  lemma ClaimOne(pend: map<nat, Parity>, base: nat)
    requires base in pend
    ensures |pend - {base}| == |pend| - 1 && (pend - {base})[base := pend[base]] == pend
  {
    assert (pend - {base}).Keys == pend.Keys - {base};
    assert |pend.Keys - {base}| == |pend.Keys| - 1;
  }

  lemma ClaimPending(r: RState, row: bool, base: nat)
    requires base in r.Pend(row)
    ensures var r1 := r.WithPend(row, r.Pend(row) - {base});
            && r1.NumPend() < r.NumPend() && r1.WithPend(row, r1.Pend(row)[base := r.Pend(row)[base]]) == r
  {
    ClaimOne(r.Pend(row), base);
  }

  lemma RetryUnfold(c: Config, ramp: set<nat>, r: RState, row: bool, base: nat)
    requires base in r.Pend(row)
    ensures var p := r.Pend(row)[base];
            var r1 := r.WithPend(row, r.Pend(row) - {base});
            var t := TryReconstruct(c, ramp, r1, row, base, p);
            r1.NumPend() < r.NumPend() &&
            RetryBase(c, ramp, r, row, base) == if t.outcome.FecPending? then r else t.r
  {
    hide TryReconstruct;
    ClaimPending(r, row, base);
  }

  lemma PendingIsGenuine(c: Config, sent: seq<Bytes>, got: Bytes, r: RState, row: bool, base: nat)
    requires Good(c, sent, got, r) && base in r.Pend(row)
    ensures Genuine(c, sent, row, base, r.Pend(row)[base])
  {
    hide Genuine, AccOk, BufOk;
  }

  lemma KeepsSame(r: RState)
    ensures Keeps(r, r)
  {
  }

  lemma RetryBaseOk(c: Config, ramp: set<nat>, sent: seq<Bytes>, got: Bytes, r: RState, row: bool, base: nat)
    requires Good(c, sent, got, r)
    ensures var r' := RetryBase(c, ramp, r, row, base); Good(c, sent, got, r') && Keeps(r, r')
    decreases r.NumPend(), 0
  {
    hide Good, Keeps;
    KeepsSame(r);
    if base in r.Pend(row) {
      hide TryReconstruct, RetryBase, Genuine, TwoMissing, AllHere;
      var p := r.Pend(row)[base];
      var r1 := r.WithPend(row, r.Pend(row) - {base});
      RetryUnfold(c, ramp, r, row, base);
      DropPending(c, sent, got, r, row, base);
      PendingIsGenuine(c, sent, got, r, row, base);
      TryReconstructOk(c, ramp, sent, got, r1, row, base, p);
      KeepsTrans(r, r1, TryReconstruct(c, ramp, r1, row, base, p).r);
    }
  }

  lemma RetrySeqOk(c: Config, ramp: set<nat>, sent: seq<Bytes>, got: Bytes, r: RState, sn: nat)
    requires Good(c, sent, got, r)
    ensures var r' := RetrySeq(c, ramp, r, sn); Good(c, sent, got, r') && Keeps(r, r')
    decreases r.NumPend(), 1
  {
    if c.group > 0 {
      hide Good, RetryBase;
      RetryBaseOk(c, ramp, sent, got, r, false, c.BaseOf(false, sn));
      var r1 := RetryBase(c, ramp, r, false, c.BaseOf(false, sn));
      if c.twoD {
        RetryBaseOk(c, ramp, sent, got, r1, true, c.BaseOf(true, sn));
        KeepsTrans(r, r1, RetryBase(c, ramp, r1, true, c.BaseOf(true, sn)));
      }
    }
  }

  lemma DeliverDataOk(c: Config, ramp: set<nat>, sent: seq<Bytes>, got: Bytes, r: RState, sn: nat)
    requires Good(c, sent, got, r) && r.Live() && sn < |sent|
    ensures var d := DeliverData(c, ramp, r, sn, sent[sn]);
            d.ack && Good(c, sent, got, d.r) && Keeps(r, d.r) && Has(d.r, sn)
    decreases r.NumPend(), 2, 0
  {
    hide Admit, RetrySeq, Good;
    AdmitOk(c, ramp, sent, got, r, sn);
    var a := Admit(c, ramp, r, sn, sent[sn]);
    if a.novel {
      RetrySeqOk(c, ramp, sent, got, a.r, sn);
      KeepsTrans(r, a.r, RetrySeq(c, ramp, a.r, sn));
    }
  }

  /** A genuine DATA frame is always accepted, and everything it completes is recovered exactly. */
  lemma DeliverOk(c: Config, ramp: set<nat>, sent: seq<Bytes>, got: Bytes, r: RState, sn: nat)
    requires Good(c, sent, got, r) && r.Live() && sn < |sent|
    ensures var d := Deliver(c, ramp, r, sn, sent[sn], false);
            d.ack && Good(c, sent, got, d.r) && Keeps(r, d.r) && Has(d.r, sn)
    decreases r.NumPend(), 2, 1
  {
    hide DeliverData, Good;
    DeliverDataOk(c, ramp, sent, got, r, sn);
    var d := DeliverData(c, ramp, r, sn, sent[sn]);
    GoodSeen(c, sent, got, d.r);
    GoodNoAck(c, sent, got, d.r, d.r.ackPending + [sn], d.r.maxSeen);
  }

  lemma GoodSeen(c: Config, sent: seq<Bytes>, got: Bytes, r: RState)
    requires Good(c, sent, got, r)
    ensures r.maxSeen == 0 || r.maxSeen < |sent|
  {
  }
}
