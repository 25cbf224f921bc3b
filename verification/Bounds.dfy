/**
 * What the receiver keeps within bounds, whatever arrives: the frames here are arbitrary,
 * sent by a conforming peer or not.
 */
module Bounds {
  import opened Bytes
  import opened Geometry
  import opened Receiver
  import opened Exactness
  import opened Delivery

  /** Accumulators are no longer than a chunk may be. */
  predicate Short(c: Config, accs: map<nat, Accum>) {
    forall b :: b in accs ==> |accs[b].data| <= c.DataCap()
  }

  /** No buffered frame is beyond the highest number seen; ring, reorder buffer and accumulators are within their bounds. */
  predicate Kept(c: Config, r: RState) {
    && (forall k :: k in r.reorder ==> k <= r.maxSeen)
    && 0 < r.cap && |r.ring| <= r.cap <= c.MaxBuf() && r.reorderBytes <= c.MaxBuf()
    && Short(c, r.colAcc) && Short(c, r.rowAcc)
  }

  /** And the ring is at most half full, or as large as it may get. */
  predicate Tidy(c: Config, r: RState) {
    Kept(c, r) && (2 * |r.ring| <= r.cap || r.cap == c.MaxBuf())
  }

  /** The ring's size is the same, or its content accounts for the growth. */
  predicate Grown(r: RState, t: RState) {
    t.cap == r.cap || t.cap <= 4 * |t.ring|
  }

  /** Nothing to be acknowledged is forgotten, and no parity is buffered that was not. */
  predicate Remembers(r: RState, t: RState) {
    && t.ackReplay == r.ackReplay && (forall x :: x in r.ackPending ==> x in t.ackPending)
    && t.colPend.Keys <= r.colPend.Keys && t.rowPend.Keys <= r.rowPend.Keys
  }

  predicate SameLists(r: RState, t: RState) {
    t.ackPending == r.ackPending && t.ackReplay == r.ackReplay && t.colPend == r.colPend && t.rowPend == r.rowPend
  }

  /** Nothing that is here is lost. */
  ghost predicate Gains(r: RState, t: RState) {
    forall x: nat :: Has(r, x) ==> Has(t, x)
  }

  /** What every delivery does, however much it sets off. */
  ghost predicate Fine(c: Config, ramp: set<nat>, r: RState, t: RState) {
    && Kept(c, t) && (Tidy(c, r) ==> Tidy(c, t)) && Remembers(r, t) && Gains(r, t)
    && |r.ring| <= |t.ring| && (ramp == {} ==> Grown(r, t))
  }

  lemma FineTrans(c: Config, ramp: set<nat>, r: RState, s: RState, t: RState)
    requires Fine(c, ramp, r, s) && Fine(c, ramp, s, t)
    ensures Fine(c, ramp, r, t)
  {
    hide Kept, Tidy, Has;
  }

  /** Only these parts matter. */
  lemma FineSame(c: Config, ramp: set<nat>, r: RState, s: RState, t: RState)
    requires Fine(c, ramp, r, s) && Remembers(r, t)
    requires t.reorder == s.reorder && t.reorderBytes == s.reorderBytes && t.maxSeen == s.maxSeen
    requires t.ring == s.ring && t.cap == s.cap && t.colAcc == s.colAcc && t.rowAcc == s.rowAcc && t.readSeq == s.readSeq
    ensures Fine(c, ramp, r, t)
  {
  }

  lemma FineSelf(c: Config, ramp: set<nat>, r: RState)
    requires Kept(c, r)
    ensures Fine(c, ramp, r, r)
  {
    hide Kept;
  }

  // --- room ---

  lemma {:induction false} DoubledBounds(cap: nat, want: nat)
    requires 0 < cap < want
    ensures want <= Doubled(cap, want) < 2 * want
    decreases want - cap
  {
    if 2 * cap < want {
      DoubledBounds(2 * cap, want);
    }
  }

  /**
   * Room is made exactly if the ceiling allows it; the ring then grows only if it must, to less than
   * twice of what it must hold, and the peer is granted exactly the growth.
   */
  lemma RoomIff(c: Config, r: RState, n: nat)
    requires 0 < r.cap <= c.MaxBuf()
    ensures var m := MakeRoom(c, r, n);
            && (m.ok <==> |r.ring| + n <= c.MaxBuf())
            && (m.ok ==> |r.ring| + n <= m.r.cap <= c.MaxBuf())
            && (m.r.cap == r.cap || (r.cap < |r.ring| + n && m.r.cap < 2 * (|r.ring| + n)))
            && m.r.peerOffset - r.peerOffset == m.r.cap - r.cap >= 0
  {
    hide Doubled;
    var want := |r.ring| + n;
    if r.cap < want {
      DoubledBounds(r.cap, want);
    }
  }

  lemma RoomKept(c: Config, r: RState, n: nat)
    requires Kept(c, r)
    ensures var m := MakeRoom(c, r, n);
            && Kept(c, m.r) && (m.ok ==> |r.ring| + n <= m.r.cap)
            && (m.r.cap == r.cap || m.r.cap <= 2 * (|r.ring| + n))
  {
    RoomIff(c, r, n);
    hide MakeRoom;
  }

  // --- one delivery and all it sets off ---

  lemma FoldShort(c: Config, accs: map<nat, Accum>, base: nat, idx: nat, data: Bytes)
    requires Short(c, accs) && |data| <= c.DataCap()
    ensures Short(c, FoldAcc(accs, base, idx, data))
  {
  }

  /** A frame that is too long for a parity group is not folded. */
  lemma FoldKept(c: Config, r: RState, sn: nat, data: Bytes)
    requires Short(c, r.colAcc) && Short(c, r.rowAcc)
    ensures var f := MaybeFold(c, r, sn, data); Short(c, f.colAcc) && Short(c, f.rowAcc)
  {
    hide FoldAcc;
    if c.group > 0 && |data| <= c.DataCap() {
      FoldShort(c, r.colAcc, c.BaseOf(false, sn), c.IdxOf(false, sn), data);
      FoldShort(c, r.rowAcc, c.BaseOf(true, sn), c.IdxOf(true, sn), data);
    }
  }

  /** The ring has grown within this call, if at all, for content it now has. */
  predicate Filling(cap: nat, r: RState) {
    r.cap == cap || r.cap <= 2 * |r.ring|
  }

  lemma TakenShort(c: Config, r: RState)
    requires r.readSeq in r.reorder && Short(c, r.colAcc) && Short(c, r.rowAcc)
    ensures var t := TakeBuffered(c, r); Short(c, t.colAcc) && Short(c, t.rowAcc)
  {
    hide MaybeFold, Short;
    var data := r.reorder[r.readSeq];
    FoldKept(c, r.(ring := r.ring + data, reorder := r.reorder - {r.readSeq}, reorderBytes := r.reorderBytes - |data|), r.readSeq, data);
  }

  lemma {:induction false} DrainKept(c: Config, r: RState, cap: nat)
    requires Kept(c, r) && Filling(cap, r)
    ensures var d := Drain(c, r); Kept(c, d) && Filling(cap, d) && SameLists(r, d) && |r.ring| <= |d.ring| && Gains(r, d)
    decreases |r.reorder|
  {
    if r.readSeq in r.reorder && MakeRoom(c, r, |r.reorder[r.readSeq]|).ok {
      hide MaybeFold, MakeRoom;
      var m := MakeRoom(c, r, |r.reorder[r.readSeq]|).r;
      RoomKept(c, r, |r.reorder[r.readSeq]|);
      var t := TakeBuffered(c, m);
      TakenShort(c, m);
      assert t.reorder.Keys == r.reorder.Keys - {r.readSeq};
      assert |t.reorder| == |r.reorder| - 1;
      DrainKept(c, t, cap);
    }
  }

  lemma GrowTidies(c: Config, ramp: set<nat>, r: RState, cap: nat)
    requires Kept(c, r) && Filling(cap, r)
    ensures var g := MaybeGrow(c, ramp, r);
            && Tidy(c, g) && SameLists(r, g) && g.ring == r.ring
            && (ramp == {} ==> g.cap == cap || g.cap <= 4 * |g.ring|)
  {
    hide Kept;
    GrowBounds(c, ramp, r);
    GrownKept(c, r, MaybeGrow(c, ramp, r));
  }

  lemma GrowBounds(c: Config, ramp: set<nat>, r: RState)
    requires Kept(c, r)
    ensures var g := MaybeGrow(c, ramp, r);
            && r.cap <= g.cap <= c.MaxBuf() && g == r.(cap := g.cap, peerOffset := g.peerOffset)
            && (2 * |r.ring| <= g.cap || g.cap == c.MaxBuf())
            && (ramp == {} && g.cap != r.cap ==> g.cap <= 4 * |r.ring|)
  {
  }

  lemma GrownKept(c: Config, r: RState, g: RState)
    requires Kept(c, r) && r.cap <= g.cap <= c.MaxBuf() && g == r.(cap := g.cap, peerOffset := g.peerOffset)
    ensures Kept(c, g)
  {
  }

  lemma AdvanceFine(c: Config, ramp: set<nat>, r: RState, payload: Bytes, cap: nat)
    requires Kept(c, r) && |r.ring| + |payload| <= r.cap && (r.cap == cap || r.cap <= 2 * (|r.ring| + |payload|))
    ensures var a := Advance(c, ramp, r, payload);
            && Tidy(c, a) && SameLists(r, a) && |r.ring| <= |a.ring| && Gains(r, a) && Has(a, r.readSeq)
            && (ramp == {} ==> a.cap == cap || a.cap <= 4 * |a.ring|)
  {
    hide MaybeFold, Drain, MaybeGrow, Short;
    FoldKept(c, r, r.readSeq, payload);
    var r1 := MaybeFold(c, r, r.readSeq, payload);
    var t := r1.(ring := r1.ring + payload, readSeq := r1.readSeq + 1);
    DrainKept(c, t, cap);
    GrowTidies(c, ramp, Drain(c, t), cap);
    hide Tidy, Kept;
    EofSame(c, MaybeGrow(c, ramp, Drain(c, t)));
    assert Gains(r, t) && Has(t, r.readSeq);
    hide Has;
    SameGains(Drain(c, t), Advance(c, ramp, r, payload));
  }

  lemma SameGains(r: RState, t: RState)
    requires t.readSeq == r.readSeq && t.reorder == r.reorder
    ensures Gains(r, t)
  {
  }

  lemma EofSame(c: Config, r: RState)
    ensures var e := MaybeEOF(r);
            && SameLists(r, e) && e.ring == r.ring && e.cap == r.cap && (Tidy(c, r) ==> Tidy(c, e))
            && e.readSeq == r.readSeq && e.reorder == r.reorder
  {
  }

  lemma SeenFine(c: Config, ramp: set<nat>, r: RState, sn: nat, payload: Bytes)
    requires Kept(c, r)
    ensures var r1 := r.(maxSeen := Max(r.maxSeen, sn));
            && Kept(c, r1) && Fine(c, ramp, r, r1)
            && (r1.reorderBytes + |payload| <= c.MaxBuf() ==> Fine(c, ramp, r, Buffer(r1, sn, payload)))
  {
  }

  lemma AdmitFine(c: Config, ramp: set<nat>, r: RState, sn: nat, payload: Bytes)
    requires Kept(c, r)
    ensures var a := Admit(c, ramp, r, sn, payload); Fine(c, ramp, r, a.r) && (a.ack ==> Has(a.r, sn))
  {
    hide Advance, MakeRoom, Kept, Tidy, Fine;
    SeenFine(c, ramp, r, sn, payload);
    if sn == r.readSeq {
      InOrderFine(c, ramp, r, sn, payload);
    }
  }

  lemma InOrderFine(c: Config, ramp: set<nat>, r: RState, sn: nat, payload: Bytes)
    requires Kept(c, r)
    ensures var m := MakeRoom(c, r.(maxSeen := Max(r.maxSeen, sn)), |payload|);
            m.ok ==> Fine(c, ramp, r, Advance(c, ramp, m.r, payload)) && Has(Advance(c, ramp, m.r, payload), r.readSeq)
  {
    hide Advance, MakeRoom;
    var r1 := r.(maxSeen := Max(r.maxSeen, sn));
    var m := MakeRoom(c, r1, |payload|);
    RoomKept(c, r1, |payload|);
    if m.ok {
      AdvanceFine(c, ramp, m.r, payload, r.cap);
      SameGains(r, m.r);
    }
    hide Kept, Has;
  }

  lemma TryFine(c: Config, ramp: set<nat>, r: RState, row: bool, base: nat, p: Parity)
    requires Kept(c, r)
    ensures Fine(c, ramp, r, TryReconstruct(c, ramp, r, row, base, p).r)
    decreases r.NumPend(), 3
  {
    hide Kept, Fine, Deliver, Scan, Rebuild;
    FineSelf(c, ramp, r);
    if r.readSeq > LastOf(c, row, base, p.count) || (base in r.Acc(row) && |r.Acc(row)[base].data| > |p.data|) {
    } else if Scan(c, r, row, base, p.count, 0, -1).ScanDone? && Scan(c, r, row, base, p.count, 0, -1).missing >= 0 {
      var m := Scan(c, r, row, base, p.count, 0, -1).missing;
      var b := Solve(c, r, row, base, p, m);
      if b.Rebuilt? && 0 < b.len <= |p.data| {
        DeliverFine(c, ramp, r, c.Member(row, base, m), b.buf[..b.len]);
      }
    }
  }

  /** A parity is claimed and, if it must wait, put back. */
  lemma ClaimFine(c: Config, ramp: set<nat>, r: RState, row: bool, base: nat)
    requires Kept(c, r)
    ensures var r1 := r.WithPend(row, r.Pend(row) - {base}); Kept(c, r1) && Fine(c, ramp, r, r1)
  {
  }

  lemma RetryFine(c: Config, ramp: set<nat>, r: RState, row: bool, base: nat)
    requires Kept(c, r)
    ensures Fine(c, ramp, r, RetryBase(c, ramp, r, row, base))
    decreases r.NumPend(), 0
  {
    hide Kept, Fine, TryReconstruct;
    FineSelf(c, ramp, r);
    if base in r.Pend(row) {
      hide RetryBase;
      RetryUnfold(c, ramp, r, row, base);
      var r1 := r.WithPend(row, r.Pend(row) - {base});
      ClaimFine(c, ramp, r, row, base);
      TryFine(c, ramp, r1, row, base, r.Pend(row)[base]);
      FineTrans(c, ramp, r, r1, TryReconstruct(c, ramp, r1, row, base, r.Pend(row)[base]).r);
    }
  }

  lemma FineKept(c: Config, ramp: set<nat>, r: RState, t: RState)
    requires Fine(c, ramp, r, t)
    ensures Kept(c, t)
  {
  }

  lemma RetrySeqFine(c: Config, ramp: set<nat>, r: RState, sn: nat)
    requires Kept(c, r)
    ensures Fine(c, ramp, r, RetrySeq(c, ramp, r, sn))
    decreases r.NumPend(), 1
  {
    hide Kept, Fine, RetryBase;
    FineSelf(c, ramp, r);
    if c.group > 0 {
      RetryFine(c, ramp, r, false, c.BaseOf(false, sn));
      if c.twoD {
        var r1 := RetryBase(c, ramp, r, false, c.BaseOf(false, sn));
        FineKept(c, ramp, r, r1);
        RetryFine(c, ramp, r1, true, c.BaseOf(true, sn));
        FineTrans(c, ramp, r, r1, RetryBase(c, ramp, r1, true, c.BaseOf(true, sn)));
      }
    }
  }

  lemma FineGains(c: Config, ramp: set<nat>, r: RState, t: RState)
    requires Fine(c, ramp, r, t)
    ensures Gains(r, t)
  {
  }

  lemma DataFine(c: Config, ramp: set<nat>, r: RState, sn: nat, payload: Bytes)
    requires Kept(c, r)
    ensures var d := DeliverData(c, ramp, r, sn, payload); Fine(c, ramp, r, d.r) && (d.ack ==> Has(d.r, sn))
    decreases r.NumPend(), 2, 0
  {
    hide Kept, Fine, Admit, RetrySeq, Has;
    AdmitFine(c, ramp, r, sn, payload);
    var a := Admit(c, ramp, r, sn, payload);
    if a.novel {
      FineKept(c, ramp, r, a.r);
      RetrySeqFine(c, ramp, a.r, sn);
      FineGains(c, ramp, a.r, RetrySeq(c, ramp, a.r, sn));
      FineTrans(c, ramp, r, a.r, RetrySeq(c, ramp, a.r, sn));
    }
  }

  /**
   * Any frame whatever: the ring stays within its ceiling, at most half full if it was, and grows only
   * for what it holds unless the ramp lets it; the reorder buffer stays within its limit.  Nothing held
   * is lost, and only a frame that is now held, or discarded for good, is acknowledged.
   */
  lemma DeliverFine(c: Config, ramp: set<nat>, r: RState, sn: nat, payload: Bytes)
    requires Kept(c, r)
    ensures var d := Deliver(c, ramp, r, sn, payload, false); Fine(c, ramp, r, d.r) && (d.ack ==> Has(d.r, sn))
    decreases r.NumPend(), 2, 1
  {
    hide Kept, Fine, DeliverData;
    if r.Live() {
      DataFine(c, ramp, r, sn, payload);
      var d := DeliverData(c, ramp, r, sn, payload).r;
      AckFine(c, ramp, r, d, sn);
    } else {
      EndedFine(c, ramp, r, sn, payload);
    }
  }

  lemma EndedFine(c: Config, ramp: set<nat>, r: RState, sn: nat, payload: Bytes)
    requires Kept(c, r)
    ensures Fine(c, ramp, r, Grant(r, |payload|).(readSeq := Max(r.readSeq, sn + 1)))
  {
    hide Short;
  }

  lemma AckFine(c: Config, ramp: set<nat>, r: RState, d: RState, sn: nat)
    requires Fine(c, ramp, r, d)
    ensures Fine(c, ramp, r, d.(ackPending := d.ackPending + [sn]))
  {
    hide Kept;
    FineSame(c, ramp, r, d, d.(ackPending := d.ackPending + [sn]));
  }

  /** A FIN, wherever it claims to be, ends a live reader exactly if it is next; ahead it is noted, behind it is ignored. */
  lemma FinEndsIff(c: Config, r: RState, sn: nat)
    requires r.Live()
    ensures var t := Deliver(c, {}, r, sn, [], true).r;
            && (t.readErr.EOF? <==> sn == r.readSeq) && t.ring == r.ring && t.readSeq == r.readSeq
            && (r.readSeq < sn ==> t.Live() && t.finRecvd && t.finSeq == sn) && (sn < r.readSeq ==> t == r)
  {
  }

  // --- buffered parities ---

  lemma StoreBounded(pend: map<nat, Parity>, base: nat, p: Parity)
    requires |pend| <= FEC_PENDING_CAP
    ensures |StoreParity(pend, base, p)| <= FEC_PENDING_CAP
  {
    var q := StoreParity(pend, base, p);
    if base !in pend && |pend| >= FEC_PENDING_CAP {
      var k := MinKey(pend.Keys);
      assert q.Keys == pend.Keys - {k} + {base};
      assert |pend.Keys - {k}| == |pend.Keys| - 1;
    } else {
      assert q.Keys == pend.Keys + {base};
      if base in pend {
        assert q.Keys == pend.Keys;
      }
    }
  }

  /** A full buffer gives up its oldest group, and no other, for a new one. */
  lemma EvictsOldest(pend: map<nat, Parity>, base: nat, p: Parity)
    ensures var q := StoreParity(pend, base, p);
            && base in q && q[base] == p && (forall b :: b in q && b != base ==> b in pend && q[b] == pend[b])
            && (forall b, k :: b in pend && b !in q && k in q && k != base ==> b < k)
            && ((exists b :: b in pend && b !in q) ==> base !in pend && |pend| >= 64)
            && (forall b, d :: b in pend && b !in q && d in pend && d !in q ==> b == d)
  {
  }

  lemma Smaller(a: set<nat>, b: set<nat>)
    requires a <= b
    ensures |a| <= |b|
  {
    if a != b {
      assert b == a + (b - a);
    }
  }

  /** Everything that peers and network can make the receiver store is bounded. */
  predicate Safe(c: Config, r: RState) {
    Kept(c, r) && |r.colPend| <= FEC_PENDING_CAP && |r.rowPend| <= FEC_PENDING_CAP
  }

  lemma FineSafe(c: Config, ramp: set<nat>, r: RState, t: RState)
    requires Safe(c, r) && Fine(c, ramp, r, t)
    ensures Safe(c, t)
  {
    hide Kept;
    Smaller(t.colPend.Keys, r.colPend.Keys);
    Smaller(t.rowPend.Keys, r.rowPend.Keys);
    assert |t.colPend| == |t.colPend.Keys| && |r.colPend| == |r.colPend.Keys|;
    assert |t.rowPend| == |t.rowPend.Keys| && |r.rowPend| == |r.rowPend.Keys|;
  }

  // --- whatever arrives ---

  /** What can happen to a receiver, frames with arbitrary content included. */
  datatype Event =
    | Data(sn: nat, payload: Bytes, ramp: set<nat>)
    | Fin(sn: nat)
    | Par(row: bool, base: nat, p: Parity, ramp: set<nat>)
    | Reset
    | Take(n: nat)
    | Flush
    | Cancel

  function Meet(c: Config, r: RState, e: Event): RState {
    match e
    case Data(sn, payload, ramp) => Deliver(c, ramp, r, sn, payload, false).r
    case Fin(sn) => Deliver(c, {}, r, sn, [], true).r
    case Par(row, base, p, ramp) => ApplyFec(c, ramp, r, row, base, p).r
    case Reset => DeliverReset(r)
    case Take(n) => if r.ring == [] then r else ReadSome(c, r, n)
    case Flush => AckSnapshot(r).r
    case Cancel => CancelRead(r)
  }

  function MeetAll(c: Config, es: seq<Event>): RState
    requires c.Valid()
  {
    if es == [] then Fresh(c) else Meet(c, MeetAll(c, es[..|es| - 1]), es[|es| - 1])
  }

  lemma StartSafe(c: Config)
    requires c.Valid()
    ensures Safe(c, Fresh(c))
  {
  }

  lemma ParitySafe(c: Config, ramp: set<nat>, r: RState, row: bool, base: nat, p: Parity)
    requires Safe(c, r)
    ensures Safe(c, ApplyFec(c, ramp, r, row, base, p).r)
  {
    hide Safe, Fine, TryReconstruct, StoreParity;
    SafeKept(c, r);
    TryFine(c, ramp, r, row, base, p);
    var t := TryReconstruct(c, ramp, r, row, base, p).r;
    FineSafe(c, ramp, r, t);
    StoredSafe(c, t, row, base, p);
  }

  lemma SafeKept(c: Config, r: RState)
    requires Safe(c, r)
    ensures Kept(c, r)
  {
  }

  lemma StoredSafe(c: Config, r: RState, row: bool, base: nat, p: Parity)
    requires Safe(c, r)
    ensures Safe(c, r.WithPend(row, StoreParity(r.Pend(row), base, p)))
  {
    hide StoreParity;
    StoreBounded(r.Pend(row), base, p);
  }

  lemma ReadSafe(c: Config, r: RState, n: nat)
    requires Safe(c, r)
    ensures Safe(c, ReadSome(c, r, n))
  {
    hide Drain, Withheld;
    var r1 := r.(ring := r.ring[Min(n, |r.ring|)..]);
    DrainKept(c, r1, r.cap);
  }

  lemma DiscardSafe(c: Config, r: RState)
    requires Safe(c, r)
    ensures Safe(c, Discard(r))
  {
  }

  lemma FinSafe(c: Config, r: RState, sn: nat)
    requires Safe(c, r)
    ensures Safe(c, Deliver(c, {}, r, sn, [], true).r)
  {
    hide Short;
  }

  lemma FailSafe(c: Config, r: RState, canceled: bool)
    requires Safe(c, r)
    ensures Safe(c, Fail(r, StreamReset).(canceled := canceled)) && Safe(c, Fail(r, StreamReset))
  {
    hide Short;
  }

  lemma FlushSafe(c: Config, r: RState)
    requires Safe(c, r)
    ensures Safe(c, AckSnapshot(r).r)
  {
    hide Short, From;
  }

  lemma DropSafe(c: Config, r: RState)
    requires Safe(c, r)
    ensures Safe(c, DeliverReset(r)) && Safe(c, CancelRead(r))
  {
    hide Safe, Discard;
    FailSafe(c, r, true);
    DiscardSafe(c, Fail(r, StreamReset));
    DiscardSafe(c, Fail(r, StreamReset).(canceled := true));
  }

  lemma MeetSafe(c: Config, r: RState, e: Event)
    requires Safe(c, r)
    ensures Safe(c, Meet(c, r, e))
  {
    hide Safe, Deliver, ApplyFec, ReadSome;
    match e
    case Data(sn, payload, ramp) =>
      SafeKept(c, r);
      DeliverFine(c, ramp, r, sn, payload);
      hide Fine;
      FineSafe(c, ramp, r, Deliver(c, ramp, r, sn, payload, false).r);
    case Par(row, base, p, ramp) => ParitySafe(c, ramp, r, row, base, p);
    case Fin(sn) => FinSafe(c, r, sn);
    case Take(n) => ReadSafe(c, r, n);
    case Flush => FlushSafe(c, r);
    case _ => DropSafe(c, r);
  }

  /**
   * Whatever arrives, in whatever order and from whomever: ring and reorder buffer never hold more than
   * the configured maximum each, and no more than 64 parities wait in either dimension.
   */
  lemma {:induction false} MemoryBounded(c: Config, es: seq<Event>)
    requires c.Valid()
    ensures var r := MeetAll(c, es);
            && |r.ring| <= r.cap <= c.MaxBuf() && r.reorderBytes <= c.MaxBuf()
            && |r.colPend| <= 64 && |r.rowPend| <= 64
            && (forall b :: b in r.colAcc ==> |r.colAcc[b].data| <= c.DataCap())
            && (forall b :: b in r.rowAcc ==> |r.rowAcc[b].data| <= c.DataCap())
    ensures Safe(c, MeetAll(c, es))
  {
    hide Meet;
    if es == [] {
      StartSafe(c);
    } else {
      MemoryBounded(c, es[..|es| - 1]);
      MeetSafe(c, MeetAll(c, es[..|es| - 1]), es[|es| - 1]);
    }
  }
}
