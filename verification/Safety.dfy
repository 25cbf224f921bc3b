/** Every action of every run keeps the system invariant. */
module Safety {
  import opened Bytes
  import opened Geometry
  import opened Receiver
  import opened Exactness
  import opened Delivery
  import opened Peeling
  import opened Wire
  import opened Sender
  import opened System

  // --- how the receiver may evolve ---

  ghost predicate Evolves(r: RState, t: RState) {
    && r.peerOffset <= t.peerOffset
    && r.readSeq <= t.readSeq
    && (Dropped(r) ==> Dropped(t))
    && (!Dropped(t) ==>
          && (forall x: nat :: Has(r, x) ==> Has(t, x))
          && (r.finRecvd ==> t.finRecvd && t.finSeq == r.finSeq))
  }

  /** Frames in flight stay valid, and no frame gets lost, while the receiver evolves. */
  lemma EvolvesKeeps(c: Config, s: SState, r: RState, t: RState, net: set<Frame>)
    requires Evolves(r, t) && NetOk(c, s, r, net) && NoLoss(s, r)
    ensures NetOk(c, s, t, net) && NoLoss(s, t)
  {
    hide Has, OnWire;
    forall f | f in net ensures FrameOk(c, s, t, f) {
      assert FrameOk(c, s, r, f);
    }
  }

  lemma KeepsEvolves(r: RState, t: RState)
    requires KeepsBuf(r, t) && !Dropped(r) && !Dropped(t)
    ensures Evolves(r, t)
  {
  }

  /** A receiver that stayed exact, whether or not it just reached the end. */
  lemma ReaderFromGood(c: Config, s: SState, r: RState, got: Bytes)
    requires Good(c, s.sent, got, r) && Balanced(r, got) && (r.finRecvd ==> s.fin && !s.failed)
    requires 2 * c.maxPayload <= r.cap
    ensures PositionOk(s, r)
    ensures ReaderOk(c, s, r, got)
  {
    hide AccsOk, PendOk;
    if r.readErr.EOF? {
      assert s.sent[..|s.sent|] == s.sent;
      assert r.reorder.Keys == {};
    }
  }

  lemma BalancedKeeps(r: RState, t: RState, got: Bytes)
    requires Balanced(r, got) && KeepsBuf(r, t)
    ensures Balanced(t, got)
  {
  }

  lemma AcksKeep(r: RState, t: RState)
    requires AcksOk(r) && KeepsBuf(r, t) && !Dropped(r)
    ensures AcksOk(t)
  {
    hide Has;
  }

  /** The parts of the invariant that a receiver operation on a live stream must re-establish. */
  lemma LiveStepOk(c: Config, y: Sys, t: RState)
    requires Inv(c, y) && y.r.Live() && Good(c, y.s.sent, y.got, t) && KeepsBuf(y.r, t)
    ensures y.s.maxOffset <= t.peerOffset && ReaderOk(c, y.s, t, y.got) && NetOk(c, y.s, t, y.net) &&
            AcksOk(t) && NoLoss(y.s, t) && PositionOk(y.s, t)
  {
    hide CorePre, NetOk, NoLoss, ClosureOk, WriterOk, Has, AcksOk;
    CoreHasBuf(c, y.s.sent, y.got, t);
    assert !Dropped(y.r) && !Dropped(t);
    KeepsEvolves(y.r, t);
    EvolvesKeeps(c, y.s, y.r, t, y.net);
    BalancedKeeps(y.r, t, y.got);
    ReaderFromGood(c, y.s, t, y.got);
    AcksKeep(y.r, t);
  }

  lemma DeliverEnded(c: Config, ramp: set<nat>, r: RState, sn: nat, payload: Bytes, isFin: bool)
    requires !r.Live()
    ensures Deliver(c, ramp, r, sn, payload, isFin) ==
            Delivered(true, r.(readSeq := Max(r.readSeq, sn + 1), peerOffset := r.peerOffset + |payload|))
  {
  }

  /** A frame for a read side that has ended is discarded; only readSeq and credit move. */
  lemma EndedStepOk(c: Config, y: Sys, ramp: set<nat>, sn: nat, payload: Bytes, isFin: bool)
    requires Inv(c, y) && !y.r.Live() && !y.r.readErr.StreamClosed?
    requires sn < |y.s.sent| + (if y.s.fin then 1 else 0)
    ensures Inv(c, y.(r := Deliver(c, ramp, y.r, sn, payload, isFin).r))
  {
    hide Core, NetOk, NoLoss, WriterOk, Flatten, FinOk, Balanced, Deliver, ArrivedOk;
    DeliverEnded(c, ramp, y.r, sn, payload, isFin);
    var t := Deliver(c, ramp, y.r, sn, payload, isFin).r;
    assert Evolves(y.r, t);
    EvolvesKeeps(c, y.s, y.r, t, y.net);
  }

  // --- the closure through one receive step ---

  lemma PendClosedFrom(c: Config, r: RState, arrived: map<Key, nat>, C: set<nat>)
    requires PendArrived(r, arrived) && ArrivedClosed(c, C, arrived)
    ensures PendClosed(c, C, r)
  {
    hide Closed;
  }

  lemma ServedKeeps(c: Config, y: Sys, t: RState)
    requires Served(c, y) && PendArrived(y.r, y.arrived) && LeavesDone(c, y.r, t) && Keeps(y.r, t)
    ensures Served(c, y.(r := t)) && PendArrived(t, y.arrived)
  {
    hide AllHere;
    forall k | k in y.arrived && k !in y.evicted
      ensures k.1 in t.Pend(k.0) || AllHere(c, t, k.0, k.1, y.arrived[k])
    {
      if k.1 !in y.r.Pend(k.0) {
        AllHereGrows(c, y.r, t, k.0, k.1, y.arrived[k]);
      }
    }
  }

  lemma DataClosure(c: Config, y: Sys, ramp: set<nat>, sn: nat)
    requires Inv(c, y) && y.r.Live() && sn < |y.s.sent|
    ensures ClosureOk(c, y.(r := Deliver(c, ramp, y.r, sn, y.s.sent[sn], false).r, seen := y.seen + {sn}))
  {
    hide Core, FinOk, NetOk, NoLoss, WriterOk, Deliver, QuietExcept, Within, Served, PendArrived, ArrivedClosed,
         LeavesDone, PendClosed, AcksOk, ArrivedOk, Has;
    var sent, t := y.s.sent, Deliver(c, ramp, y.r, sn, y.s.sent[sn], false).r;
    DeliverOk(c, ramp, sent, y.got, y.r, sn);
    DeliverPeels(c, ramp, sent, y.got, y.r, sn, {}, {});
    ServedKeeps(c, y, t);
    var z := y.(r := t, seen := y.seen + {sn});
    assert Served(c, z) by {
      ServedSame(c, y.(r := t), z);
    }
    forall C | z.seen <= C && ArrivedClosed(c, C, y.arrived) ensures Within(t, C) {
      assert y.seen <= C;
      PendClosedFrom(c, y.r, y.arrived, C);
      DeliverPeels(c, ramp, sent, y.got, y.r, sn, {}, C);
      assert sn in z.seen;
    }
  }

  lemma ServedSame(c: Config, y: Sys, z: Sys)
    requires Served(c, y) && z.arrived == y.arrived && z.evicted == y.evicted
    requires z.r.readSeq == y.r.readSeq && z.r.reorder == y.r.reorder
    requires z.r.colPend == y.r.colPend && z.r.rowPend == y.r.rowPend
    ensures Served(c, z)
  {
    forall k | k in z.arrived && k !in z.evicted
      ensures k.1 in z.r.Pend(k.0) || AllHere(c, z.r, k.0, k.1, z.arrived[k])
    {
      if k.1 !in y.r.Pend(k.0) {
        hide c.Member;
        assert AllHere(c, y.r, k.0, k.1, y.arrived[k]);
      }
    }
  }

  lemma QuietSame(c: Config, r: RState, t: RState, X: set<Key>)
    requires QuietExcept(c, r, X)
    requires t.readSeq == r.readSeq && t.reorder == r.reorder && t.colPend == r.colPend && t.rowPend == r.rowPend
    ensures QuietExcept(c, t, X)
  {
    hide TwoMissing;
    forall b | b in t.colPend && (false, b) !in X ensures TwoMissing(c, t, false, b, t.colPend[b].count) {
      SameHas(c, r, t, false, b, t.colPend[b].count);
    }
    forall b | b in t.rowPend && (true, b) !in X ensures TwoMissing(c, t, true, b, t.rowPend[b].count) {
      SameHas(c, r, t, true, b, t.rowPend[b].count);
    }
  }

  /** Operations that neither gain frames nor touch buffered parities leave the closure alone. */
  lemma ClosureSame(c: Config, y: Sys, z: Sys)
    requires ClosureOk(c, y) && (z.r.Live() ==> y.r.Live())
    requires z.seen == y.seen && z.arrived == y.arrived && z.evicted == y.evicted
    requires z.r.Live() ==> z.r.readSeq == y.r.readSeq && z.r.reorder == y.r.reorder &&
                            z.r.colPend == y.r.colPend && z.r.rowPend == y.r.rowPend
    ensures ClosureOk(c, z)
  {
    if z.r.Live() {
      hide Served, QuietExcept, ArrivedClosed;
      QuietSame(c, y.r, z.r, {});
      ServedSame(c, y, z);
    }
  }

  // --- receiving ---

  lemma RecvDataOk(c: Config, y: Sys, f: Frame, ramp: set<nat>)
    requires Inv(c, y) && Enabled(c, y, RecvData(f, ramp))
    ensures Inv(c, Do(c, y, RecvData(f, ramp)))
    ensures y.r.Live() ==> Deliver(c, ramp, y.r, f.sn, f.payload, false).ack
  {
    hide Deliver, ClosureOk, NetOk, NoLoss, AcksOk, WriterOk, ArrivedOk, Core, Evolves;
    assert FrameOk(c, y.s, y.r, f) by {
      NetHas(c, y, f);
    }
    if y.r.Live() {
      var t := Deliver(c, ramp, y.r, f.sn, f.payload, false).r;
      DeliverOk(c, ramp, y.s.sent, y.got, y.r, f.sn);
      LiveStepOk(c, y, t);
      DataClosure(c, y, ramp, f.sn);
    } else {
      EndedStepOk(c, y, ramp, f.sn, f.payload, false);
      assert Do(c, y, RecvData(f, ramp)) == y.(r := Deliver(c, ramp, y.r, f.sn, f.payload, false).r);
    }
  }

  lemma NetHas(c: Config, y: Sys, f: Frame)
    requires Inv(c, y) && f in y.net
    ensures FrameOk(c, y.s, y.r, f)
  {
  }

  /** Buffering a parity keeps the receiver exact; only the parity buffer changes. */
  lemma StoreOk(c: Config, sent: seq<Bytes>, got: Bytes, r: RState, row: bool, base: nat, p: Parity)
    requires Good(c, sent, got, r) && Genuine(c, sent, row, base, p)
    ensures Good(c, sent, got, Stored(r, row, base, p)) && KeepsBuf(r, Stored(r, row, base, p))
  {
    hide AccOk, Genuine, MinKey;
  }

  /** The parity buffer after a store: the new entry, and everything but the evicted one. */
  lemma StoreEntries(pend: map<nat, Parity>, base: nat, p: Parity)
    ensures var q := StoreParity(pend, base, p);
            base in q && q[base] == p &&
            (forall b :: b in q && b != base ==> b in pend && q[b] == pend[b]) &&
            (forall b :: b in pend && b !in q ==>
               base !in pend && |pend| >= FEC_PENDING_CAP && b == MinKey(pend.Keys))
  {
  }

  function Stored(r: RState, row: bool, base: nat, p: Parity): RState {
    r.WithPend(row, StoreParity(r.Pend(row), base, p))
  }

  lemma StoredQuiet(c: Config, r: RState, row: bool, base: nat, p: Parity)
    requires QuietExcept(c, r, {}) && TwoMissing(c, r, row, base, p.count)
    ensures QuietExcept(c, Stored(r, row, base, p), {})
  {
    hide StoreParity, TwoMissing, MinKey;
    var t := Stored(r, row, base, p);
    StoreEntries(r.Pend(row), base, p);
    forall b | b in t.colPend ensures TwoMissing(c, t, false, b, t.colPend[b].count) {
      SameHas(c, r, t, false, b, t.colPend[b].count);
    }
    forall b | b in t.rowPend ensures TwoMissing(c, t, true, b, t.rowPend[b].count) {
      SameHas(c, r, t, true, b, t.rowPend[b].count);
    }
  }

  lemma StoredArrived(r: RState, arrived: map<Key, nat>, row: bool, base: nat, p: Parity)
    requires PendArrived(r, arrived) && ((row, base) in arrived ==> arrived[(row, base)] == p.count)
    ensures PendArrived(Stored(r, row, base, p), arrived[(row, base) := p.count])
  {
    hide StoreParity, MinKey;
    StoreEntries(r.Pend(row), base, p);
  }

  lemma StoredServed(c: Config, y: Sys, ramp: set<nat>, row: bool, base: nat, p: Parity)
    requires Served(c, y) && TryReconstruct(c, ramp, y.r, row, base, p).outcome.FecPending?
    ensures Served(c, y.(r := Stored(y.r, row, base, p), arrived := y.arrived[(row, base) := p.count],
                         evicted := y.evicted - {(row, base)} + Evicts(c, ramp, y.r, row, base, p)))
  {
    hide TryReconstruct, StoreParity, AllHere, MinKey;
    var r, t := y.r, Stored(y.r, row, base, p);
    var gone := Evicts(c, ramp, r, row, base, p);
    StoreEntries(r.Pend(row), base, p);
    var arrived := y.arrived[(row, base) := p.count];
    forall k | k in arrived && k !in y.evicted - {(row, base)} + gone
      ensures k.1 in t.Pend(k.0) || AllHere(c, t, k.0, k.1, arrived[k])
    {
      if k != (row, base) && k.1 !in r.Pend(k.0) {
        AllHereSame(c, r, t, k.0, k.1, y.arrived[k]);
      }
    }
  }

  lemma WaitClosure(c: Config, y: Sys, ramp: set<nat>, row: bool, base: nat, p: Parity)
    requires ClosureOk(c, y) && y.r.Live()
    requires TryReconstruct(c, ramp, y.r, row, base, p).outcome.FecPending?
    requires TwoMissing(c, y.r, row, base, p.count)
    requires (row, base) in y.arrived ==> y.arrived[(row, base)] == p.count
    ensures ClosureOk(c, y.(r := Stored(y.r, row, base, p),
                            arrived := y.arrived[(row, base) := p.count],
                            evicted := y.evicted - {(row, base)} + Evicts(c, ramp, y.r, row, base, p)))
  {
    hide TryReconstruct, StoreParity, TwoMissing, Evicts, ArrivedClosed, QuietExcept, Served, PendArrived;
    StoredQuiet(c, y.r, row, base, p);
    StoredArrived(y.r, y.arrived, row, base, p);
    StoredServed(c, y, ramp, row, base, p);
    var t, arrived := Stored(y.r, row, base, p), y.arrived[(row, base) := p.count];
    forall C | y.seen <= C && ArrivedClosed(c, C, arrived) ensures Within(t, C) {
      FewerArrived(c, C, y.arrived, (row, base), p.count);
      assert Within(y.r, C);
    }
  }

  lemma AllHereSame(c: Config, r: RState, t: RState, row: bool, b: nat, count: nat)
    requires r.readSeq == t.readSeq && r.reorder == t.reorder && AllHere(c, r, row, b, count)
    ensures AllHere(c, t, row, b, count)
  {
    hide c.Member;
  }

  lemma FewerArrived(c: Config, C: set<nat>, arrived: map<Key, nat>, k: Key, count: nat)
    requires ArrivedClosed(c, C, arrived[k := count]) && (k in arrived ==> arrived[k] == count)
    ensures ArrivedClosed(c, C, arrived) && Closed(c, C, k.0, k.1, count)
  {
    hide Closed;
    assert arrived[k := count][k] == count;
  }

  lemma TryClosure(c: Config, y: Sys, ramp: set<nat>, row: bool, base: nat, p: Parity)
    requires Inv(c, y) && y.r.Live() && Genuine(c, y.s.sent, row, base, p)
    requires !TryReconstruct(c, ramp, y.r, row, base, p).outcome.FecPending?
    requires (row, base) in y.arrived ==> y.arrived[(row, base)] == p.count
    ensures ClosureOk(c, y.(r := TryReconstruct(c, ramp, y.r, row, base, p).r,
                            arrived := y.arrived[(row, base) := p.count],
                            evicted := y.evicted - {(row, base)}))
  {
    hide Core, FinOk, NetOk, NoLoss, WriterOk, TryReconstruct, QuietExcept, Within, ArrivedClosed, LeavesDone,
         PendClosed, AcksOk, ArrivedOk, AllHere, Genuine, Closed;
    var r, t := y.r, TryReconstruct(c, ramp, y.r, row, base, p);
    TryReconstructOk(c, ramp, y.s.sent, y.got, r, row, base, p);
    TryPeels(c, ramp, y.s.sent, y.got, r, row, base, p, {}, {});
    ServedKeeps(c, y, t.r);
    var z := y.(r := t.r, arrived := y.arrived[(row, base) := p.count], evicted := y.evicted - {(row, base)});
    assert AllHere(c, t.r, row, base, p.count);
    forall C | z.seen <= C && ArrivedClosed(c, C, z.arrived) ensures Within(t.r, C) {
      FewerArrived(c, C, y.arrived, (row, base), p.count);
      PendClosedFrom(c, r, y.arrived, C);
      TryPeels(c, ramp, y.s.sent, y.got, r, row, base, p, {}, C);
    }
    hide Has;
  }

  /** Which state a parity leaves behind. */
  lemma RecvParityCases(c: Config, y: Sys, f: Frame, ramp: set<nat>)
    requires Enabled(c, y, RecvParity(f, ramp))
    ensures var t := TryReconstruct(c, ramp, y.r, f.row, f.base, f.p);
            var arrived := y.arrived[(f.row, f.base) := f.p.count];
            var z := Do(c, y, RecvParity(f, ramp));
            (t.outcome.FecPending? ==>
               z == y.(r := Stored(y.r, f.row, f.base, f.p), arrived := arrived,
                       evicted := y.evicted - {(f.row, f.base)} + Evicts(c, ramp, y.r, f.row, f.base, f.p))) &&
            (!t.outcome.FecPending? ==>
               z == y.(r := t.r, arrived := arrived, evicted := y.evicted - {(f.row, f.base)}))
  {
    hide TryReconstruct, StoreParity, MinKey;
  }

  lemma ArrivedMore(c: Config, s: SState, arrived: map<Key, nat>, row: bool, base: nat, p: Parity)
    requires ArrivedOk(c, s, arrived) && OnWire(c, s, row, base, p)
    ensures ArrivedOk(c, s, arrived[(row, base) := p.count])
    ensures (row, base) in arrived ==> arrived[(row, base)] == p.count
  {
    hide GroupCount, GroupData, GroupLen, c.Member;
    if (row, base) in arrived {
      OneCountPerGroup(c, s, row, base, arrived[(row, base)], p.count);
    }
  }

  lemma RecvParityOk(c: Config, y: Sys, f: Frame, ramp: set<nat>)
    requires Inv(c, y) && Enabled(c, y, RecvParity(f, ramp))
    ensures Inv(c, Do(c, y, RecvParity(f, ramp)))
  {
    hide Do, TryReconstruct, ClosureOk, NetOk, NoLoss, AcksOk, WriterOk, Core, FinOk, Stored, Genuine, Evicts,
         GroupCount, Keeps, AllHere, TwoMissing, ArrivedOk;
    NetHas(c, y, f);
    RecvParityCases(c, y, f, ramp);
    ArrivedMore(c, y.s, y.arrived, f.row, f.base, f.p);
    TryReconstructOk(c, ramp, y.s.sent, y.got, y.r, f.row, f.base, f.p);
    var t := TryReconstruct(c, ramp, y.r, f.row, f.base, f.p);
    if t.outcome.FecPending? {
      StoreOk(c, y.s.sent, y.got, y.r, f.row, f.base, f.p);
      LiveStepOk(c, y, Stored(y.r, f.row, f.base, f.p));
      WaitClosure(c, y, ramp, f.row, f.base, f.p);
    } else {
      KeepsHasBuf(y.r, t.r);
      LiveStepOk(c, y, t.r);
      TryClosure(c, y, ramp, f.row, f.base, f.p);
    }
  }

  lemma KeepsHasBuf(r: RState, t: RState)
    requires Keeps(r, t)
    ensures KeepsBuf(r, t)
  {
  }

  lemma FinIs(c: Config, r: RState, sn: nat)
    requires r.Live() && r.readSeq <= sn
    ensures Deliver(c, {}, r, sn, [], true).r == MaybeEOF(r.(finRecvd := true, finSeq := sn))
  {
  }

  lemma FinLive(c: Config, sent: seq<Bytes>, got: Bytes, r: RState)
    requires Good(c, sent, got, r) && r.Live()
    ensures var t := Deliver(c, {}, r, |sent|, [], true).r;
            Good(c, sent, got, t) && Evolves(r, t) && t == r.(finRecvd := true, finSeq := |sent|, readErr := t.readErr)
  {
    hide AccOk, PendOk, Deliver, Flatten, SumIn;
    FinIs(c, r, |sent|);
  }

  lemma RecvFinOk(c: Config, y: Sys, f: Frame)
    requires Inv(c, y) && Enabled(c, y, RecvFin(f))
    ensures Inv(c, Do(c, y, RecvFin(f)))
  {
    hide Deliver, ClosureOk, NetOk, NoLoss, WriterOk, ArrivedOk, Core, Evolves;
    NetHas(c, y, f);
    if y.r.Live() {
      var t := Deliver(c, {}, y.r, f.sn, [], true).r;
      FinLive(c, y.s.sent, y.got, y.r);
      FinEvolves(y.r, t);
      EvolvesKeeps(c, y.s, y.r, t, y.net);
      ReaderFromGood(c, y.s, t, y.got);
      ClosureSame(c, y, y.(r := t));
    } else {
      EndedStepOk(c, y, {}, f.sn, [], true);
    }
  }

  lemma FinEvolves(r: RState, t: RState)
    requires Evolves(r, t)
    ensures r.peerOffset <= t.peerOffset
  {
  }

  lemma DropOk(c: Config, y: Sys, t: RState)
    requires Inv(c, y) && Dropped(t) && t.ring == [] && t.reorder == map[] && !t.Live()
    requires t.peerOffset == y.r.peerOffset && t.readSeq == y.r.readSeq
    ensures Inv(c, y.(r := t))
  {
    hide WriterOk, ArrivedOk, OnWire, Core;
    assert y.got <= Flatten(y.s.sent) by {
      GotIsPrefix(c, y);
    }
    assert Evolves(y.r, t);
    EvolvesKeeps(c, y.s, y.r, t, y.net);
  }

  /** In every invariant state, what the application got is a prefix of what was written. */
  lemma GotIsPrefix(c: Config, y: Sys)
    requires Inv(c, y)
    ensures y.got <= Flatten(y.s.sent)
  {
    hide WriterOk, ArrivedOk, NetOk, ClosureOk, AccsOk, PendOk, NoLoss, AcksOk;
    if !Dropped(y.r) {
      if y.r.readErr.EOF? {
        assert (y.got + y.r.ring)[..|y.got|] == y.got;
      } else {
        FlattenPrefix(y.s.sent, y.r.readSeq);
        assert (y.got + y.r.ring)[..|y.got|] == y.got;
      }
    }
  }

  lemma RecvResetOk(c: Config, y: Sys, f: Frame)
    requires Inv(c, y) && Enabled(c, y, RecvReset(f))
    ensures Inv(c, Do(c, y, RecvReset(f)))
  {
    hide WriterOk, ArrivedOk, ClosureOk, NoLoss, AcksOk, Core;
    NetHas(c, y, f);
    if y.r.readErr.EOF? && !y.r.canceled {
      assert false;
    }
    DropOk(c, y, DeliverReset(y.r));
    hide Inv;
    AddFrames(c, y.(r := DeliverReset(y.r)), {AckFrame(0, [f.sn])});
  }

  /** Sending frames that say something true changes nothing else. */
  lemma AddFrames(c: Config, y: Sys, frames: set<Frame>)
    requires Inv(c, y) && forall f :: f in frames ==> FrameOk(c, y.s, y.r, f)
    ensures Inv(c, y.(net := y.net + frames))
  {
    hide WriterOk, ArrivedOk, ClosureOk, ReaderOk, NoLoss, AcksOk, FrameOk;
    ClosureSame(c, y, y.(net := y.net + frames));
  }

  lemma CancelOk(c: Config, y: Sys)
    requires Inv(c, y)
    ensures Inv(c, Do(c, y, CancelReading))
  {
    hide WriterOk, ArrivedOk, ClosureOk, NoLoss, AcksOk, Core;
    if !y.r.canceled {
      DropOk(c, y, CancelRead(y.r));
    }
    AddFrames(c, y.(r := CancelRead(y.r)), {StopFrame});
  }

  lemma CloseConnectionOk(c: Config, y: Sys)
    requires Inv(c, y)
    ensures Inv(c, Do(c, y, CloseConnection))
  {
    hide WriterOk, ArrivedOk, AccOk, PendOk, OnWire;
    var t := Fail(y.r, StreamClosed);
    assert Evolves(y.r, t);
    EvolvesKeeps(c, y.s, y.r, t, y.net);
  }

  lemma TakeOk(c: Config, sent: seq<Bytes>, got: Bytes, r: RState, k: nat)
    requires Core(c, sent, got, r) && k <= |r.ring|
    ensures var r1 := r.(ring := r.ring[k..]); Core(c, sent, got + r.ring[..k], r1) && Drain(c, r1) == r1
  {
    hide AccOk, PendOk;
    assert got + r.ring == (got + r.ring[..k]) + r.ring[k..];
  }

  lemma CreditFree(c: Config, sent: seq<Bytes>, got: Bytes, r: RState, pending: nat, offset: nat)
    requires Core(c, sent, got, r)
    ensures Core(c, sent, got, r.(grantPending := pending, peerOffset := offset))
  {
    hide AccOk, PendOk;
  }

  lemma GrantBackOk(r: RState, got: Bytes, k: nat) returns (pending: nat, offset: nat)
    requires r.peerOffset + r.grantPending + k == r.cap + |got| && 4 <= r.cap
    ensures GrantBack(r, k) == r.(grantPending := pending, peerOffset := offset)
    ensures r.peerOffset <= offset && offset + pending == r.cap + |got| && 4 * pending + 4 <= r.cap
  {
    hide Withheld;
    pending := Withheld(r.grantPending + k, r.cap);
    offset := r.peerOffset + r.grantPending + k - pending;
  }

  /** Reading takes the next bytes, drains nothing new, and returns credit in quarter-ring lots. */
  lemma ReadSomeOk(c: Config, sent: seq<Bytes>, got: Bytes, r: RState, n: nat)
    requires Core(c, sent, got, r) && Balanced(r, got) && 4 <= r.cap && (r.readErr.NoErr? ==> FinOk(sent, r))
    ensures var k, t := Min(n, |r.ring|), ReadSome(c, r, n);
            t == r.(ring := r.ring[k..], grantPending := t.grantPending, peerOffset := t.peerOffset) &&
            r.peerOffset <= t.peerOffset &&
            Core(c, sent, got + r.ring[..k], t) && Balanced(t, got + r.ring[..k])
  {
    hide Core, Drain, GrantBack;
    var k := Min(n, |r.ring|);
    var r1, t := r.(ring := r.ring[k..]), ReadSome(c, r, n);
    TakeOk(c, sent, got, r, k);
    assert MaybeEOF(r1) == r1;
    var pending, offset := GrantBackOk(r1, got + r.ring[..k], k);
    CreditFree(c, sent, got + r.ring[..k], r1, pending, offset);
  }

  lemma RingHolds(r: RState, got: Bytes)
    requires Balanced(r, got)
    ensures 4 <= r.cap
  {
  }

  lemma ReadAtEnd(c: Config, y: Sys, n: nat)
    requires Inv(c, y) && y.r.ring != [] && y.r.readErr.EOF?
    ensures Inv(c, Do(c, y, Read(n)))
  {
    hide WriterOk, ArrivedOk, OnWire, Flatten, NetOk, NoLoss;
    var k, t := Min(n, |y.r.ring|), ReadSome(c, y.r, n);
    assert y.got + y.r.ring == (y.got + y.r.ring[..k]) + y.r.ring[k..];
    assert Drain(c, y.r.(ring := y.r.ring[k..])) == y.r.(ring := y.r.ring[k..]);
    ReadEvolves(y.r, t);
    hide Evolves, AcksOk, Has;
    EvolvesKeeps(c, y.s, y.r, t, y.net);
  }

  lemma ReadMiddle(c: Config, y: Sys, t: RState, got: Bytes)
    requires Inv(c, y) && !Dropped(y.r) && !y.r.readErr.EOF?
    requires Core(c, y.s.sent, got, t) && Balanced(t, got)
    requires t == y.r.(ring := t.ring, grantPending := t.grantPending, peerOffset := t.peerOffset)
    requires y.r.peerOffset <= t.peerOffset
    ensures Inv(c, y.(r := t, got := got))
  {
    hide WriterOk, ArrivedOk, NetOk, NoLoss, ClosureOk, Core, Evolves, FinOk, Balanced, AcksOk;
    ReadEvolves(y.r, t);
    EvolvesKeeps(c, y.s, y.r, t, y.net);
    ClosureSame(c, y, y.(r := t, got := got));
  }

  lemma ReadLive(c: Config, y: Sys, n: nat)
    requires Inv(c, y) && Enabled(c, y, Read(n)) && !y.r.readErr.EOF?
    ensures Inv(c, Do(c, y, Read(n)))
  {
    hide WriterOk, ArrivedOk, NetOk, NoLoss, ClosureOk, Core, ReadSome, AcksOk, FinOk, Balanced;
    var k, t := Min(n, |y.r.ring|), ReadSome(c, y.r, n);
    RingHolds(y.r, y.got);
    ReadSomeOk(c, y.s.sent, y.got, y.r, n);
    ReadMiddle(c, y, t, y.got + y.r.ring[..k]);
    hide Inv;
  }

  lemma ReadOk(c: Config, y: Sys, n: nat)
    requires Inv(c, y) && Enabled(c, y, Read(n))
    ensures Inv(c, Do(c, y, Read(n)))
  {
    hide Inv, Do;
    if y.r.readErr.EOF? {
      ReadAtEnd(c, y, n);
    } else {
      ReadLive(c, y, n);
    }
  }

  lemma ReadEvolves(r: RState, t: RState)
    requires t == r.(ring := t.ring, grantPending := t.grantPending, peerOffset := t.peerOffset)
    requires r.peerOffset <= t.peerOffset
    ensures Evolves(r, t) && (AcksOk(r) ==> AcksOk(t))
    ensures forall sent :: FinOk(sent, r) ==> FinOk(sent, t)
  {
  }

  lemma SnapshotOk(c: Config, y: Sys)
    requires Inv(c, y)
    ensures Inv(c, Do(c, y, SendAck))
  {
    hide WriterOk, ArrivedOk, AccOk, PendOk, NetOk, NoLoss, From, ClosureOk;
    var k := AckSnapshot(y.r);
    var z := y.(r := k.r);
    assert Evolves(y.r, k.r);
    EvolvesKeeps(c, y.s, y.r, k.r, y.net);
    ClosureSame(c, y, z);
    if !Dropped(y.r) {
      SnapshotHeld(y.r);
    }
    var frames := AckFrames(k.cum, k.seqs) + {WindowFrame(k.granted)};
    forall f | f in frames ensures FrameOk(c, z.s, z.r, f) {
      if f in AckFrames(k.cum, k.seqs) {
        AckFrameParts(k.cum, k.seqs, f);
      }
    }
    AddFrames(c, z, frames);
    assert z.net + frames == y.net + AckFrames(k.cum, k.seqs) + {WindowFrame(k.granted)};
  }

  lemma AckFrameParts(cum: nat, seqs: seq<nat>, f: Frame)
    requires f in AckFrames(cum, seqs)
    ensures f.AckFrame? && f.cum == cum && forall x :: x in f.seqs ==> x in seqs
  {
  }

  /** An acknowledgement names only frames the receiver holds. */
  lemma SnapshotHeld(r: RState)
    requires AcksOk(r) && !Dropped(r)
    ensures var k := AckSnapshot(r); k.cum == r.readSeq && forall x :: x in k.seqs ==> Ackable(r, x)
  {
    hide From, Has;
  }
}
