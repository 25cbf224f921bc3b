/** The read side of a stream, updated in place.  Each method refines a function of `Receiver`. */
module StreamReaders {
  import opened Bytes
  import opened Geometry
  import opened StaticKeys
  import opened Receiver
  import opened Rings

  /** What Read returns: bytes, the error that ended the stream, or nothing yet. */
  datatype ReadOutcome = Data(bytes: Bytes) | Ends(err: ReadErr) | Waits

  class StreamReader {
    const cfg: Config
    const ring: Ring
    var readSeq: nat
    var reorder: map<nat, Bytes>
    var reorderBytes: int
    var ackPendingSeqs: seq<nat>
    var ackReplaySeqs: seq<nat>
    var finRecvd: bool
    var finSeq: nat
    var readErr: ReadErr
    var readCanceled: bool
    var grantPending: nat
    var peerOffset: nat
    var maxSeenSeq: nat
    var fecAcc: map<nat, Accum>
    var fecAccRow: map<nat, Accum>
    var fecPending: map<nat, Parity>
    var fecPendingRow: map<nat, Parity>

    ghost predicate Valid()
      reads this, ring
    {
      cfg.Valid() && ring.Valid()
    }

    ghost function View(): (r: RState)
      reads this, ring, ring.buf
      requires Valid()
      ensures 0 < r.cap == ring.buf.Length && |r.ring| == ring.len
    {
      RState(ring.Contents(), ring.buf.Length, readSeq, reorder, reorderBytes, ackPendingSeqs, ackReplaySeqs,
             finRecvd, finSeq, readErr, readCanceled, grantPending, peerOffset, maxSeenSeq,
             fecAcc, fecAccRow, fecPending, fecPendingRow)
    }

    constructor (c: Config)
      requires c.Valid()
      ensures Valid() && cfg == c && View() == Fresh(c) && fresh(ring) && fresh(ring.buf)
    {
      cfg := c;
      ring := new Ring(c.InitialWindow());
      readSeq, reorder, reorderBytes := 0, map[], 0;
      ackPendingSeqs, ackReplaySeqs := [], [];
      finRecvd, finSeq, readErr, readCanceled := false, 0, NoErr, false;
      grantPending, peerOffset, maxSeenSeq := 0, c.InitialWindow(), 0;
      fecAcc, fecAccRow, fecPending, fecPendingRow := map[], map[], map[], map[];
    }

    // --- ring, credit and growth ---

    method GrantLocked(delta: int)
      requires Valid()
      modifies this`peerOffset
      ensures Valid() && View() == Grant(old(View()), delta)
    {
      if delta > 0 {
        peerOffset := peerOffset + delta;
      }
    }

    /** Moves the ring to a larger buffer and grants the difference. */
    method Resize(newCap: nat)
      requires Valid() && ring.len <= newCap && ring.buf.Length < newCap
      modifies this, ring, ring.buf
      ensures Valid() && fresh(ring.buf)
      ensures View() == Grant(old(View()).(cap := newCap), newCap - old(ring.buf.Length))
    {
      hide Ring.Contents, Ring.Valid;
      var oldCap := ring.buf.Length;
      ring.Realloc(newCap);
      GrantLocked(newCap - oldCap);
    }

    method GrowLocked(need: nat) returns (ok: bool)
      requires Valid() && ring.len + need > ring.buf.Length
      modifies this, ring, ring.buf
      ensures Valid() && (ring.buf == old(ring.buf) || fresh(ring.buf))
      ensures Room(ok, View()) == MakeRoom(cfg, old(View()), need)
    {
      hide Ring.Contents;
      var oldCap := ring.buf.Length;
      var newCap := oldCap;
      while newCap < ring.len + need
        invariant 0 < oldCap <= newCap
        invariant Doubled(newCap, ring.len + need) == Doubled(oldCap, ring.len + need)
        decreases ring.len + need - newCap
      {
        newCap := newCap * 2;
      }
      newCap := Min(newCap, cfg.MaxBuf());
      if newCap <= oldCap || ring.len + need > newCap {
        return false;
      }
      Resize(newCap);
      ok := true;
    }

    method EnsureRoom(n: nat) returns (ok: bool)
      requires Valid()
      modifies this, ring, ring.buf
      ensures Valid() && (ring.buf == old(ring.buf) || fresh(ring.buf))
      ensures Room(ok, View()) == MakeRoom(cfg, old(View()), n)
      ensures ok ==> ring.len + n <= ring.buf.Length
    {
      ok := true;
      if ring.len + n > ring.buf.Length {
        ok := GrowLocked(n);
      }
      assert ok ==> |View().ring| + n <= View().cap;
    }

    /** Grows a ring that is half full, or early at a position where the clock lets it: those are in ramp. */
    method MaybeGrowLocked(ramp: set<nat>)
      requires Valid()
      modifies this, ring, ring.buf
      ensures Valid() && (ring.buf == old(ring.buf) || fresh(ring.buf))
      ensures View() == MaybeGrow(cfg, ramp, old(View()))
    {
      hide Ring.Contents;
      var oldCap := ring.buf.Length;
      if oldCap >= cfg.MaxBuf() {
        return;
      }
      var occupied := ring.len * 2 >= oldCap;
      var ramping := readSeq in ramp;
      if !occupied && !ramping {
        return;
      }
      var newCap := Min(oldCap * 2, cfg.MaxBuf());
      Resize(newCap);
    }

    method MaybeEOFLocked()
      requires Valid()
      modifies this`readErr
      ensures Valid() && View() == MaybeEOF(old(View()))
    {
      if finRecvd && readSeq >= finSeq && readErr.NoErr? {
        readErr := EOF;
      }
    }

    method RingWrite(data: Bytes)
      requires Valid() && ring.len + |data| <= ring.buf.Length
      modifies ring, ring.buf
      ensures Valid() && ring.buf == old(ring.buf)
      ensures View() == old(View()).(ring := old(View()).ring + data)
    {
      ring.Write(data);
    }

    // --- parity groups ---

    /** The receiver's closed formulas for the column group of a frame. */
    method FecGroupOf(sn: nat) returns (base: nat, idx: nat)
      requires cfg.group > 0
      ensures base == cfg.BaseOf(false, sn) && idx == cfg.IdxOf(false, sn)
    {
      FormulasCount(cfg, sn);
      var g := cfg.group;
      var span := g * g;
      base := sn / span * span + sn % g;
      idx := sn / g % g;
    }

    /** And for its row group. */
    method FecRowOf(sn: nat) returns (base: nat, idx: nat)
      requires cfg.group > 0
      ensures base == cfg.BaseOf(true, sn) && idx == cfg.IdxOf(true, sn)
    {
      RowFormula(cfg, sn);
      base := sn / cfg.group * cfg.group;
      idx := sn % cfg.group;
    }

    /** The i-th member of a group. */
    method MemberAt(row: bool, base: nat, i: nat) returns (sn: nat)
      ensures sn == cfg.Member(row, base, i)
    {
      MemberFormula(cfg, row, base, i);
      var stride := if row then 1 else cfg.group;
      sn := base + i * stride;
    }

    /** The last member a group can have. */
    method LastPossible(row: bool, base: nat) returns (sn: nat)
      requires cfg.group > 0
      ensures sn == cfg.Member(row, base, cfg.group - 1)
    {
      LastMember(cfg, row, base);
      var g := cfg.group;
      sn := if row then base + g - 1 else base + g * g - g;
    }

    /** Drops the accumulators of groups whose last possible member is delivered. */
    method SweepMap(row: bool, accs: map<nat, Accum>) returns (kept: map<nat, Accum>)
      requires cfg.group > 0
      ensures kept == SweepAcc(cfg, row, accs, readSeq)
    {
      kept := accs;
      if |accs| > 2 * cfg.group {
        var todo := accs.Keys;
        while todo != {}
          invariant todo <= accs.Keys && kept.Keys <= accs.Keys
          invariant forall b :: b in kept ==> kept[b] == accs[b]
          invariant forall b :: b in accs && b !in kept ==> b !in todo && cfg.Member(row, b, cfg.group - 1) < readSeq
          invariant forall b :: b in kept && b !in todo ==> readSeq <= cfg.Member(row, b, cfg.group - 1)
          decreases |todo|
        {
          var b :| b in todo;
          todo := todo - {b};
          var last := LastPossible(row, b);
          if last < readSeq {
            kept := kept - {b};
          }
        }
      }
    }

    method FecFoldRecvLocked(sn: nat, data: Bytes)
      requires Valid() && cfg.group > 0
      modifies this`fecAcc, this`fecAccRow
      ensures Valid() && View() == FoldRecv(cfg, old(View()), sn, data)
    {
      hide FoldAcc, SweepAcc;
      if |data| > cfg.DataCap() {
        return;
      }
      var base, idx := FecGroupOf(sn);
      var cols := FecFoldAcc(fecAcc, base, idx, data);
      var rows := fecAccRow;
      if cfg.twoD {
        var rowBase, rowIdx := FecRowOf(sn);
        rows := FecFoldAcc(fecAccRow, rowBase, rowIdx, data);
      }
      cols := SweepMap(false, cols);
      rows := SweepMap(true, rows);
      fecAcc, fecAccRow := cols, rows;
    }

    static method FecFoldAcc(accs: map<nat, Accum>, base: nat, idx: nat, data: Bytes) returns (m: map<nat, Accum>)
      ensures m == FoldAcc(accs, base, idx, data)
    {
      if base !in accs {
        return accs[base := Accum({idx}, data, |data|)];
      }
      var acc := accs[base];
      if idx in acc.folded {
        return accs;
      }
      m := accs[base := Accum(acc.folded + {idx}, PadXor(acc.data, data), NatXor(acc.lenXor, |data|))];
    }

    // --- delivery ---

    /** Moves the payload at readSeq from the reorder map to the ring. */
    method Unbuffer() returns (data: Bytes)
      requires Valid() && readSeq in reorder && ring.len + |reorder[readSeq]| <= ring.buf.Length
      modifies this`reorder, this`reorderBytes, ring, ring.buf
      ensures Valid() && ring.buf == old(ring.buf) && data == old(reorder[readSeq])
      ensures View() == old(View()).(ring := old(View()).ring + data, reorder := old(reorder) - {readSeq},
                                     reorderBytes := old(reorderBytes) - |data|)
    {
      hide Ring.Contents;
      data := reorder[readSeq];
      RingWrite(data);
      reorder := reorder - {readSeq};
      reorderBytes := reorderBytes - |data|;
    }

    /** One turn of the drain loop, after room was made. */
    method TakeBufferedLocked()
      requires Valid() && readSeq in reorder && ring.len + |reorder[readSeq]| <= ring.buf.Length
      modifies this, ring, ring.buf
      ensures Valid() && ring.buf == old(ring.buf)
      ensures View() == TakeBuffered(cfg, old(View()))
    {
      hide FoldRecv, Ring.Contents, Ring.Valid;
      var data := Unbuffer();
      if cfg.group > 0 {
        FecFoldRecvLocked(readSeq, data);
      }
      readSeq := readSeq + 1;
    }

    method DrainReorderLocked()
      requires Valid()
      modifies this, ring, ring.buf
      ensures Valid() && (ring.buf == old(ring.buf) || fresh(ring.buf))
      ensures View() == Drain(cfg, old(View()))
    {
      hide MakeRoom, TakeBuffered;
      while readSeq in reorder
        invariant Valid() && (ring.buf == old(ring.buf) || fresh(ring.buf))
        invariant Drain(cfg, View()) == Drain(cfg, old(View()))
        decreases |reorder|
      {
        ghost var was := View();
        var ok := EnsureRoom(|reorder[readSeq]|);
        if !ok {
          return;
        }
        TakeBufferedLocked();
        assert reorder.Keys == was.reorder.Keys - {was.readSeq};
        assert |reorder| == |was.reorder| - 1;
      }
    }

    /** The in-order frame: fold, ring, read position, drain, growth, end of stream. */
    method AdvanceLocked(ramp: set<nat>, payload: Bytes)
      requires Valid() && ring.len + |payload| <= ring.buf.Length
      modifies this, ring, ring.buf
      ensures Valid() && (ring.buf == old(ring.buf) || fresh(ring.buf))
      ensures View() == Advance(cfg, ramp, old(View()), payload)
    {
      hide FoldRecv, Drain, MaybeGrow, MaybeEOF, Ring.Contents;
      if cfg.group > 0 {
        FecFoldRecvLocked(readSeq, payload);
      }
      RingWrite(payload);
      readSeq := readSeq + 1;
      DrainReorderLocked();
      MaybeGrowLocked(ramp);
      MaybeEOFLocked();
    }

    method AdmitLocked(ramp: set<nat>, sn: nat, payload: Bytes) returns (ack: bool, novel: bool)
      requires Valid()
      modifies this, ring, ring.buf
      ensures Valid() && (ring.buf == old(ring.buf) || fresh(ring.buf))
      ensures Admitted(ack, novel, View()) == Admit(cfg, ramp, old(View()), sn, payload)
    {
      hide MakeRoom, Advance;
      if sn > maxSeenSeq {
        maxSeenSeq := sn;
      }
      if sn < readSeq || sn in reorder {
        return true, false;
      }
      if sn > readSeq {
        if reorderBytes + |payload| > cfg.MaxBuf() {
          return false, false;
        }
        reorder := reorder[sn := payload];
        reorderBytes := reorderBytes + |payload|;
        return true, true;
      }
      var ok := EnsureRoom(|payload|);
      if !ok {
        return false, false;
      }
      AdvanceLocked(ramp, payload);
      return true, true;
    }

    ghost function NumPend(): nat
      reads this
    {
      |fecPending| + |fecPendingRow|
    }

    /** A frame for a read side that has ended is granted back and passed over. */
    method PassOver(sn: nat, n: nat)
      requires Valid()
      modifies this`peerOffset, this`readSeq
      ensures Valid()
      ensures View() == Grant(old(View()), n).(readSeq := Max(old(readSeq), sn + 1))
    {
      hide Ring.Contents, Ring.Valid;
      GrantLocked(n);
      if sn >= readSeq {
        readSeq := sn + 1;
      }
    }

    method TakeFin(sn: nat)
      requires Valid()
      modifies this`finRecvd, this`finSeq, this`readErr
      ensures Valid()
      ensures View() == if sn < old(readSeq) then old(View()) else MaybeEOF(old(View()).(finRecvd := true, finSeq := sn))
    {
      hide Ring.Contents, Ring.Valid;
      if sn >= readSeq {
        finRecvd, finSeq := true, sn;
        MaybeEOFLocked();
      }
    }

    method NoteAck(sn: nat)
      requires Valid()
      modifies this`ackPendingSeqs
      ensures Valid() && View() == old(View()).(ackPending := old(ackPendingSeqs) + [sn])
    {
      hide Ring.Contents, Ring.Valid;
      ackPendingSeqs := ackPendingSeqs + [sn];
    }

    /** A DATA or FIN frame; says whether it is to be acknowledged. */
    method DeliverLocked(ramp: set<nat>, sn: nat, payload: Bytes, isFin: bool) returns (ack: bool)
      requires Valid()
      modifies this, ring, ring.buf
      ensures Valid() && (ring.buf == old(ring.buf) || fresh(ring.buf))
      ensures Delivered(ack, View()) == Deliver(cfg, ramp, old(View()), sn, payload, isFin)
      decreases NumPend(), 2, 1
    {
      hide DeliverData, Grant, MaybeEOF, Ring.Contents, Ring.Valid;
      if readCanceled || !readErr.NoErr? {
        PassOver(sn, |payload|);
        return true;
      }
      if isFin {
        TakeFin(sn);
        return true;
      }
      ack := DeliverDataLocked(ramp, sn, payload);
      if ack && sn >= readSeq {
        NoteAck(sn);
      }
    }

    method DeliverDataLocked(ramp: set<nat>, sn: nat, payload: Bytes) returns (ack: bool)
      requires Valid()
      modifies this, ring, ring.buf
      ensures Valid() && (ring.buf == old(ring.buf) || fresh(ring.buf))
      ensures Delivered(ack, View()) == DeliverData(cfg, ramp, old(View()), sn, payload)
      decreases NumPend(), 2, 0
    {
      hide Admit, RetrySeq;
      var novel;
      ack, novel := AdmitLocked(ramp, sn, payload);
      AdmitKeepsPending(ramp, old(View()), sn, payload);
      if novel {
        FecRetrySeqLocked(ramp, sn);
      }
    }

    lemma AdmitKeepsPending(ramp: set<nat>, r: RState, sn: nat, payload: Bytes)
      ensures Admit(cfg, ramp, r, sn, payload).r.colPend == r.colPend
      ensures Admit(cfg, ramp, r, sn, payload).r.rowPend == r.rowPend
    {
    }

    method FecRetrySeqLocked(ramp: set<nat>, sn: nat)
      requires Valid()
      modifies this, ring, ring.buf
      ensures Valid() && (ring.buf == old(ring.buf) || fresh(ring.buf))
      ensures View() == RetrySeq(cfg, ramp, old(View()), sn)
      decreases NumPend(), 1
    {
      hide RetryBase;
      if cfg.group == 0 {
        return;
      }
      var base, _ := FecGroupOf(sn);
      FecRetryBaseLocked(ramp, false, base);
      if cfg.twoD {
        var rowBase, _ := FecRowOf(sn);
        FecRetryBaseLocked(ramp, true, rowBase);
      }
    }

    /** Claims a buffered parity before trying it, and puts it back only if it still has to wait. */
    method FecRetryBaseLocked(ramp: set<nat>, row: bool, base: nat)
      requires Valid()
      modifies this, ring, ring.buf
      ensures Valid() && (ring.buf == old(ring.buf) || fresh(ring.buf))
      ensures View() == RetryBase(cfg, ramp, old(View()), row, base)
      decreases NumPend(), 0
    {
      hide TryReconstruct;
      var pending := if row then fecPendingRow else fecPending;
      if base !in pending {
        return;
      }
      var p := pending[base];
      assert |pending - {base}| == |pending| - 1 by {
        assert (pending - {base}).Keys == pending.Keys - {base};
      }
      if row {
        fecPendingRow := fecPendingRow - {base};
      } else {
        fecPending := fecPending - {base};
      }
      assert View() == old(View()).WithPend(row, old(View()).Pend(row) - {base});
      var outcome := TryReconstructLocked(ramp, row, base, p);
      if outcome.FecPending? {
        if row {
          fecPendingRow := fecPendingRow[base := p];
        } else {
          fecPending := fecPending[base := p];
        }
      }
    }

    /** Looks for the missing members of a group: the first loop of a reconstruction. */
    method ScanMembers(row: bool, base: nat, count: nat) returns (s: ScanResult)
      requires Valid()
      ensures s == Scan(cfg, View(), row, base, count, 0, -1)
    {
      hide Ring.Contents, Ring.Valid;
      var accs := if row then fecAccRow else fecAcc;
      var folded: set<nat> := if base in accs then accs[base].folded else {};
      assert folded == Folded(View(), row, base);
      var i, missing := 0, -1;
      while i < count
        invariant i <= count
        invariant Scan(cfg, View(), row, base, count, i, missing) == Scan(cfg, View(), row, base, count, 0, -1)
      {
        var sn := MemberAt(row, base, i);
        if i !in folded && sn !in reorder {
          if sn < readSeq {
            return ScanUseless;
          }
          if missing >= 0 {
            return ScanPending;
          }
          missing := i;
        }
        i := i + 1;
      }
      return ScanDone(missing);
    }

    /** XORs everything here out of the parity: the second loop of a reconstruction. */
    method SolveMissing(row: bool, base: nat, p: Parity, missing: int) returns (b: Rebuilt)
      requires Valid() && (base in View().Acc(row) ==> |View().Acc(row)[base].data| <= |p.data|)
      ensures b == Solve(cfg, View(), row, base, p, missing)
    {
      hide PadXor, NatXor, Ring.Contents, Ring.Valid;
      var accs := if row then fecAccRow else fecAcc;
      var folded: set<nat> := if base in accs then accs[base].folded else {};
      assert folded == Folded(View(), row, base);
      var buf, length := p.data, p.lenXor;
      if base in accs {
        buf, length := PadXor(buf, accs[base].data), NatXor(length, accs[base].lenXor);
      }
      var i := 0;
      while i < p.count
        invariant i <= p.count
        invariant Rebuild(cfg, View(), row, base, p.count, missing, i, buf, length) ==
                  Solve(cfg, View(), row, base, p, missing)
      {
        if i !in folded && i != missing {
          var sn := MemberAt(row, base, i);
          var data := if sn in reorder then reorder[sn] else [];
          if |data| > |buf| {
            return Mismatch;
          }
          buf, length := PadXor(buf, data), NatXor(length, |data|);
        }
        i := i + 1;
      }
      return Rebuilt(buf, length);
    }

    method TryReconstructLocked(ramp: set<nat>, row: bool, base: nat, p: Parity) returns (outcome: Outcome)
      requires Valid()
      modifies this, ring, ring.buf
      ensures Valid() && (ring.buf == old(ring.buf) || fresh(ring.buf))
      ensures Tried(outcome, View()) == TryReconstruct(cfg, ramp, old(View()), row, base, p)
      decreases NumPend(), 3
    {
      hide Deliver, Scan, Solve;
      var last := MemberAt(row, base, if p.count == 0 then 0 else p.count - 1);
      if readSeq > last {
        return FecUseless;
      }
      var accs := if row then fecAccRow else fecAcc;
      if base in accs && |accs[base].data| > |p.data| {
        return FecUseless;
      }
      var s := ScanMembers(row, base, p.count);
      if s.ScanUseless? {
        return FecUseless;
      }
      if s.ScanPending? {
        return FecPending;
      }
      if s.missing < 0 {
        return FecUseless;
      }
      var b := SolveMissing(row, base, p, s.missing);
      if b.Mismatch? || b.len == 0 || b.len > |p.data| {
        return FecUseless;
      }
      var sn := MemberAt(row, base, s.missing);
      var _ := DeliverLocked(ramp, sn, b.buf[..b.len], false);
      return FecRecovered;
    }

    /** The oldest group of a full parity buffer. */
    static method OldestKey(pending: map<nat, Parity>) returns (oldest: nat)
      requires pending != map[]
      ensures oldest == MinKey(pending.Keys)
    {
      var todo := pending.Keys;
      assert todo != {} by {
        var k :| k in pending;
      }
      oldest :| oldest in todo;
      while todo != {}
        invariant todo <= pending.Keys && oldest in pending
        invariant forall k :: k in pending && k !in todo ==> oldest <= k
        decreases |todo|
      {
        var k :| k in todo;
        todo := todo - {k};
        if k < oldest {
          oldest := k;
        }
      }
    }

    /** A parity frame; says whether a frame was recovered right now. */
    method ApplyFecLocked(ramp: set<nat>, row: bool, base: nat, p: Parity) returns (recovered: bool)
      requires Valid()
      modifies this, ring, ring.buf
      ensures Valid() && (ring.buf == old(ring.buf) || fresh(ring.buf))
      ensures Applied(recovered, View()) == ApplyFec(cfg, ramp, old(View()), row, base, p)
    {
      hide TryReconstruct, StoreParity, Ring.Contents, Ring.Valid;
      if cfg.group == 0 || p.count == 0 || p.count > cfg.group || (row && !cfg.twoD) {
        return false;
      }
      if readCanceled || !readErr.NoErr? {
        return false;
      }
      var onGeometry := BaseIsOnGeometry(row, base);
      if !onGeometry {
        return false;
      }
      var outcome := TryReconstructLocked(ramp, row, base, p);
      if outcome.FecRecovered? {
        return true;
      }
      if outcome.FecPending? {
        BufferParity(row, base, p);
      }
      return false;
    }

    /** Buffers a parity; a full buffer gives up its oldest group. */
    method BufferParity(row: bool, base: nat, p: Parity)
      requires Valid()
      modifies this`fecPending, this`fecPendingRow
      ensures Valid()
      ensures View() == old(View()).WithPend(row, StoreParity(old(View()).Pend(row), base, p))
    {
      hide MinKey, Ring.Contents, Ring.Valid;
      var pending := if row then fecPendingRow else fecPending;
      if base !in pending && |pending| >= FEC_PENDING_CAP {
        var oldest := OldestKey(pending);
        pending := pending - {oldest};
      }
      pending := pending[base := p];
      if row {
        fecPendingRow := pending;
      } else {
        fecPending := pending;
      }
    }

    method BaseIsOnGeometry(row: bool, base: nat) returns (ok: bool)
      requires cfg.group > 0
      ensures ok == cfg.IsBase(row, base)
    {
      BaseTests(cfg, base);
      var g := cfg.group;
      if row {
        ok := base % g == 0;
      } else {
        ok := base % (g * g) < g;
      }
    }

    // --- the application and the acknowledgement path ---

    /** Read: buffered bytes first, then the sticky error; with neither the reader waits, which changes nothing. */
    method Read(n: nat) returns (o: ReadOutcome)
      requires Valid()
      modifies this, ring, ring.buf
      ensures Valid() && (ring.buf == old(ring.buf) || fresh(ring.buf))
      ensures var r := old(View());
              if r.ring != [] then o == Data(r.ring[..Min(n, |r.ring|)]) && View() == ReadSome(cfg, r, n)
              else o == (if r.readErr.NoErr? then Waits else Ends(r.readErr)) && View() == r
    {
      hide Drain, MaybeEOF, GrantBack;
      if ring.len == 0 {
        return if readErr.NoErr? then Waits else Ends(readErr);
      }
      var p := ring.Read(n);
      o := Data(p);
      DrainReorderLocked();
      MaybeEOFLocked();
      GrantConsumed(|p|);
    }

    /** Grants consumed bytes back to the peer once enough accumulate. */
    method GrantConsumed(k: nat)
      requires Valid()
      modifies this`grantPending, this`peerOffset
      ensures Valid() && View() == GrantBack(old(View()), k)
    {
      grantPending := grantPending + k;
      if grantPending >= ring.buf.Length / 4 {
        var credit := grantPending;
        grantPending := 0;
        GrantLocked(credit);
      }
    }

    static method FromCum(s: seq<nat>, cum: nat) returns (t: seq<nat>)
      ensures t == From(s, cum)
    {
      t := [];
      var i := 0;
      while i < |s|
        invariant i <= |s| && t == From(s[..i], cum)
      {
        assert s[..i + 1][..i] == s[..i];
        if s[i] >= cum {
          t := t + [s[i]];
        }
        i := i + 1;
      }
      assert s[..i] == s;
    }

    method TakeAckSnapshot() returns (cum: nat, seqs: seq<nat>, granted: nat)
      requires Valid()
      modifies this`ackReplaySeqs, this`ackPendingSeqs
      ensures Valid() && Snapshot(cum, seqs, granted, View()) == AckSnapshot(old(View()))
    {
      hide From;
      cum, granted := readSeq, peerOffset;
      seqs := [];
      if finRecvd && finSeq >= cum {
        seqs := [finSeq];
      }
      var replay := FromCum(ackReplaySeqs, cum);
      var pending := FromCum(ackPendingSeqs, cum);
      seqs := seqs + replay + pending;
      ackReplaySeqs := ackPendingSeqs;
      ackPendingSeqs := [];
    }

    /** The sequence numbers a NACK lists. */
    method FireNackLocked() returns (gaps: seq<nat>)
      requires Valid()
      ensures gaps == NackList(View())
    {
      hide Gaps;
      ghost var v := View();
      gaps := [];
      var hi := maxSeenSeq;
      if finRecvd && finSeq > 0 && finSeq - 1 > hi {
        hi := finSeq - 1;
      }
      var sn := readSeq;
      while sn <= hi && |gaps| < MAX_NACK_SEQS_PER_FIRE
        invariant |gaps| <= MAX_NACK_SEQS_PER_FIRE
        invariant gaps + Gaps(v, sn, hi, MAX_NACK_SEQS_PER_FIRE - |gaps|) == NackList(v)
        decreases hi - sn + 1
      {
        GapsUnfold(v, sn, hi, MAX_NACK_SEQS_PER_FIRE - |gaps|, gaps);
        if sn !in reorder {
          gaps := gaps + [sn];
        }
        sn := sn + 1;
      }
      GapsEnd(v, sn, hi, MAX_NACK_SEQS_PER_FIRE - |gaps|, gaps);
    }

    lemma GapsUnfold(v: RState, sn: nat, hi: int, n: nat, gaps: seq<nat>)
      requires sn <= hi && 0 < n
      ensures sn in v.reorder ==> Gaps(v, sn, hi, n) == Gaps(v, sn + 1, hi, n)
      ensures sn !in v.reorder ==> gaps + Gaps(v, sn, hi, n) == (gaps + [sn]) + Gaps(v, sn + 1, hi, n - 1)
    {
    }

    lemma GapsEnd(v: RState, sn: nat, hi: int, n: nat, gaps: seq<nat>)
      requires sn > hi || n == 0
      ensures gaps + Gaps(v, sn, hi, n) == gaps
    {
    }

    method DiscardLocked()
      requires Valid()
      modifies this, ring
      ensures Valid() && ring.buf == old(ring.buf) && View() == Discard(old(View()))
    {
      hide Ring.Contents, Ring.Valid;
      ring.Clear();
      reorder, reorderBytes := map[], 0;
      ackPendingSeqs, ackReplaySeqs := [], [];
      fecAcc, fecAccRow, fecPending, fecPendingRow := map[], map[], map[], map[];
    }

    method CancelReadLocked()
      requires Valid()
      modifies this, ring
      ensures Valid() && ring.buf == old(ring.buf) && View() == CancelRead(old(View()))
    {
      if readCanceled {
        return;
      }
      readCanceled := true;
      if readErr.NoErr? {
        readErr := StreamReset;
      }
      DiscardLocked();
    }

    method DeliverResetLocked()
      requires Valid()
      modifies this, ring
      ensures Valid() && ring.buf == old(ring.buf) && View() == DeliverReset(old(View()))
    {
      if readErr.NoErr? {
        readErr := StreamReset;
      }
      DiscardLocked();
    }

    method DeliverCloseLocked()
      requires Valid()
      modifies this`readErr
      ensures Valid() && View() == Fail(old(View()), StreamClosed)
    {
      if readErr.NoErr? {
        readErr := StreamClosed;
      }
    }
  }
}
