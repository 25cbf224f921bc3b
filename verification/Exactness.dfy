/**
 * What a receiver holds when every frame it is given is genuine: exactly what was
 * sent.  `Core` relates the receive state to the frames `sent` by the peer and the
 * bytes `got` by the application; every locked operation keeps it, including the
 * frames that parity reconstruction injects.
 */
module Exactness {
  import opened Bytes
  import opened Geometry
  import opened Receiver

  /** The frame is delivered or buffered. */
  predicate Has(r: RState, s: nat) {
    s < r.readSeq || s in r.reorder
  }

  predicate ChunksOk(c: Config, sent: seq<Bytes>) {
    forall i :: 0 <= i < |sent| ==> 0 < |sent[i]| <= c.DataCap()
  }

  predicate Uses(c: Config, row: bool) {
    c.group > 0 && (row ==> c.twoD)
  }

  function UpTo(k: nat): (s: set<nat>)
    ensures forall i: nat :: i in s <==> i < k
  {
    if k == 0 then {} else UpTo(k - 1) + {k - 1}
  }

  /** The accumulator of a group's first k members. */
  function AccOf(c: Config, sent: seq<Bytes>, row: bool, base: nat, k: nat): Accum {
    Accum(UpTo(k), GroupData(c, sent, row, base, k), GroupLen(c, sent, row, base, k))
  }

  /** The group has a member below n and a possible member at or above n. */
  predicate Straddles(c: Config, row: bool, base: nat, n: nat) {
    c.IsBase(row, base) && base < n <= c.Member(row, base, c.group - 1)
  }

  /** Every accumulator describes exactly the members below n, and every straddling group has one. */
  ghost predicate AccExact(c: Config, sent: seq<Bytes>, row: bool, accs: map<nat, Accum>, n: nat) {
    && (forall b :: b in accs ==> c.IsBase(row, b) && b < n &&
                                  accs[b] == AccOf(c, sent, row, b, Below(c, row, b, n, c.group)))
    && (forall b :: Straddles(c, row, b, n) ==> b in accs)
  }

  /** Exact, and at most 2G accumulators are kept. */
  ghost predicate AccOk(c: Config, sent: seq<Bytes>, row: bool, accs: map<nat, Accum>, n: nat) {
    AccExact(c, sent, row, accs, n) && |accs| <= 2 * c.group
  }

  ghost predicate AccsOk(c: Config, sent: seq<Bytes>, r: RState, n: nat) {
    && (if Uses(c, false) then AccOk(c, sent, false, r.colAcc, n) else r.colAcc == map[])
    && (if Uses(c, true) then AccOk(c, sent, true, r.rowAcc, n) else r.rowAcc == map[])
  }

  /** A parity exactly as the sender emits it for its group. */
  predicate Genuine(c: Config, sent: seq<Bytes>, row: bool, base: nat, p: Parity) {
    && Uses(c, row)
    && c.IsBase(row, base)
    && 0 < p.count <= c.group
    && c.Member(row, base, p.count - 1) < |sent|
    && p.data == GroupData(c, sent, row, base, p.count)
    && p.lenXor == GroupLen(c, sent, row, base, p.count)
  }

  predicate PendOk(c: Config, sent: seq<Bytes>, row: bool, pend: map<nat, Parity>) {
    forall b :: b in pend ==> Genuine(c, sent, row, b, pend[b])
  }

  /** The ring continues what the application got; buffered frames are the ones sent. */
  predicate BufOk(c: Config, sent: seq<Bytes>, got: Bytes, r: RState) {
    && r.readSeq <= |sent|
    && got + r.ring == Flatten(sent[..r.readSeq])
    && (forall s :: s in r.reorder ==> r.readSeq <= s < |sent| && r.reorder[s] == sent[s])
    && r.reorderBytes == SumIn(sent, r.reorder.Keys, 0)
    && |Flatten(sent)| <= r.cap + |got|
    && r.cap <= c.MaxBuf()
    && (r.maxSeen == 0 || r.maxSeen < |sent|)
  }

  ghost predicate CorePre(c: Config, sent: seq<Bytes>, got: Bytes, r: RState) {
    && c.Valid()
    && ChunksOk(c, sent)
    && BufOk(c, sent, got, r)
    && AccsOk(c, sent, r, r.readSeq)
    && PendOk(c, sent, false, r.colPend)
    && PendOk(c, sent, true, r.rowPend)
  }

  ghost predicate Core(c: Config, sent: seq<Bytes>, got: Bytes, r: RState) {
    CorePre(c, sent, got, r) && r.readSeq !in r.reorder
  }

  /** The end-of-stream bookkeeping of a receiver that was neither reset nor cancelled. */
  predicate FinOk(sent: seq<Bytes>, r: RState) {
    && !r.canceled
    && (r.readErr.NoErr? || r.readErr.EOF?)
    && (r.finRecvd ==> r.finSeq == |sent|)
    && (r.readErr.EOF? <==> r.finRecvd && r.readSeq >= r.finSeq)
  }

  /** What an operation may change: it only gains frames, and grants what it grows. */
  ghost predicate KeepsBuf(r: RState, s: RState) {
    && (forall x: nat :: Has(r, x) ==> Has(s, x))
    && r.readSeq <= s.readSeq
    && r.cap <= s.cap
    && s.peerOffset - s.cap == r.peerOffset - r.cap
    && s.grantPending == r.grantPending
    && s.finRecvd == r.finRecvd && s.finSeq == r.finSeq && s.canceled == r.canceled
    && s.ackReplay == r.ackReplay
    && (forall x :: x in s.ackPending ==> x in r.ackPending || Has(s, x))
    && r.maxSeen <= s.maxSeen
  }

  /** An accumulator of a group that began below readSeq was there before: none is recreated. */
  ghost predicate NoRevival(r: RState, s: RState) {
    && (forall b :: b in s.colAcc && b < r.readSeq ==> b in r.colAcc)
    && (forall b :: b in s.rowAcc && b < r.readSeq ==> b in r.rowAcc)
  }

  ghost predicate Keeps(r: RState, s: RState) {
    && KeepsBuf(r, s)
    && NoRevival(r, s)
    && (forall b :: b in s.colPend ==> b in r.colPend && s.colPend[b] == r.colPend[b])
    && (forall b :: b in s.rowPend ==> b in r.rowPend && s.rowPend[b] == r.rowPend[b])
  }

  lemma KeepsTrans(r: RState, s: RState, t: RState)
    requires Keeps(r, s) && Keeps(s, t)
    ensures Keeps(r, t)
  {
  }

  // --- room ---

  /** Whatever was sent and is not read yet fits the ring. */
  lemma Fits(c: Config, sent: seq<Bytes>, got: Bytes, r: RState)
    requires CorePre(c, sent, got, r) && r.readSeq < |sent|
    ensures MakeRoom(c, r, |sent[r.readSeq]|) == Room(true, r)
  {
    var n := r.readSeq;
    assert sent[..n + 1][..n] == sent[..n];
    FlattenPrefix(sent, n + 1);
  }

  /** The reorder buffer never exceeds its budget. */
  lemma ReorderFits(c: Config, sent: seq<Bytes>, got: Bytes, r: RState, s: nat)
    requires CorePre(c, sent, got, r) && r.readSeq < s < |sent| && s !in r.reorder
    ensures r.reorderBytes + |sent[s]| <= c.MaxBuf()
    ensures r.reorderBytes + |sent[s]| == SumIn(sent, r.reorder.Keys + {s}, 0)
  {
    SumInAdd(sent, r.reorder.Keys, 0, s);
    SumInBound(sent, r.reorder.Keys + {s}, 0, r.readSeq);
  }

  // --- accumulators ---

  lemma StraddlesAt(c: Config, row: bool, n: nat)
    requires c.group > 1 && c.IdxOf(row, n) != 0
    ensures Straddles(c, row, c.BaseOf(row, n), n)
  {
    var base, idx := c.BaseOf(row, n), c.IdxOf(row, n);
    SeqIsMember(c, row, n);
    MemberOrder(c, row, base, 0, idx);
    if idx < c.group - 1 {
      MemberOrder(c, row, base, idx, c.group - 1);
    }
  }

  lemma FoldAccOk(c: Config, sent: seq<Bytes>, row: bool, accs: map<nat, Accum>, n: nat)
    requires c.group > 1 && AccExact(c, sent, row, accs, n) && n < |sent|
    ensures AccExact(c, sent, row, FoldAcc(accs, c.BaseOf(row, n), c.IdxOf(row, n), sent[n]), n + 1)
  {
    hide FoldAcc, AccOf, Below, c.BaseOf, c.IdxOf;
    var base, idx := c.BaseOf(row, n), c.IdxOf(row, n);
    var accs' := FoldAcc(accs, base, idx, sent[n]);
    SeqIsMember(c, row, n);
    FoldOne(c, sent, row, accs, n);
    forall b | b in accs'
      ensures c.IsBase(row, b) && b < n + 1 &&
              accs'[b] == AccOf(c, sent, row, b, Below(c, row, b, n + 1, c.group))
    {
      BelowStep(c, row, b, n);
    }
    forall b | Straddles(c, row, b, n + 1) ensures b in accs' {
      if b == n {
        MemberOfGroup(c, row, b, 0);
      } else {
        assert Straddles(c, row, b, n);
      }
    }
  }

  /** What one fold does to the map, whatever the map holds. */
  lemma FoldAccIs(accs: map<nat, Accum>, base: nat, idx: nat, data: Bytes)
    requires base in accs ==> idx !in accs[base].folded
    ensures var f := FoldAcc(accs, base, idx, data);
            && f.Keys == accs.Keys + {base} && (forall b :: b in accs && b != base ==> f[b] == accs[b])
            && f[base] == if base in accs
                          then Accum(accs[base].folded + {idx}, PadXor(accs[base].data, data), NatXor(accs[base].lenXor, |data|))
                          else Accum({idx}, data, |data|)
  {
    hide NatXor, PadXor;
  }

  lemma AccOfStep(c: Config, sent: seq<Bytes>, row: bool, base: nat, idx: nat, n: nat)
    requires n < |sent| && c.Member(row, base, idx) == n
    ensures var a := AccOf(c, sent, row, base, idx);
            && idx !in a.folded
            && AccOf(c, sent, row, base, idx + 1) == Accum(a.folded + {idx}, PadXor(a.data, sent[n]), NatXor(a.lenXor, |sent[n]|))
  {
    hide NatXor, PadXor, c.Member;
  }

  lemma AccOfFirst(c: Config, sent: seq<Bytes>, row: bool, base: nat, n: nat)
    requires n < |sent| && c.Member(row, base, 0) == n
    ensures AccOf(c, sent, row, base, 1) == Accum({0}, sent[n], |sent[n]|)
  {
    hide NatXor, PadXor, c.Member;
    AccOfStep(c, sent, row, base, 0, n);
    NatXorZero(|sent[n]|);
    EmptyXor(sent[n]);
  }

  lemma FoldOne(c: Config, sent: seq<Bytes>, row: bool, accs: map<nat, Accum>, n: nat)
    requires c.group > 1 && AccExact(c, sent, row, accs, n) && n < |sent|
    ensures var base, idx := c.BaseOf(row, n), c.IdxOf(row, n);
            var accs' := FoldAcc(accs, base, idx, sent[n]);
            accs'.Keys == accs.Keys + {base} && accs'[base] == AccOf(c, sent, row, base, idx + 1) &&
            (forall b :: b in accs && b != base ==> accs'[b] == accs[b])
  {
    hide c.BaseOf, c.IdxOf, Below, AccOf, FoldAcc;
    var base, idx := c.BaseOf(row, n), c.IdxOf(row, n);
    SeqIsMember(c, row, n);
    BelowStep(c, row, base, n);
    AccOfStep(c, sent, row, base, idx, n);
    FoldAccIs(accs, base, idx, sent[n]);
    if base !in accs {
      if idx != 0 {
        StraddlesAt(c, row, n);
      }
      AccOfFirst(c, sent, row, base, n);
    }
  }

  lemma EmptyXor(b: Bytes)
    ensures PadXor([], b) == b
  {
    forall i | 0 <= i < |b| ensures PadXor([], b)[i] == b[i] {
      var x := b[i];
      assert 0 ^ x == x;
    }
  }

  /** Sequence numbers of one lane are at least G apart. */
  lemma {:induction false} LaneGap(c: Config, x: nat, y: nat)
    requires c.group > 0 && x < y && c.Lane(x) == c.Lane(y)
    ensures x + c.group <= y
  {
    if x >= c.group {
      LaneGap(c, x - c.group, y - c.group);
    } else if y >= c.group {
      assert c.Lane(y - c.group) <= y - c.group;
    }
  }

  lemma {:induction false} MemberLane(c: Config, base: nat, i: nat)
    requires c.group > 0
    ensures c.Lane(c.Member(false, base, i)) == c.Lane(base)
  {
    if i > 0 {
      MemberLane(c, base, i - 1);
      LaneStep(c, c.Member(false, base, i - 1));
    }
  }

  /** Between a column base and its k-th member, the lane holds only members. */
  lemma {:induction false} LaneBetween(c: Config, base: nat, y: nat, k: nat) returns (i: nat)
    requires c.group > 0 && base <= y <= c.Member(false, base, k) && c.Lane(y) == c.Lane(base)
    ensures i <= k && y == c.Member(false, base, i)
  {
    if y == c.Member(false, base, k) {
      i := k;
    } else {
      var m := c.Member(false, base, k - 1);
      MemberLane(c, base, k - 1);
      if m < y {
        LaneGap(c, m, y);
      }
      i := LaneBetween(c, base, y, k - 1);
    }
  }

  /** At most one group per lane reaches across n. */
  lemma OneGroupPerLane(c: Config, row: bool, a: nat, b: nat, n: nat)
    requires c.group > 0 && c.IsBase(row, a) && c.IsBase(row, b) && a <= b
    requires b <= n <= c.Member(row, a, c.group - 1) && c.Lane(a) == c.Lane(b)
    ensures a == b
  {
    if row {
      RowMember(c, a, c.group - 1);
      if a < b {
        LaneGap(c, a, b);
      }
    } else {
      var i := LaneBetween(c, a, b, c.group - 1);
      MemberOfGroup(c, false, a, i);
    }
  }

  ghost predicate OnePerLane(c: Config, keys: set<nat>) {
    forall a, b :: a in keys && b in keys && c.Lane(a) == c.Lane(b) ==> a == b
  }

  lemma {:induction false} LaneCount(c: Config, keys: set<nat>, k: nat)
    requires OnePerLane(c, keys) && forall b :: b in keys ==> c.Lane(b) < k
    ensures |keys| <= k
  {
    if k == 0 {
      assert keys == {};
    } else if b :| b in keys && c.Lane(b) == k - 1 {
      LaneCount(c, keys - {b}, k - 1);
    } else {
      LaneCount(c, keys, k - 1);
    }
  }

  /** A sweep drops exactly the groups delivered in full, and then keeps at most one per lane; there are never more than 2G. */
  lemma SweepOk(c: Config, sent: seq<Bytes>, row: bool, accs: map<nat, Accum>, n: nat)
    requires c.group > 1 && AccExact(c, sent, row, accs, n + 1)
    ensures AccOk(c, sent, row, SweepAcc(c, row, accs, n), n + 1)
    ensures var kept := SweepAcc(c, row, accs, n);
            |accs| > 2 * c.group ==>
              OnePerLane(c, kept.Keys) && forall b :: b in accs ==> (b in kept <==> n <= c.Member(row, b, c.group - 1))
  {
    hide AccOf, c.IsBase, c.Member;
    var kept := SweepAcc(c, row, accs, n);
    if |accs| > 2 * c.group {
      forall a, b | a in kept && b in kept && c.Lane(a) == c.Lane(b) ensures a == b {
        OneGroupPerLane(c, row, Min(a, b), Max(a, b), n);
      }
      LaneCount(c, kept.Keys, c.group);
    }
  }

  /** Folding the frame at readSeq begins a group only with its first member. */
  lemma FoldRevivesNone(c: Config, sent: seq<Bytes>, r: RState)
    requires c.Valid() && r.readSeq < |sent| && AccsOk(c, sent, r, r.readSeq)
    ensures NoRevival(r, MaybeFold(c, r, r.readSeq, sent[r.readSeq]))
  {
    hide AccOf, FoldAcc;
    var n := r.readSeq;
    if c.group > 0 {
      FoldBegins(c, sent, false, r.colAcc, n);
      if c.twoD {
        FoldBegins(c, sent, true, r.rowAcc, n);
      }
    }
  }

  lemma FoldBegins(c: Config, sent: seq<Bytes>, row: bool, accs: map<nat, Accum>, n: nat)
    requires c.group > 1 && AccExact(c, sent, row, accs, n) && n < |sent|
    ensures forall b :: b in FoldAcc(accs, c.BaseOf(row, n), c.IdxOf(row, n), sent[n]) && b < n ==> b in accs
  {
    hide AccOf, Below, c.BaseOf, c.IdxOf;
    SeqIsMember(c, row, n);
    if c.IdxOf(row, n) != 0 {
      StraddlesAt(c, row, n);
    }
  }

  /** Folding the frame at readSeq keeps every accumulator exact. */
  lemma FoldOk(c: Config, sent: seq<Bytes>, r: RState)
    requires c.Valid() && ChunksOk(c, sent) && r.readSeq < |sent|
    requires AccsOk(c, sent, r, r.readSeq)
    ensures AccsOk(c, sent, MaybeFold(c, r, r.readSeq, sent[r.readSeq]), r.readSeq + 1)
  {
    var n := r.readSeq;
    if c.group > 0 {
      FoldAccOk(c, sent, false, r.colAcc, n);
      SweepOk(c, sent, false, FoldAcc(r.colAcc, c.BaseOf(false, n), c.IdxOf(false, n), sent[n]), n);
      if c.twoD {
        FoldAccOk(c, sent, true, r.rowAcc, n);
        SweepOk(c, sent, true, FoldAcc(r.rowAcc, c.BaseOf(true, n), c.IdxOf(true, n), sent[n]), n);
      }
    }
  }

  // --- in-order delivery ---

  /** One frame moves into the ring. */
  lemma Append(c: Config, sent: seq<Bytes>, got: Bytes, r: RState)
    requires r.readSeq < |sent| && got + r.ring == Flatten(sent[..r.readSeq])
    ensures got + (r.ring + sent[r.readSeq]) == Flatten(sent[..r.readSeq + 1])
  {
    var n := r.readSeq;
    assert sent[..n + 1] == sent[..n] + [sent[n]];
    FlattenSnoc(sent[..n], sent[n]);
  }

  lemma DrainUnfold(c: Config, sent: seq<Bytes>, got: Bytes, r: RState)
    requires CorePre(c, sent, got, r) && r.readSeq in r.reorder
    ensures Drain(c, r) == Drain(c, TakeBuffered(c, r))
  {
    hide TakeBuffered, MakeRoom, AccsOk, PendOk;
    Fits(c, sent, got, r);
  }

  lemma TakeBufferedBuf(c: Config, sent: seq<Bytes>, got: Bytes, r: RState)
    requires BufOk(c, sent, got, r) && r.readSeq in r.reorder
    ensures BufOk(c, sent, got, TakeBuffered(c, r)) && KeepsBuf(r, TakeBuffered(c, r))
    ensures forall x: nat :: Has(TakeBuffered(c, r), x) ==> Has(r, x)
    ensures TakeBuffered(c, r).reorder.Keys == r.reorder.Keys - {r.readSeq}
    ensures var t := TakeBuffered(c, r);
            t.readErr == r.readErr && t.maxSeen == r.maxSeen && t.cap == r.cap && t.ackPending == r.ackPending
  {
    hide MaybeFold;
    var n := r.readSeq;
    Append(c, sent, got, r);
    SumInAdd(sent, r.reorder.Keys - {n}, 0, n);
    assert r.reorder.Keys == r.reorder.Keys - {n} + {n};
    assert (r.reorder - {n}).Keys == r.reorder.Keys - {n};
  }

  lemma TakeBufferedOk(c: Config, sent: seq<Bytes>, got: Bytes, r: RState)
    requires CorePre(c, sent, got, r) && r.readSeq in r.reorder
    ensures CorePre(c, sent, got, TakeBuffered(c, r)) && Keeps(r, TakeBuffered(c, r))
  {
    hide MaybeFold, AccOk, PendOk, BufOk, KeepsBuf, Has, TakeBuffered;
    var n := r.readSeq;
    TakeBufferedBuf(c, sent, got, r);
    TakeBufferedIs(c, sent, got, r);
    var r1 := r.(ring := r.ring + sent[n], reorder := r.reorder - {n}, reorderBytes := r.reorderBytes - |sent[n]|);
    AccsSame(c, sent, r, r1, n);
    FoldOk(c, sent, r1);
    FoldRevivesNone(c, sent, r1);
    AccsSame(c, sent, MaybeFold(c, r1, n, sent[n]), TakeBuffered(c, r), n + 1);
  }

  lemma TakeBufferedIs(c: Config, sent: seq<Bytes>, got: Bytes, r: RState)
    requires BufOk(c, sent, got, r) && r.readSeq in r.reorder
    ensures var n := r.readSeq;
            && n < |sent| && r.reorderBytes >= |sent[n]|
            && var r1 := r.(ring := r.ring + sent[n], reorder := r.reorder - {n}, reorderBytes := r.reorderBytes - |sent[n]|);
            TakeBuffered(c, r) == MaybeFold(c, r1, n, sent[n]).(readSeq := n + 1)
  {
    hide MaybeFold, Flatten;
    var n := r.readSeq;
    SumInAdd(sent, r.reorder.Keys - {n}, 0, n);
    assert r.reorder.Keys == r.reorder.Keys - {n} + {n};
  }

  /** Only the two maps matter to their exactness. */
  lemma AccsSame(c: Config, sent: seq<Bytes>, r: RState, t: RState, n: nat)
    requires AccsOk(c, sent, r, n) && t.colAcc == r.colAcc && t.rowAcc == r.rowAcc
    ensures AccsOk(c, sent, t, n)
  {
    hide AccOk;
  }

  lemma {:induction false} DrainOk(c: Config, sent: seq<Bytes>, got: Bytes, r: RState)
    requires CorePre(c, sent, got, r)
    ensures Core(c, sent, got, Drain(c, r)) && Keeps(r, Drain(c, r))
    ensures Drain(c, r).readErr == r.readErr && Drain(c, r).maxSeen == r.maxSeen
    ensures Drain(c, r).cap == r.cap && Drain(c, r).ackPending == r.ackPending
    ensures forall x: nat :: Has(Drain(c, r), x) ==> Has(r, x)
    decreases |r.reorder|
  {
    if r.readSeq in r.reorder {
      hide CorePre, BufOk, TakeBuffered, Drain;
      var r1 := TakeBuffered(c, r);
      DrainUnfold(c, sent, got, r);
      assert BufOk(c, sent, got, r) by {
        CoreHasBuf(c, sent, got, r);
      }
      TakeBufferedBuf(c, sent, got, r);
      TakeBufferedOk(c, sent, got, r);
      assert |r1.reorder| < |r.reorder| by {
        assert |r1.reorder.Keys| == |r.reorder.Keys| - 1;
      }
      DrainOk(c, sent, got, r1);
      KeepsTrans(r, r1, Drain(c, r1));
    }
  }

  lemma CoreHasBuf(c: Config, sent: seq<Bytes>, got: Bytes, r: RState)
    requires CorePre(c, sent, got, r)
    ensures BufOk(c, sent, got, r)
  {
  }

  /** The ring and the read position take one frame, before anything is drained. */
  function TakeInOrder(c: Config, r: RState, payload: Bytes): RState {
    var f := MaybeFold(c, r, r.readSeq, payload);
    f.(ring := f.ring + payload, readSeq := f.readSeq + 1)
  }

  lemma TakeInOrderBuf(c: Config, sent: seq<Bytes>, got: Bytes, r: RState)
    requires BufOk(c, sent, got, r) && r.readSeq !in r.reorder && r.readSeq < |sent|
    ensures var t := TakeInOrder(c, r, sent[r.readSeq]);
            && BufOk(c, sent, got, t) && KeepsBuf(r, t) && t.colPend == r.colPend && t.rowPend == r.rowPend
            && forall x: nat :: Has(t, x) ==> Has(r, x) || x == r.readSeq
  {
    hide MaybeFold, Flatten, SumIn;
    Append(c, sent, got, r);
  }

  lemma TakeInOrderOk(c: Config, sent: seq<Bytes>, got: Bytes, r: RState)
    requires Core(c, sent, got, r) && r.readSeq < |sent|
    ensures var t := TakeInOrder(c, r, sent[r.readSeq]);
            CorePre(c, sent, got, t) && Keeps(r, t) &&
            forall x: nat :: Has(t, x) ==> Has(r, x) || x == r.readSeq
  {
    hide MaybeFold, AccOk, PendOk, BufOk, KeepsBuf, Has;
    var n := r.readSeq;
    TakeInOrderBuf(c, sent, got, r);
    FoldOk(c, sent, r);
    FoldRevivesNone(c, sent, r);
    AccsSame(c, sent, MaybeFold(c, r, n, sent[n]), TakeInOrder(c, r, sent[n]), n + 1);
  }

  lemma GrowOk(c: Config, ramp: set<nat>, sent: seq<Bytes>, got: Bytes, r: RState)
    requires Core(c, sent, got, r)
    ensures Core(c, sent, got, MaybeGrow(c, ramp, r)) && Keeps(r, MaybeGrow(c, ramp, r))
  {
    hide AccOk, PendOk, Genuine;
  }

  lemma EofOk(c: Config, sent: seq<Bytes>, got: Bytes, r: RState)
    requires Core(c, sent, got, r)
    ensures Core(c, sent, got, MaybeEOF(r)) && Keeps(r, MaybeEOF(r))
  {
    hide AccOk, PendOk;
  }

  lemma AdvanceOk(c: Config, ramp: set<nat>, sent: seq<Bytes>, got: Bytes, r: RState)
    requires Core(c, sent, got, r) && FinOk(sent, r) && r.Live() && r.readSeq < |sent|
    ensures var a := Advance(c, ramp, r, sent[r.readSeq]);
            Core(c, sent, got, a) && FinOk(sent, a) && Keeps(r, a) && r.readSeq < a.readSeq &&
            a.maxSeen == r.maxSeen && a.ackPending == r.ackPending &&
            forall x: nat :: Has(a, x) <==> Has(r, x) || x == r.readSeq
  {
    hide MaybeFold, Drain, MaybeGrow, Core, CorePre;
    var r1 := TakeInOrder(c, r, sent[r.readSeq]);
    TakeInOrderOk(c, sent, got, r);
    DrainOk(c, sent, got, r1);
    var r2 := Drain(c, r1);
    GrowOk(c, ramp, sent, got, r2);
    var r3 := MaybeGrow(c, ramp, r2);
    KeepsTrans(r, r1, r2);
    EofOk(c, sent, got, r3);
    KeepsTrans(r, r2, r3);
    KeepsTrans(r, r3, MaybeEOF(r3));
  }

  lemma BufferBuf(c: Config, sent: seq<Bytes>, got: Bytes, r: RState, s: nat)
    requires BufOk(c, sent, got, r) && r.readSeq < s < |sent| && s !in r.reorder
    requires r.reorderBytes + |sent[s]| == SumIn(sent, r.reorder.Keys + {s}, 0)
    ensures BufOk(c, sent, got, Buffer(r, s, sent[s]))
  {
    hide Flatten, SumIn;
    var b := Buffer(r, s, sent[s]);
    assert b.reorder.Keys == r.reorder.Keys + {s};
  }

  lemma BufferKeeps(r: RState, s: nat, payload: Bytes)
    requires r.readSeq <= s
    ensures var b := Buffer(r, s, payload);
            Keeps(r, b) && forall x: nat :: Has(b, x) <==> Has(r, x) || x == s
  {
  }

  lemma BufferOk(c: Config, sent: seq<Bytes>, got: Bytes, r: RState, s: nat)
    requires Core(c, sent, got, r) && FinOk(sent, r) && r.readSeq < s < |sent| && s !in r.reorder
    ensures var b := Buffer(r, s, sent[s]);
            Core(c, sent, got, b) && FinOk(sent, b) && Keeps(r, b) &&
            b.ackPending == r.ackPending && b.maxSeen == r.maxSeen &&
            forall x: nat :: Has(b, x) <==> Has(r, x) || x == s
  {
    ReorderFits(c, sent, got, r, s);
    hide BufOk, PendOk, AccOk, Keeps, Has, SumIn;
    BufferBuf(c, sent, got, r, s);
    BufferKeeps(r, s, sent[s]);
  }

  // --- reconstruction ---

  /** All of a parity's members but possibly the one at index m are here. */
  predicate AllBut(c: Config, r: RState, row: bool, base: nat, count: nat, m: int) {
    forall i: nat :: i < count && i != m ==> Has(r, c.Member(row, base, i))
  }

  predicate AllHere(c: Config, r: RState, row: bool, base: nat, count: nat) {
    forall i: nat :: i < count ==> Has(r, c.Member(row, base, i))
  }

  predicate TwoMissing(c: Config, r: RState, row: bool, base: nat, count: nat) {
    exists i: nat, j: nat :: i < j < count && !Has(r, c.Member(row, base, i)) && !Has(r, c.Member(row, base, j))
  }

  /** The accumulator a reconstruction consults holds exactly the members below readSeq. */
  lemma AccState(c: Config, sent: seq<Bytes>, r: RState, row: bool, base: nat, p: Parity)
    requires c.Valid() && AccsOk(c, sent, r, r.readSeq) && Genuine(c, sent, row, base, p)
    requires r.readSeq <= c.Member(row, base, p.count - 1)
    ensures var k := Below(c, row, base, r.readSeq, c.group);
            k < p.count && Folded(r, row, base) == UpTo(k) &&
            (base in r.Acc(row) ==> r.Acc(row)[base] == AccOf(c, sent, row, base, k)) &&
            (base !in r.Acc(row) ==> k == 0) &&
            forall i: nat :: i < p.count ==> (i < k <==> c.Member(row, base, i) < r.readSeq)
  {
    hide c.IdxOf;
    forall i: nat | i < p.count
      ensures i < Below(c, row, base, r.readSeq, c.group) <==> c.Member(row, base, i) < r.readSeq
    {
      BelowIff(c, row, base, r.readSeq, c.group, i);
    }
    assert AccOk(c, sent, row, r.Acc(row), r.readSeq);
    if base < r.readSeq {
      if p.count < c.group {
        MemberOrder(c, row, base, p.count - 1, c.group - 1);
      }
      assert Straddles(c, row, base, r.readSeq);
    }
    assert base !in r.Acc(row) ==> !(c.Member(row, base, 0) < r.readSeq);
  }

  /** Scanning tells apart a complete group, one missing member, and several. */
  lemma {:induction false} ScanOk(c: Config, r: RState, row: bool, base: nat, count: nat, i: nat, missing: int)
    requires forall j: nat :: j < count ==> (j in Folded(r, row, base) <==> c.Member(row, base, j) < r.readSeq)
    requires i <= count && -1 <= missing < i
    requires AllBut(c, r, row, base, i, missing)
    requires missing >= 0 ==> !Has(r, c.Member(row, base, missing))
    ensures var s := Scan(c, r, row, base, count, i, missing);
            !s.ScanUseless? &&
            (s.ScanPending? ==> TwoMissing(c, r, row, base, count)) &&
            (s.ScanDone? ==> -1 <= s.missing < count && AllBut(c, r, row, base, count, s.missing) &&
                             (s.missing >= 0 ==> !Has(r, c.Member(row, base, s.missing))))
    decreases count - i
  {
    hide c.Member, Folded;
    if i < count {
      var m := c.Member(row, base, i);
      if Has(r, m) {
        assert AllBut(c, r, row, base, i + 1, missing);
        ScanOk(c, r, row, base, count, i + 1, missing);
      } else if missing < 0 {
        ScanOk(c, r, row, base, count, i + 1, i);
      } else {
        assert missing < i < count;
      }
    }
  }

  lemma XorSwap(a: nat, b: nat, d: nat)
    ensures NatXor(NatXor(a, b), d) == NatXor(NatXor(a, d), b)
  {
    NatXorAssoc(a, b, d);
    NatXorComm(b, d);
    NatXorAssoc(a, d, b);
  }

  lemma XorTwice(a: nat, d: nat)
    ensures NatXor(NatXor(a, d), d) == a
  {
    NatXorAssoc(a, d, d);
    NatXorSelf(d);
    NatXorZero(a);
    NatXorComm(0, a);
  }

  /** What is XORed so far: the first n members of the group, without the missing one. */
  ghost predicate LenSoFar(c: Config, sent: seq<Bytes>, row: bool, base: nat, count: nat, m: nat, n: nat, len: nat) {
    var y := NatXor(GroupLen(c, sent, row, base, count), GroupLen(c, sent, row, base, n));
    len == if m < n then NatXor(y, |Chunk(sent, c.Member(row, base, m))|) else y
  }

  ghost predicate DataSoFar(c: Config, sent: seq<Bytes>, row: bool, base: nat, count: nat, m: nat, n: nat, buf: Bytes) {
    && |buf| == |GroupData(c, sent, row, base, count)|
    && forall x: nat ::
         ByteAt(buf, x) ==
         (ByteAt(GroupData(c, sent, row, base, count), x) ^ ByteAt(GroupData(c, sent, row, base, n), x))
         ^ (if m < n then ByteAt(Chunk(sent, c.Member(row, base, m)), x) else 0)
  }

  lemma LenSkip(c: Config, sent: seq<Bytes>, row: bool, base: nat, count: nat, m: nat, len: nat)
    requires LenSoFar(c, sent, row, base, count, m, m, len)
    ensures LenSoFar(c, sent, row, base, count, m, m + 1, len)
  {
    var d := |Chunk(sent, c.Member(row, base, m))|;
    var p, g := GroupLen(c, sent, row, base, count), GroupLen(c, sent, row, base, m);
    NatXorAssoc(p, g, d);
    XorTwice(NatXor(p, g), d);
  }

  lemma LenStep(c: Config, sent: seq<Bytes>, row: bool, base: nat, count: nat, m: nat, n: nat, len: nat)
    requires LenSoFar(c, sent, row, base, count, m, n, len) && n != m
    ensures LenSoFar(c, sent, row, base, count, m, n + 1, NatXor(len, |Chunk(sent, c.Member(row, base, n))|))
  {
    var d := |Chunk(sent, c.Member(row, base, n))|;
    var p, g := GroupLen(c, sent, row, base, count), GroupLen(c, sent, row, base, n);
    NatXorAssoc(p, g, d);
    XorSwap(NatXor(p, g), |Chunk(sent, c.Member(row, base, m))|, d);
  }

  lemma ByteXorLaws(p: byte, g: byte, d: byte, e: byte)
    ensures (p ^ (g ^ d)) ^ d == (p ^ g) ^ 0
    ensures ((p ^ g) ^ e) ^ d == (p ^ (g ^ d)) ^ e
    ensures (p ^ p) ^ d == d
    ensures p ^ 0 == p
  {
  }

  lemma DataSkip(c: Config, sent: seq<Bytes>, row: bool, base: nat, count: nat, m: nat, buf: Bytes)
    requires DataSoFar(c, sent, row, base, count, m, m, buf)
    ensures DataSoFar(c, sent, row, base, count, m, m + 1, buf)
  {
    hide PadXor;
    var d := Chunk(sent, c.Member(row, base, m));
    var p, g := GroupData(c, sent, row, base, count), GroupData(c, sent, row, base, m);
    forall x: nat
      ensures ByteAt(buf, x) ==
              (ByteAt(p, x) ^ ByteAt(GroupData(c, sent, row, base, m + 1), x)) ^ ByteAt(d, x)
    {
      PadXorAt(g, d, x);
      ByteXorLaws(ByteAt(p, x), ByteAt(g, x), ByteAt(d, x), 0);
    }
  }

  lemma DataStep(c: Config, sent: seq<Bytes>, row: bool, base: nat, count: nat, m: nat, n: nat, buf: Bytes)
    requires DataSoFar(c, sent, row, base, count, m, n, buf) && n != m && n < count
    ensures |Chunk(sent, c.Member(row, base, n))| <= |buf|
    ensures DataSoFar(c, sent, row, base, count, m, n + 1, PadXor(buf, Chunk(sent, c.Member(row, base, n))))
  {
    hide PadXor;
    var d := Chunk(sent, c.Member(row, base, n));
    var p, g := GroupData(c, sent, row, base, count), GroupData(c, sent, row, base, n);
    GroupDataCovers(c, sent, row, base, count, n);
    forall x: nat
      ensures ByteAt(PadXor(buf, d), x) ==
              (ByteAt(p, x) ^ ByteAt(GroupData(c, sent, row, base, n + 1), x))
              ^ (if m < n + 1 then ByteAt(Chunk(sent, c.Member(row, base, m)), x) else 0)
    {
      PadXorAt(buf, d, x);
      PadXorAt(g, d, x);
      var e := if m < n then ByteAt(Chunk(sent, c.Member(row, base, m)), x) else 0;
      ByteXorLaws(ByteAt(p, x), ByteAt(g, x), ByteAt(d, x), e);
    }
  }

  /** XORing in every buffered member leaves the missing one. */
  lemma {:induction false} RebuildOk(c: Config, sent: seq<Bytes>, r: RState, row: bool, base: nat, count: nat,
                                     m: nat, k: nat, i: nat, buf: Bytes, len: nat)
    requires Folded(r, row, base) == UpTo(k) && k <= m < count && i <= count
    requires forall j: nat :: k <= j < count && j != m ==>
               var s := c.Member(row, base, j); s in r.reorder && r.reorder[s] == Chunk(sent, s)
    requires DataSoFar(c, sent, row, base, count, m, Max(i, k), buf)
    requires LenSoFar(c, sent, row, base, count, m, Max(i, k), len)
    ensures var b := Rebuild(c, r, row, base, count, m, i, buf, len);
            b.Rebuilt? && DataSoFar(c, sent, row, base, count, m, count, b.buf) &&
            LenSoFar(c, sent, row, base, count, m, count, b.len)
    decreases count - i
  {
    hide DataSoFar, LenSoFar, PadXor;
    if i < count {
      if i < k {
        RebuildOk(c, sent, r, row, base, count, m, k, i + 1, buf, len);
      } else if i == m {
        DataSkip(c, sent, row, base, count, m, buf);
        LenSkip(c, sent, row, base, count, m, len);
        RebuildOk(c, sent, r, row, base, count, m, k, i + 1, buf, len);
      } else {
        var data := Chunk(sent, c.Member(row, base, i));
        DataStep(c, sent, row, base, count, m, i, buf);
        LenStep(c, sent, row, base, count, m, i, len);
        RebuildOk(c, sent, r, row, base, count, m, k, i + 1, PadXor(buf, data), NatXor(len, |data|));
      }
    }
  }

  lemma SolveFrom(c: Config, sent: seq<Bytes>, r: RState, row: bool, base: nat, p: Parity, m: nat, k: nat)
    requires p.data == GroupData(c, sent, row, base, p.count) && p.lenXor == GroupLen(c, sent, row, base, p.count)
    requires Folded(r, row, base) == UpTo(k) && k <= m < p.count
    requires base in r.Acc(row) ==> r.Acc(row)[base] == AccOf(c, sent, row, base, k)
    requires base !in r.Acc(row) ==> k == 0
    requires forall j: nat :: k <= j < p.count && j != m ==>
               var s := c.Member(row, base, j); s in r.reorder && r.reorder[s] == Chunk(sent, s)
    ensures base in r.Acc(row) ==> |r.Acc(row)[base].data| <= |p.data|
    ensures var b := Solve(c, r, row, base, p, m);
            b.Rebuilt? && b.len <= |p.data| && b.len <= |b.buf| &&
            b.len == |Chunk(sent, c.Member(row, base, m))| && b.buf[..b.len] == Chunk(sent, c.Member(row, base, m))
  {
    hide PadXor, GroupData, GroupLen, DataSoFar, LenSoFar, Rebuild, Chunk, c.Member;
    GroupDataCovers(c, sent, row, base, p.count, k);
    SolveStart(c, sent, r, row, base, p, m, k);
    var b := Solve(c, r, row, base, p, m);
    if base in r.Acc(row) {
      var a := r.Acc(row)[base];
      RebuildOk(c, sent, r, row, base, p.count, m, k, 0, PadXor(p.data, a.data), NatXor(p.lenXor, a.lenXor));
    } else {
      RebuildOk(c, sent, r, row, base, p.count, m, k, 0, p.data, p.lenXor);
    }
    SolveEnd(c, sent, row, base, p.count, m, b.buf, b.len);
  }

  /** A reconstruction yields the frame that was sent: its bytes and its length. */
  lemma SolveOk(c: Config, sent: seq<Bytes>, got: Bytes, r: RState, row: bool, base: nat, p: Parity, m: nat)
    requires CorePre(c, sent, got, r) && Genuine(c, sent, row, base, p)
    requires r.readSeq <= c.Member(row, base, p.count - 1)
    requires m < p.count && AllBut(c, r, row, base, p.count, m) && !Has(r, c.Member(row, base, m))
    ensures c.Member(row, base, m) < |sent|
    ensures base in r.Acc(row) ==> |r.Acc(row)[base].data| <= |p.data|
    ensures var b := Solve(c, r, row, base, p, m);
            b.Rebuilt? && 0 < b.len <= |p.data| && b.buf[..b.len] == sent[c.Member(row, base, m)]
  {
    hide c.IdxOf, GroupData, GroupLen, Solve, AccsOk, PendOk, c.Member, AccOf, Below;
    if m < p.count - 1 {
      MemberOrder(c, row, base, m, p.count - 1);
    }
    AccState(c, sent, r, row, base, p);
    var k := Below(c, row, base, r.readSeq, c.group);
    MembersBuffered(c, sent, got, r, row, base, p, m, k);
    SolveFrom(c, sent, r, row, base, p, m, k);
  }

  lemma MembersBuffered(c: Config, sent: seq<Bytes>, got: Bytes, r: RState, row: bool, base: nat, p: Parity,
                        m: nat, k: nat)
    requires BufOk(c, sent, got, r) && AllBut(c, r, row, base, p.count, m)
    requires forall i: nat :: i < p.count ==> (i < k <==> c.Member(row, base, i) < r.readSeq)
    ensures forall j: nat :: k <= j < p.count && j != m ==>
              var s := c.Member(row, base, j); s in r.reorder && r.reorder[s] == Chunk(sent, s)
  {
  }

  lemma SolveStart(c: Config, sent: seq<Bytes>, r: RState, row: bool, base: nat, p: Parity, m: nat, k: nat)
    requires p.data == GroupData(c, sent, row, base, p.count) && p.lenXor == GroupLen(c, sent, row, base, p.count)
    requires k <= m < p.count
    requires base in r.Acc(row) ==> r.Acc(row)[base] == AccOf(c, sent, row, base, k)
    requires base !in r.Acc(row) ==> k == 0
    ensures base in r.Acc(row) ==>
              var a := r.Acc(row)[base];
              DataSoFar(c, sent, row, base, p.count, m, k, PadXor(p.data, a.data)) &&
              LenSoFar(c, sent, row, base, p.count, m, k, NatXor(p.lenXor, a.lenXor))
    ensures base !in r.Acc(row) ==>
              DataSoFar(c, sent, row, base, p.count, m, k, p.data) &&
              LenSoFar(c, sent, row, base, p.count, m, k, p.lenXor)
  {
    hide PadXor;
    var g := GroupData(c, sent, row, base, k);
    GroupDataCovers(c, sent, row, base, p.count, k);
    NatXorZero(p.lenXor);
    NatXorComm(0, p.lenXor);
    forall x: nat
      ensures ByteAt(PadXor(p.data, g), x) == (ByteAt(p.data, x) ^ ByteAt(g, x)) ^ 0
      ensures ByteAt(p.data, x) == (ByteAt(p.data, x) ^ 0) ^ 0
    {
      PadXorAt(p.data, g, x);
      ByteXorLaws(ByteAt(p.data, x) ^ ByteAt(g, x), 0, 0, 0);
      ByteXorLaws(ByteAt(p.data, x), 0, 0, 0);
    }
  }

  lemma SolveEnd(c: Config, sent: seq<Bytes>, row: bool, base: nat, count: nat, m: nat, buf: Bytes, len: nat)
    requires m < count
    requires DataSoFar(c, sent, row, base, count, m, count, buf)
    requires LenSoFar(c, sent, row, base, count, m, count, len)
    ensures var d := Chunk(sent, c.Member(row, base, m)); len == |d| <= |buf| && buf[..len] == d
  {
    hide GroupData;
    var d := Chunk(sent, c.Member(row, base, m));
    var p := GroupData(c, sent, row, base, count);
    NatXorSelf(GroupLen(c, sent, row, base, count));
    NatXorZero(|d|);
    GroupDataCovers(c, sent, row, base, count, m);
    forall x | 0 <= x < len ensures buf[x] == d[x] {
      ByteXorLaws(ByteAt(p, x), 0, ByteAt(d, x), 0);
      assert ByteAt(buf, x) == ByteAt(d, x);
    }
  }
}
