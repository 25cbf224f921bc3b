/**
 * The write side of a stream as a value: chunking under two windows, the parity
 * lanes, and the position of the FIN.  `sent` is the history of chunks; its length
 * is the next sequence number.
 */
module Sender {
  import opened Bytes
  import opened Geometry
  import opened Receiver
  import opened Exactness
  import opened Wire
  import opened Ledger

  /** One parity group in progress. */
  datatype Lane = Lane(base: nat, count: nat, data: Bytes, lenXor: nat)

  const EMPTY_LANE := Lane(0, 0, [], 0)

  datatype SState = SState(
    sent: seq<Bytes>,
    fin: bool,            // FIN or RESET sent: no further writes
    failed: bool,         // the write side was aborted
    maxOffset: nat,       // watermark granted by the peer
    sentOffset: nat,
    ackedBytes: nat,
    lanes: seq<Lane>,     // empty until the first fold
    rowLane: Lane,
    unacked: Unacked,
    ackedThrough: nat)

  function Begin(c: Config): SState
    requires c.Valid()
  {
    SState([], false, false, c.InitialWindow(), 0, 0, [], EMPTY_LANE, map[], 0)
  }

  // --- parity lanes ---

  function FoldLane(ln: Lane, sn: nat, chunk: Bytes): Lane {
    Lane(if ln.count == 0 then sn else ln.base, ln.count + 1, PadXor(ln.data, chunk), NatXor(ln.lenXor, |chunk|))
  }

  function Emission(ln: Lane, row: bool): set<Frame> {
    if ln.count == 0 then {} else {ParityFrame(row, ln.base, Parity(ln.count, ln.lenXor, ln.data))}
  }

  function ResetLane(ln: Lane): Lane {
    ln.(count := 0, data := [], lenXor := 0)
  }

  /** Folds one chunk into a lane, and empties it onto the wire when the group is full. */
  function FoldEmit(c: Config, ln: Lane, row: bool, sn: nat, chunk: Bytes): (Lane, set<Frame>) {
    var f := FoldLane(ln, sn, chunk);
    if f.count >= c.group then (ResetLane(f), Emission(f, row)) else (f, {})
  }

  function LanesOf(c: Config, s: SState): seq<Lane> {
    if s.lanes == [] then seq(c.group, _ => EMPTY_LANE) else s.lanes
  }

  datatype Out = Out(s: SState, frames: set<Frame>)

  function FecFold(c: Config, s: SState, sn: nat, chunk: Bytes): (o: Out)
    requires s.lanes == [] || |s.lanes| == c.group
    ensures o.s.lanes == [] || |o.s.lanes| == c.group
  {
    if c.group == 0 then Out(s, {})
    else
      var lanes, l := LanesOf(c, s), c.Lane(sn);
      var col := FoldEmit(c, lanes[l], false, sn, chunk);
      var s1 := s.(lanes := lanes[l := col.0]);
      if !c.twoD then Out(s1, col.1)
      else
        var row := FoldEmit(c, s.rowLane, true, sn, chunk);
        Out(s1.(rowLane := row.0), col.1 + row.1)
  }

  // --- writing ---

  /** Neither window is exceeded by the next chunk. */
  predicate MayWrite(s: SState, n: nat, limit: int) {
    s.sentOffset + n <= s.maxOffset && s.sentOffset - s.ackedBytes + n <= limit
  }

  function WriteChunk(c: Config, s: SState, chunk: Bytes): (o: Out)
    requires s.lanes == [] || |s.lanes| == c.group
    ensures o.s.lanes == [] || |o.s.lanes| == c.group
  {
    var sn := |s.sent|;
    var s1 := s.(sent := s.sent + [chunk], sentOffset := s.sentOffset + |chunk|, unacked := s.unacked[sn := chunk]);
    var o := FecFold(c, s1, sn, chunk);
    Out(o.s, {DataFrame(sn, chunk)} + o.frames)
  }

  datatype Wrote = Wrote(s: SState, frames: set<Frame>, n: nat)

  /** Write of p: full chunks until p is exhausted, the write side ends, or a window would be exceeded. */
  function WriteAll(c: Config, s: SState, p: Bytes, limit: int): Wrote
    requires c.Valid() && (s.lanes == [] || |s.lanes| == c.group)
    decreases |p|
  {
    var k := Min(|p|, c.DataCap());
    if p == [] || s.fin || s.failed || !MayWrite(s, k, limit) then Wrote(s, {}, 0)
    else
      var o := WriteChunk(c, s, p[..k]);
      var w := WriteAll(c, o.s, p[k..], limit);
      Wrote(w.s, o.frames + w.frames, k + w.n)
  }

  /** The next chunk of p can be sent. */
  predicate CanSend(c: Config, s: SState, p: Bytes, limit: int)
    requires c.Valid()
  {
    p != [] && !s.fin && !s.failed && MayWrite(s, Min(|p|, c.DataCap()), limit)
  }

  lemma WriteAllUnfold(c: Config, s: SState, p: Bytes, limit: int)
    requires c.Valid() && (s.lanes == [] || |s.lanes| == c.group)
    ensures !CanSend(c, s, p, limit) ==> WriteAll(c, s, p, limit) == Wrote(s, {}, 0)
    ensures CanSend(c, s, p, limit) ==>
              var k := Min(|p|, c.DataCap());
              var o := WriteChunk(c, s, p[..k]);
              var w := WriteAll(c, o.s, p[k..], limit);
              WriteAll(c, s, p, limit) == Wrote(w.s, o.frames + w.frames, k + w.n)
  {
    hide WriteChunk;
  }

  /** The chunks of a write are the bytes it accepted, none of them empty or too long; it stops early only if it must. */
  lemma {:induction false} WriteAllBytes(c: Config, s: SState, p: Bytes, limit: int)
    requires c.Valid() && (s.lanes == [] || |s.lanes| == c.group) && ChunksOk(c, s.sent)
    ensures var w := WriteAll(c, s, p, limit);
            w.n <= |p| && Flatten(w.s.sent) == Flatten(s.sent) + p[..w.n] && ChunksOk(c, w.s.sent) &&
            !CanSend(c, w.s, p[w.n..], limit)
    decreases |p|
  {
    hide WriteAll, WriteChunk, Flatten;
    WriteAllUnfold(c, s, p, limit);
    if CanSend(c, s, p, limit) {
      hide CanSend;
      var k := Min(|p|, c.DataCap());
      var o := WriteChunk(c, s, p[..k]);
      WriteKeeps(c, s, p[..k]);
      FlattenSnoc(s.sent, p[..k]);
      assert ChunksOk(c, o.s.sent);
      WriteAllBytes(c, o.s, p[k..], limit);
      var w := WriteAll(c, o.s, p[k..], limit);
      assert p[..k + w.n] == p[..k] + p[k..][..w.n];
      assert p[k..][w.n..] == p[k + w.n..];
    } else {
      assert p[..0] == [] && p[0..] == p;
    }
  }

  /** Every chunk of a write but the last of its bytes is a full one. */
  lemma {:induction false} WriteAllFull(c: Config, s: SState, p: Bytes, limit: int, i: nat)
    requires c.Valid() && (s.lanes == [] || |s.lanes| == c.group)
    requires |s.sent| <= i < |WriteAll(c, s, p, limit).s.sent|
    ensures var w := WriteAll(c, s, p, limit);
            |w.s.sent[i]| == c.DataCap() || (i == |w.s.sent| - 1 && w.n == |p|)
    decreases |p|
  {
    hide WriteAll, WriteChunk;
    WriteAllUnfold(c, s, p, limit);
    if CanSend(c, s, p, limit) {
      hide CanSend;
      var k := Min(|p|, c.DataCap());
      var o := WriteChunk(c, s, p[..k]);
      WriteKeeps(c, s, p[..k]);
      WriteAllGrows(c, o.s, p[k..], limit);
      if i > |s.sent| {
        WriteAllFull(c, o.s, p[k..], limit, i);
      } else if k < c.DataCap() {
        WriteNothing(c, o.s, limit);
        assert p[k..] == [];
      }
    }
  }

  lemma WriteNothing(c: Config, s: SState, limit: int)
    requires c.Valid() && (s.lanes == [] || |s.lanes| == c.group)
    ensures WriteAll(c, s, [], limit) == Wrote(s, {}, 0)
  {
  }

  lemma {:induction false} WriteAllGrows(c: Config, s: SState, p: Bytes, limit: int)
    requires c.Valid() && (s.lanes == [] || |s.lanes| == c.group)
    ensures s.sent <= WriteAll(c, s, p, limit).s.sent
    decreases |p|
  {
    hide WriteAll, WriteChunk;
    WriteAllUnfold(c, s, p, limit);
    if CanSend(c, s, p, limit) {
      hide CanSend;
      var k := Min(|p|, c.DataCap());
      WriteKeeps(c, s, p[..k]);
      WriteAllGrows(c, WriteChunk(c, s, p[..k]).s, p[k..], limit);
    }
  }

  /** What a write changes besides the lanes. */
  lemma WriteKeeps(c: Config, s: SState, chunk: Bytes)
    requires s.lanes == [] || |s.lanes| == c.group
    ensures var t := WriteChunk(c, s, chunk).s;
            t == s.(sent := s.sent + [chunk], sentOffset := s.sentOffset + |chunk|,
                    unacked := s.unacked[|s.sent| := chunk], lanes := t.lanes, rowLane := t.rowLane)
  {
  }

  /** The parity of every lane in progress, short groups included. */
  function FlushLanes(lanes: seq<Lane>): set<Frame> {
    if lanes == [] then {} else FlushLanes(lanes[..|lanes| - 1]) + Emission(lanes[|lanes| - 1], false)
  }

  function ResetLanes(lanes: seq<Lane>): seq<Lane> {
    seq(|lanes|, i requires 0 <= i < |lanes| => ResetLane(lanes[i]))
  }

  function CloseWrite(s: SState): Out {
    if s.fin || s.failed then Out(s, {})
    else
      var sn := |s.sent|;
      Out(s.(fin := true, lanes := ResetLanes(s.lanes), rowLane := ResetLane(s.rowLane),
             unacked := s.unacked[sn := []]),
          FlushLanes(s.lanes) + Emission(s.rowLane, true) + {FinFrame(sn)})
  }

  function AbortWrite(s: SState, code: Bytes): Out {
    if s.fin || s.failed then Out(s, {})
    else
      var sn := |s.sent|;
      Out(s.(fin := true, failed := true, lanes := [], rowLane := EMPTY_LANE,
             unacked := map[sn := code], ackedThrough := 0),
          {ResetFrame(sn)})
  }

  // --- acknowledgements and credit ---

  function HandleAck(s: SState, cum: nat, seqs: seq<nat>): SState {
    var a := AckCumulative(s.unacked, s.ackedThrough, cum);
    var b := SweepList(a.rest, seqs);
    s.(unacked := b.rest, ackedThrough := a.through, ackedBytes := s.ackedBytes + a.freed + b.freed)
  }

  function SetMaxOffset(s: SState, offset: nat): SState {
    if offset > s.maxOffset then s.(maxOffset := offset) else s
  }

  // --- the lanes agree with the static geometry ---

  /** The lane holds exactly the members of the group of sn that come before sn. */
  predicate LaneIs(c: Config, sent: seq<Bytes>, row: bool, ln: Lane, sn: nat) {
    && ln.count == c.IdxOf(row, sn)
    && (ln.count > 0 ==> ln.base == c.BaseOf(row, sn))
    && ln.data == GroupData(c, sent, row, c.BaseOf(row, sn), ln.count)
    && ln.lenXor == GroupLen(c, sent, row, c.BaseOf(row, sn), ln.count)
  }

  /** The next sequence number, from n on, of column lane l. */
  function NextIn(c: Config, n: nat, l: nat): nat
    requires c.group > 0 && l < c.group
  {
    if c.Lane(n) <= l then n + (l - c.Lane(n)) else n + c.group - (c.Lane(n) - l)
  }

  ghost predicate LanesOk(c: Config, s: SState) {
    if c.group == 0 then s.lanes == [] && s.rowLane.count == 0
    else
      && (s.lanes == [] || |s.lanes| == c.group)
      && (forall l: nat :: l < c.group ==> LaneIs(c, s.sent, false, LanesOf(c, s)[l], NextIn(c, |s.sent|, l)))
      && (c.twoD ==> LaneIs(c, s.sent, true, s.rowLane, |s.sent|))
      && (!c.twoD ==> s.rowLane.count == 0)
  }

  lemma {:induction false} LaneInc(c: Config, n: nat)
    requires c.group > 1
    ensures c.Lane(n + 1) == if c.Lane(n) + 1 == c.group then 0 else c.Lane(n) + 1
  {
    if n >= c.group {
      LaneInc(c, n - c.group);
      assert n + 1 - c.group == n - c.group + 1;
    } else if n + 1 == c.group {
      assert c.Lane(0) == 0;
    }
  }

  /** Passing n moves the next position of the lane of n by G, and of no other lane. */
  lemma NextInStep(c: Config, n: nat, l: nat)
    requires c.group > 1 && l < c.group
    ensures NextIn(c, n + 1, l) == if l == c.Lane(n) then n + c.group else NextIn(c, n, l)
    ensures l == c.Lane(n) ==> NextIn(c, n, l) == n
  {
    LaneInc(c, n);
  }

  lemma LanesBegin(c: Config)
    requires c.Valid()
    ensures LanesOk(c, Begin(c))
  {
    if c.group > 0 {
      forall l: nat | l < c.group ensures LaneIs(c, [], false, LanesOf(c, Begin(c))[l], NextIn(c, 0, l)) {
        assert c.Lane(0) == 0;
        assert c.ColIdx(l) == 0;
      }
    }
  }

  /** A group in progress has all its members so far below n, so later frames do not change it. */
  lemma LaneGrow(c: Config, sent: seq<Bytes>, t: seq<Bytes>, row: bool, ln: Lane, sn: nat)
    requires c.group > 0 && sent <= t && LaneIs(c, sent, row, ln, sn)
    requires ln.count > 0 ==> c.Member(row, c.BaseOf(row, sn), ln.count - 1) < |sent|
    ensures LaneIs(c, t, row, ln, sn)
  {
    hide c.BaseOf, c.IdxOf;
    GroupGrow(c, sent, t, row, c.BaseOf(row, sn), ln.count);
  }

  lemma PrevMember(c: Config, row: bool, sn: nat)
    requires c.group > 0 && c.IdxOf(row, sn) > 0
    ensures c.Member(row, c.BaseOf(row, sn), c.IdxOf(row, sn) - 1) == sn - c.Stride(row)
  {
    SeqIsMember(c, row, sn);
  }

  /** Where a lane goes after sn. */
  function After(c: Config, row: bool, sn: nat): nat {
    sn + (if row then 1 else c.group)
  }

  lemma AfterStep(c: Config, row: bool, sn: nat)
    requires c.group > 1
    ensures c.IdxOf(row, After(c, row, sn)) == if c.IdxOf(row, sn) + 1 == c.group then 0 else c.IdxOf(row, sn) + 1
    ensures c.IdxOf(row, sn) + 1 < c.group ==> c.BaseOf(row, After(c, row, sn)) == c.BaseOf(row, sn)
  {
    if row {
      LaneInc(c, sn);
    } else {
      assert sn + c.group - c.group == sn;
    }
  }

  /** Folding the frame a lane waits for leaves the lane waiting for the next one; a full group is emitted exactly. */
  lemma FoldEmitOk(c: Config, sent: seq<Bytes>, row: bool, ln: Lane, chunk: Bytes)
    requires c.Valid() && Uses(c, row) && LaneIs(c, sent, row, ln, |sent|)
    ensures var f := FoldEmit(c, ln, row, |sent|, chunk);
            LaneIs(c, sent + [chunk], row, f.0, After(c, row, |sent|)) &&
            forall x :: x in f.1 ==>
              x.ParityFrame? && x.row == row && x.p.count == c.group &&
              Genuine(c, sent + [chunk], row, x.base, x.p)
  {
    hide c.BaseOf, c.IdxOf, c.Member;
    var n, t := |sent|, sent + [chunk];
    var base, idx := c.BaseOf(row, n), c.IdxOf(row, n);
    var f := FoldLane(ln, n, chunk);
    SeqIsMember(c, row, n);
    AfterStep(c, row, n);
    if idx > 0 {
      PrevMember(c, row, n);
    } else {
      BaseItself(c, row, n);
    }
    LaneGrow(c, sent, t, row, ln, n);
    assert Chunk(t, n) == chunk;
    assert f.data == GroupData(c, t, row, base, idx + 1) && f.lenXor == GroupLen(c, t, row, base, idx + 1);
    assert f.base == base && f.count == idx + 1;
  }

  lemma BaseItself(c: Config, row: bool, sn: nat)
    requires c.group > 0 && c.IdxOf(row, sn) == 0
    ensures c.BaseOf(row, sn) == sn
  {
    MemberOfGroup(c, row, sn, 0);
  }

  /** A lane that is not the one being folded keeps waiting for the same frame. */
  lemma OtherLaneOk(c: Config, s: SState, chunk: Bytes, l: nat)
    requires c.Valid() && c.group > 0 && LanesOk(c, s) && l < c.group && l != c.Lane(|s.sent|)
    ensures LaneIs(c, s.sent + [chunk], false, LanesOf(c, s)[l], NextIn(c, |s.sent| + 1, l))
  {
    hide GroupData, GroupLen;
    var n := |s.sent|;
    NextInStep(c, n, l);
    var sn, ln := NextIn(c, n, l), LanesOf(c, s)[l];
    assert LaneIs(c, s.sent, false, ln, sn);
    if ln.count > 0 {
      PrevMember(c, false, sn);
    }
    LaneGrow(c, s.sent, s.sent + [chunk], false, ln, sn);
  }

  /** Writing keeps the lanes in step with the geometry, and every parity it emits is exact. */
  lemma FecFoldOk(c: Config, s: SState, chunk: Bytes)
    requires c.Valid() && c.group > 0 && LanesOk(c, s)
    ensures var s1 := s.(sent := s.sent + [chunk]);
            var o := FecFold(c, s1, |s.sent|, chunk);
            LanesOk(c, o.s) &&
            forall x :: x in o.frames ==>
              x.ParityFrame? && x.p.count == c.group && Genuine(c, s1.sent, x.row, x.base, x.p)
  {
    hide LaneIs, Genuine, FoldEmit;
    var n, t := |s.sent|, s.sent + [chunk];
    var s1 := s.(sent := t);
    var o := FecFold(c, s1, n, chunk);
    var k := c.Lane(n);
    NextInStep(c, n, k);
    FoldEmitOk(c, s.sent, false, LanesOf(c, s)[k], chunk);
    if c.twoD {
      FoldEmitOk(c, s.sent, true, s.rowLane, chunk);
    }
    forall l: nat | l < c.group ensures LaneIs(c, t, false, LanesOf(c, o.s)[l], NextIn(c, n + 1, l)) {
      NextInStep(c, n, l);
      if l != k {
        OtherLaneOk(c, s, chunk, l);
      }
    }
  }

  /** The member count a parity of this group can have: a full group, or what the close found in progress. */
  predicate GroupCount(c: Config, s: SState, row: bool, base: nat, count: nat) {
    && c.IsBase(row, base)
    && 0 < count <= c.group
    && c.Member(row, base, count - 1) < |s.sent|
    && (count == c.group || (s.fin && count == Below(c, row, base, |s.sent|, c.group)))
  }

  /** A parity that may be on the wire. */
  predicate OnWire(c: Config, s: SState, row: bool, base: nat, p: Parity) {
    Genuine(c, s.sent, row, base, p) && GroupCount(c, s, row, base, p.count)
  }

  /** A lane in progress is emitted with exactly the members that were sent. */
  lemma ShortGroupOk(c: Config, sent: seq<Bytes>, row: bool, ln: Lane, sn: nat)
    requires c.Valid() && Uses(c, row) && LaneIs(c, sent, row, ln, sn) && ln.count > 0
    requires |sent| <= sn && sn - c.Stride(row) < |sent|
    ensures Genuine(c, sent, row, ln.base, Parity(ln.count, ln.lenXor, ln.data))
    ensures ln.count == Below(c, row, ln.base, |sent|, c.group)
  {
    hide c.BaseOf, c.IdxOf, GroupData, GroupLen;
    SeqIsMember(c, row, sn);
    PrevMember(c, row, sn);
    BelowUnique(c, row, ln.base, |sent|, c.group, ln.count);
  }

  lemma {:induction false} FlushLanesFrom(lanes: seq<Lane>, x: Frame) returns (l: nat)
    requires x in FlushLanes(lanes)
    ensures l < |lanes| && x in Emission(lanes[l], false)
  {
    if x in Emission(lanes[|lanes| - 1], false) {
      l := |lanes| - 1;
    } else {
      l := FlushLanesFrom(lanes[..|lanes| - 1], x);
    }
  }

  /** Closing emits only exact parities and the FIN at the position after the last frame. */
  lemma CloseWriteOk(c: Config, s: SState, x: Frame)
    requires c.Valid() && LanesOk(c, s) && !s.fin && !s.failed && x in CloseWrite(s).frames
    ensures x == FinFrame(|s.sent|) ||
            (x.ParityFrame? && OnWire(c, CloseWrite(s).s, x.row, x.base, x.p))
  {
    hide GroupData, GroupLen, LaneIs, c.IdxOf;
    var n := |s.sent|;
    if x in FlushLanes(s.lanes) {
      var l := FlushLanesFrom(s.lanes, x);
      NextBound(c, n, l);
      ShortGroupOk(c, s.sent, false, s.lanes[l], NextIn(c, n, l));
    } else if x in Emission(s.rowLane, true) {
      ShortGroupOk(c, s.sent, true, s.rowLane, n);
    }
  }

  lemma NextBound(c: Config, n: nat, l: nat)
    requires c.group > 0 && l < c.group
    ensures n <= NextIn(c, n, l) < n + c.group
  {
  }

  /** A group has only one member count, so at most one parity. */
  lemma OneCountPerGroup(c: Config, s: SState, row: bool, base: nat, m: nat, n: nat)
    requires GroupCount(c, s, row, base, m) && GroupCount(c, s, row, base, n)
    ensures m == n
  {
    hide c.IdxOf;
    if m != n {
      BelowIff(c, row, base, |s.sent|, c.group, c.group - 1);
    }
  }

  lemma GroupCountGrows(c: Config, s: SState, t: SState, row: bool, base: nat, count: nat)
    requires GroupCount(c, s, row, base, count) && |s.sent| <= |t.sent| && (s.fin ==> t.fin && t.sent == s.sent)
    ensures GroupCount(c, t, row, base, count)
  {
  }

  lemma OnWireGrows(c: Config, s: SState, t: SState, row: bool, base: nat, p: Parity)
    requires OnWire(c, s, row, base, p) && s.sent <= t.sent && (s.fin ==> t.fin && t.sent == s.sent)
    ensures OnWire(c, t, row, base, p)
  {
    hide c.IdxOf;
    GroupGrow(c, s.sent, t.sent, row, base, p.count);
  }
}
