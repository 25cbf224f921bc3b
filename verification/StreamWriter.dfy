/** The write side of a stream, updated in place.  Each method refines a function of `Sender`. */
module StreamWriters {
  import opened Bytes
  import opened Geometry
  import opened StaticKeys
  import opened Receiver
  import opened Wire
  import opened Ledger
  import opened Sender

  /** One parity group in progress: a fixed buffer XORed in place, zero past its longest member. */
  class FecLane {
    const cap: nat
    const xor: array<byte>
    var maxLen: nat
    var lenXor: nat
    var count: nat
    var base: nat

    ghost predicate Valid()
      reads this, xor
    {
      && xor.Length == cap && maxLen <= cap
      && (forall i :: maxLen <= i < cap ==> xor[i] == 0)
      && (count == 0 ==> maxLen == 0 && lenXor == 0)
    }

    ghost function View(): Lane
      reads this, xor
      requires Valid()
    {
      Lane(base, count, xor[..maxLen], lenXor)
    }

    constructor (n: nat)
      ensures Valid() && cap == n && View() == EMPTY_LANE && fresh(xor)
    {
      cap := n;
      xor := new byte[n](_ => 0);
      maxLen, lenXor, count, base := 0, 0, 0, 0;
    }

    /** dst[i] ^= src[i] for every i of src. */
    method XorInto(src: Bytes)
      requires |src| <= xor.Length
      modifies xor
      ensures forall i :: 0 <= i < |src| ==> xor[i] == old(xor[i]) ^ src[i]
      ensures forall i :: |src| <= i < xor.Length ==> xor[i] == old(xor[i])
    {
      var i := 0;
      while i < |src|
        invariant i <= |src|
        invariant forall j :: 0 <= j < i ==> xor[j] == old(xor[j]) ^ src[j]
        invariant forall j :: i <= j < xor.Length ==> xor[j] == old(xor[j])
      {
        xor[i] := xor[i] ^ src[i];
        i := i + 1;
      }
    }

    method Fold(sn: nat, chunk: Bytes)
      requires Valid() && |chunk| <= cap
      modifies this, xor
      ensures Valid() && View() == FoldLane(old(View()), sn, chunk)
    {
      ghost var was := xor[..];
      if count == 0 {
        base := sn;
      }
      XorInto(chunk);
      Folded(was, maxLen, chunk, xor[..]);
      if |chunk| > maxLen {
        maxLen := |chunk|;
      }
      lenXor := NatXor(lenXor, |chunk|);
      count := count + 1;
    }

    /** XORing in place over a zero-padded buffer is the padded XOR. */
    static lemma Folded(was: Bytes, maxLen: nat, chunk: Bytes, now: Bytes)
      requires maxLen <= |was| == |now| && |chunk| <= |was|
      requires forall i :: maxLen <= i < |was| ==> was[i] == 0
      requires forall i :: 0 <= i < |chunk| ==> now[i] == was[i] ^ chunk[i]
      requires forall i :: |chunk| <= i < |was| ==> now[i] == was[i]
      ensures now[..Max(maxLen, |chunk|)] == PadXor(was[..maxLen], chunk)
    {
      var d, e := now[..Max(maxLen, |chunk|)], PadXor(was[..maxLen], chunk);
      forall i | 0 <= i < |d| ensures d[i] == e[i] {
        XorZero(was[i]);
        PadXorAt(was[..maxLen], chunk, i);
        assert ByteAt(e, i) == e[i];
      }
    }

    static lemma XorZero(b: byte)
      ensures b ^ 0 == b
    {
    }

    /** Hands over the group's parity, if it has members, and empties the lane. */
    method Emit(row: bool) returns (frames: set<Frame>)
      requires Valid()
      modifies this, xor
      ensures Valid() && frames == Emission(old(View()), row)
      ensures View() == ResetLane(old(View()))
    {
      if count == 0 {
        return {};
      }
      frames := {ParityFrame(row, base, Parity(count, lenXor, xor[..maxLen]))};
      var i := 0;
      while i < maxLen
        invariant i <= maxLen
        invariant forall j :: 0 <= j < i ==> xor[j] == 0
        invariant forall j :: maxLen <= j < cap ==> xor[j] == 0
        modifies xor
      {
        xor[i] := 0;
        i := i + 1;
      }
      maxLen, lenXor, count := 0, 0, 0;
    }
  }

  class StreamWriter {
    const cfg: Config
    ghost var sent: seq<Bytes>      // history of the chunks
    var writeSeq: nat
    var writeFIN: bool
    var aborted: bool
    var maxSendOffset: nat
    var sentOffset: nat
    var ackedBytes: nat
    var fecLanes: seq<FecLane>      // empty until the first fold
    var fecRowLane: FecLane
    ghost var unacked: Unacked      // this stream's share of the connection's retransmit queue
    ghost var ackedThrough: nat     // and of its watermarks

    /** The lanes and their buffers. */
    ghost function Owned(): set<object>
      reads this
    {
      (set i | 0 <= i < |fecLanes| :: fecLanes[i] as object) +
      (set i | 0 <= i < |fecLanes| :: fecLanes[i].xor as object) +
      {fecRowLane as object, fecRowLane.xor as object}
    }

    ghost predicate Valid()
      reads this, Owned()
    {
      && cfg.Valid()
      && writeSeq == |sent|
      && (fecLanes == [] || |fecLanes| == cfg.group)
      && (forall i :: 0 <= i < |fecLanes| ==> fecLanes[i].Valid() && fecLanes[i].cap == cfg.DataCap() &&
                                              fecLanes[i] != fecRowLane && fecLanes[i].xor != fecRowLane.xor)
      && (forall i, j :: 0 <= i < j < |fecLanes| ==> fecLanes[i] != fecLanes[j] && fecLanes[i].xor != fecLanes[j].xor)
      && fecRowLane.Valid() && fecRowLane.cap == cfg.DataCap()
    }

    ghost function LaneViews(): seq<Lane>
      reads this, Owned()
      requires Valid()
    {
      seq(|fecLanes|, i requires 0 <= i < |fecLanes| && Valid() reads this, Owned() => fecLanes[i].View())
    }

    ghost function View(): SState
      reads this, Owned()
      requires Valid()
    {
      SState(sent, writeFIN, aborted, maxSendOffset, sentOffset, ackedBytes, LaneViews(), fecRowLane.View(),
             unacked, ackedThrough)
    }

    constructor (c: Config)
      requires c.Valid()
      ensures Valid() && cfg == c && View() == Begin(c) && fresh(Owned())
    {
      cfg := c;
      sent, writeSeq := [], 0;
      writeFIN, aborted := false, false;
      maxSendOffset, sentOffset, ackedBytes := c.InitialWindow(), 0, 0;
      fecLanes := [];
      fecRowLane := new FecLane(c.DataCap());
      unacked, ackedThrough := map[], 0;
    }

    /** Allocates the column lanes before the first fold. */
    method AllocLanes()
      requires Valid() && fecLanes == [] && cfg.group > 0
      modifies this`fecLanes
      ensures Valid() && |fecLanes| == cfg.group && fresh(Owned() - old(Owned()))
      ensures View() == old(View()).(lanes := LanesOf(cfg, old(View())))
    {
      var lanes: seq<FecLane> := [];
      while |lanes| < cfg.group
        invariant |lanes| <= cfg.group
        invariant forall i :: 0 <= i < |lanes| ==>
                    fresh(lanes[i]) && fresh(lanes[i].xor) && lanes[i].Valid() && lanes[i].cap == cfg.DataCap() &&
                    lanes[i].View() == EMPTY_LANE
        invariant forall i, j :: 0 <= i < j < |lanes| ==> lanes[i] != lanes[j] && lanes[i].xor != lanes[j].xor
      {
        var ln := new FecLane(cfg.DataCap());
        lanes := lanes + [ln];
      }
      fecLanes := lanes;
    }

    method PrepareLanes()
      requires Valid() && cfg.group > 0
      modifies this`fecLanes
      ensures Valid() && |fecLanes| == cfg.group && fresh(Owned() - old(Owned()))
      ensures View() == old(View()).(lanes := LanesOf(cfg, old(View())))
    {
      if fecLanes == [] {
        AllocLanes();
      }
    }

    /** Folds into one lane; the caller names it by its object. */
    static method FoldLaneLocked(c: Config, ln: FecLane, sn: nat, chunk: Bytes, row: bool) returns (frames: set<Frame>)
      requires ln.Valid() && |chunk| <= ln.cap && c.group > 0
      modifies ln, ln.xor
      ensures ln.Valid()
      ensures (ln.View(), frames) == FoldEmit(c, old(ln.View()), row, sn, chunk)
    {
      hide FoldLane;
      frames := {};
      ln.Fold(sn, chunk);
      assert ln.count > 0 by {
        FoldedCount(old(ln.View()), sn, chunk);
      }
      if ln.count >= c.group {
        frames := ln.Emit(row);
      }
    }

    static lemma FoldedCount(ln: Lane, sn: nat, chunk: Bytes)
      ensures FoldLane(ln, sn, chunk).count == ln.count + 1
    {
    }

    /** The column lane of a frame is its sequence number modulo G. */
    method LaneIndex(sn: nat) returns (l: nat)
      requires cfg.group > 0
      ensures l == cfg.Lane(sn) < cfg.group
    {
      FormulasCount(cfg, sn);
      l := sn % cfg.group;
    }

    method FoldColumn(l: nat, sn: nat, chunk: Bytes) returns (frames: set<Frame>)
      requires Valid() && l < |fecLanes| && |chunk| <= cfg.DataCap()
      modifies fecLanes[l], fecLanes[l].xor
      ensures Valid()
      ensures var f := FoldEmit(cfg, old(View()).lanes[l], false, sn, chunk);
              frames == f.1 && View() == old(View()).(lanes := old(View()).lanes[l := f.0])
    {
      hide FoldEmit;
      ghost var views := LaneViews();
      frames := FoldLaneLocked(cfg, fecLanes[l], sn, chunk, false);
      assert LaneViews() == views[l := fecLanes[l].View()];
    }

    method FoldRow(sn: nat, chunk: Bytes) returns (frames: set<Frame>)
      requires Valid() && cfg.group > 0 && |chunk| <= cfg.DataCap()
      modifies fecRowLane, fecRowLane.xor
      ensures Valid()
      ensures var f := FoldEmit(cfg, old(View()).rowLane, true, sn, chunk);
              frames == f.1 && View() == old(View()).(rowLane := f.0)
    {
      hide FoldEmit;
      ghost var views := LaneViews();
      frames := FoldLaneLocked(cfg, fecRowLane, sn, chunk, true);
      assert LaneViews() == views;
    }

    method FecFoldLocked(sn: nat, chunk: Bytes) returns (frames: set<Frame>)
      requires Valid() && |chunk| <= cfg.DataCap()
      modifies this`fecLanes, Owned()
      ensures Valid() && fresh(Owned() - old(Owned()))
      ensures Out(View(), frames) == FecFold(cfg, old(View()), sn, chunk)
    {
      hide FoldEmit, View, LaneViews;
      Facts();
      frames := {};
      if cfg.group == 0 {
        return;
      }
      PrepareLanes();
      var l := LaneIndex(sn);
      frames := FoldColumn(l, sn, chunk);
      if cfg.twoD {
        var more := FoldRow(sn, chunk);
        frames := frames + more;
      }
    }

    /** Gives a chunk the next sequence number and records it as unacknowledged. */
    method Register(chunk: Bytes) returns (sn: nat)
      requires Valid()
      modifies this`sentOffset, this`writeSeq, this`sent, this`unacked
      ensures Valid() && Owned() == old(Owned()) && sn == |old(sent)|
      ensures View() == old(View()).(sent := old(sent) + [chunk], sentOffset := old(sentOffset) + |chunk|,
                                     unacked := old(unacked)[sn := chunk])
    {
      sn := writeSeq;
      sentOffset := sentOffset + |chunk|;
      writeSeq := writeSeq + 1;
      sent := sent + [chunk];
      unacked := unacked[sn := chunk];
      assert LaneViews() == old(LaneViews());
    }

    /** Sends one chunk: it takes the next sequence number, joins the retransmit queue and its parity lanes. */
    method SendChunk(chunk: Bytes) returns (frames: set<Frame>)
      requires Valid() && |chunk| <= cfg.DataCap()
      modifies this, Owned()
      ensures Valid() && fresh(Owned() - old(Owned()))
      ensures Out(View(), frames) == WriteChunk(cfg, old(View()), chunk)
    {
      hide FecFold, Valid, View;
      Facts();
      var sn := Register(chunk);
      Facts();
      frames := FecFoldLocked(sn, chunk);
      frames := {DataFrame(sn, chunk)} + frames;
    }

    lemma Facts()
      requires Valid()
      ensures cfg.Valid() && (View().lanes == [] || |View().lanes| == cfg.group) && |View().lanes| == |fecLanes|
      ensures View().sent == sent && View().fin == writeFIN && View().failed == aborted
      ensures View().sentOffset == sentOffset && View().unacked == unacked
      ensures View().maxOffset == maxSendOffset && View().ackedBytes == ackedBytes && View().ackedThrough == ackedThrough
    {
    }

    /** Write up to the point where a writer would block: returns how many bytes of p were sent. */
    method Write(p: Bytes, limit: int) returns (n: nat, frames: set<Frame>)
      requires Valid()
      modifies this, Owned()
      ensures Valid() && fresh(Owned() - old(Owned()))
      ensures old(cfg.Valid() && (View().lanes == [] || |View().lanes| == cfg.group))
      ensures Wrote(View(), frames, n) == WriteAll(cfg, old(View()), p, limit)
    {
      hide WriteChunk, WriteAll, Resumes, Valid, View;
      Facts();
      n, frames := 0, {};
      assert p[0..] == p;
      ghost var whole := WriteAll(cfg, View(), p, limit);
      ResumeStart(View(), p, limit);
      while n < |p|
        invariant Valid() && n <= |p| && fresh(Owned() - old(Owned()))
        invariant View().lanes == [] || |View().lanes| == cfg.group
        invariant Resumes(View(), p[n..], limit, frames, n, whole)
      {
        Facts();
        ghost var s := View();
        var chunkLen := Min(|p| - n, cfg.DataCap());
        if writeFIN || aborted || maxSendOffset - sentOffset < chunkLen || sentOffset - ackedBytes + chunkLen > limit {
          ResumeStop(s, p[n..], limit, frames, n, whole);
          return;
        }
        assert p[n..][..chunkLen] == p[n..n + chunkLen];
        assert p[n..][chunkLen..] == p[n + chunkLen..];
        ResumeStep(s, p[n..], limit, frames, n, whole);
        var more := SendChunk(p[n..n + chunkLen]);
        frames := frames + more;
        n := n + chunkLen;
        Facts();
      }
      ResumeStop(View(), p[n..], limit, frames, n, whole);
    }

    lemma ResumeStart(s: SState, p: Bytes, limit: int)
      requires cfg.Valid() && (s.lanes == [] || |s.lanes| == cfg.group)
      ensures Resumes(s, p, limit, {}, 0, WriteAll(cfg, s, p, limit))
    {
    }

    lemma ResumeStop(s: SState, rest: Bytes, limit: int, frames: set<Frame>, n: nat, whole: Wrote)
      requires cfg.Valid() && (s.lanes == [] || |s.lanes| == cfg.group)
      requires Resumes(s, rest, limit, frames, n, whole) && !CanSend(cfg, s, rest, limit)
      ensures whole == Wrote(s, frames, n)
    {
      hide WriteAll;
      WriteAllUnfold(cfg, s, rest, limit);
      assert frames + {} == frames;
    }

    lemma ResumeStep(s: SState, rest: Bytes, limit: int, frames: set<Frame>, n: nat, whole: Wrote)
      requires cfg.Valid() && (s.lanes == [] || |s.lanes| == cfg.group)
      requires Resumes(s, rest, limit, frames, n, whole) && CanSend(cfg, s, rest, limit)
      ensures var k := Min(|rest|, cfg.DataCap());
              var o := WriteChunk(cfg, s, rest[..k]);
              Resumes(o.s, rest[k..], limit, frames + o.frames, n + k, whole)
    {
      hide WriteAll, WriteChunk;
      WriteAllUnfold(cfg, s, rest, limit);
      var k := Min(|rest|, cfg.DataCap());
      var o := WriteChunk(cfg, s, rest[..k]);
      var w := WriteAll(cfg, o.s, rest[k..], limit);
      assert frames + (o.frames + w.frames) == frames + o.frames + w.frames;
    }

    /** Writing the rest from here completes the whole write. */
    ghost predicate Resumes(s: SState, rest: Bytes, limit: int, frames: set<Frame>, n: nat, whole: Wrote)
      requires cfg.Valid() && (s.lanes == [] || |s.lanes| == cfg.group)
    {
      var w := WriteAll(cfg, s, rest, limit);
      whole == Wrote(w.s, frames + w.frames, n + w.n)
    }

    method EmitColumn(l: nat) returns (frames: set<Frame>)
      requires Valid() && l < |fecLanes|
      modifies fecLanes[l], fecLanes[l].xor
      ensures Valid() && frames == Emission(old(LaneViews())[l], false)
      ensures View() == old(View()).(lanes := old(LaneViews())[l := ResetLane(old(LaneViews())[l])])
    {
      ghost var views := LaneViews();
      frames := fecLanes[l].Emit(false);
      assert LaneViews() == views[l := fecLanes[l].View()];
    }

    method EmitRow() returns (frames: set<Frame>)
      requires Valid()
      modifies fecRowLane, fecRowLane.xor
      ensures Valid() && frames == Emission(old(fecRowLane.View()), true)
      ensures View() == old(View()).(rowLane := ResetLane(old(fecRowLane.View())))
    {
      ghost var views := LaneViews();
      frames := fecRowLane.Emit(true);
      assert LaneViews() == views;
    }

    /** Emits what every column lane has in progress and empties it. */
    method FlushColumns() returns (frames: set<Frame>)
      requires Valid()
      modifies Owned()
      ensures Valid() && frames == FlushLanes(old(LaneViews()))
      ensures View() == old(View()).(lanes := ResetLanes(old(LaneViews())))
    {
      hide Emission, FlushLanes, ResetLanes, Flushed;
      frames := {};
      ghost var v := View();
      FlushedEnds(v.lanes);
      var i := 0;
      while i < |fecLanes|
        invariant i <= |fecLanes| == |v.lanes| && Valid()
        invariant frames == FlushLanes(v.lanes[..i])
        invariant View() == v.(lanes := Flushed(v.lanes, i))
      {
        FlushedStep(v.lanes, i);
        var more := EmitColumn(i);
        frames := frames + more;
        i := i + 1;
      }
      assert v.lanes[..i] == v.lanes;
    }

    /** The first i lanes emptied, the others as they were. */
    static ghost function Flushed(lanes: seq<Lane>, i: nat): seq<Lane>
      requires i <= |lanes|
    {
      ResetLanes(lanes[..i]) + lanes[i..]
    }

    static lemma FlushedStep(lanes: seq<Lane>, i: nat)
      requires i < |lanes|
      ensures i < |Flushed(lanes, i)| && Flushed(lanes, i)[i] == lanes[i]
      ensures Flushed(lanes, i + 1) == Flushed(lanes, i)[i := ResetLane(lanes[i])]
      ensures FlushLanes(lanes[..i + 1]) == FlushLanes(lanes[..i]) + Emission(lanes[i], false)
    {
      assert lanes[..i + 1][..i] == lanes[..i];
    }

    static lemma FlushedEnds(lanes: seq<Lane>)
      ensures Flushed(lanes, 0) == lanes && Flushed(lanes, |lanes|) == ResetLanes(lanes)
      ensures FlushLanes(lanes[..0]) == {}
    {
      assert lanes[..|lanes|] == lanes;
    }

    /** CloseWrite: every lane in progress is flushed, then the FIN takes the next position. */
    method CloseWriteLocked() returns (frames: set<Frame>)
      requires Valid()
      modifies this, Owned()
      ensures Valid() && Owned() == old(Owned())
      ensures Out(View(), frames) == Sender.CloseWrite(old(View()))
    {
      hide Emission, FlushLanes, ResetLanes;
      if writeFIN || aborted {
        return {};
      }
      frames := FlushColumns();
      var more := EmitRow();
      frames := frames + more + {FinFrame(writeSeq)};
      ghost var views := LaneViews();
      writeFIN := true;
      unacked := unacked[writeSeq := []];
      assert LaneViews() == views;
    }

    /** Abandons every parity group in progress. */
    method DropLanes()
      requires Valid()
      modifies this`fecLanes, this`fecRowLane
      ensures Valid() && fresh(Owned() - old(Owned()))
      ensures View() == old(View()).(lanes := [], rowLane := EMPTY_LANE)
    {
      fecLanes := [];
      fecRowLane := new FecLane(cfg.DataCap());
    }

    /** Aborts the write side: lanes and unacknowledged frames are dropped, and a reset takes the next position. */
    method AbortWriteLocked(code: Bytes) returns (frames: set<Frame>)
      requires Valid()
      modifies this
      ensures Valid() && fresh(Owned() - old(Owned()))
      ensures Out(View(), frames) == Sender.AbortWrite(old(View()), code)
    {
      if writeFIN || aborted {
        return {};
      }
      DropLanes();
      ghost var views := LaneViews();
      writeFIN, aborted := true, true;
      unacked, ackedThrough := map[writeSeq := code], 0;
      assert LaneViews() == views;
      frames := {ResetFrame(writeSeq)};
    }

    /** A watermark only ever rises; a stale or duplicate update changes nothing. */
    method SetMaxSendOffset(offset: nat)
      requires Valid()
      modifies this`maxSendOffset
      ensures Valid() && Owned() == old(Owned()) && View() == Sender.SetMaxOffset(old(View()), offset)
    {
      ghost var views := LaneViews();
      if offset > maxSendOffset {
        maxSendOffset := offset;
      }
      assert LaneViews() == views;
    }

    /** Credits acknowledged bytes; rest and through are what the acknowledgement left in the queue. */
    method CreditAcked(n: nat, ghost rest: Unacked, ghost through: nat)
      requires Valid()
      modifies this`ackedBytes, this`unacked, this`ackedThrough
      ensures Valid() && Owned() == old(Owned())
      ensures View() == old(View()).(ackedBytes := old(ackedBytes) + n, unacked := rest, ackedThrough := through)
    {
      ghost var views := LaneViews();
      unacked, ackedThrough := rest, through;
      if n > 0 {
        ackedBytes := ackedBytes + n;
      }
      assert LaneViews() == views;
    }
  }
}
