/**
 * The parities are sent, not only exact: every full group's parity is on the wire, and once the
 * stream is closed every frame is covered in each dimension.
 */
module Coverage {
  import opened Bytes
  import opened Geometry
  import opened Receiver
  import opened Exactness
  import opened Wire
  import opened Ledger
  import opened Sender
  import opened System
  import opened Runs
  import opened Steps

  /** A parity of this group with this many members is on the wire. */
  ghost predicate Out(net: set<Frame>, row: bool, base: nat, count: nat) {
    exists p: Parity :: ParityFrame(row, base, p) in net && p.count == count
  }

  lemma OutGrows(net: set<Frame>, more: set<Frame>, row: bool, base: nat, count: nat)
    requires Out(net, row, base, count) && net <= more
    ensures Out(more, row, base, count)
  {
  }

  // --- a group in progress is in its lane ---

  lemma {:induction false} LaneOff(c: Config, n: nat, d: nat)
    requires c.group > 1 && d < c.group
    ensures c.Lane(n + d) == if c.Lane(n) + d < c.group then c.Lane(n) + d else c.Lane(n) + d - c.group
  {
    if d > 0 {
      LaneOff(c, n, d - 1);
      LaneInc(c, n + d - 1);
    }
  }

  /** The next frame of a group that has begun and is not full is the one its lane waits for. */
  lemma WaitsFor(c: Config, row: bool, base: nat, n: nat) returns (x: nat)
    requires c.group > 1 && Straddles(c, row, base, n)
    ensures c.BaseOf(row, x) == base && 0 < c.IdxOf(row, x) == Below(c, row, base, n, c.group) < c.group
    ensures x == if row then n else NextIn(c, n, c.Lane(base))
  {
    hide c.BaseOf, c.IdxOf;
    var g := c.group;
    var k := Below(c, row, base, n, g);
    BelowIff(c, row, base, n, g, 0);
    BelowIff(c, row, base, n, g, g - 1);
    assert 0 < k < g;
    BelowIff(c, row, base, n, g, k);
    BelowIff(c, row, base, n, g, k - 1);
    x := c.Member(row, base, k);
    MemberOfGroup(c, row, base, k);
    assert x == c.Member(row, base, k - 1) + c.Stride(row);
    if !row {
      MemberLane(c, base, k);
      LaneOff(c, n, x - n);
    }
  }

  // --- writing ---

  lemma FoldEmits(c: Config, sent: seq<Bytes>, row: bool, ln: Lane, chunk: Bytes)
    requires c.Valid() && Uses(c, row) && LaneIs(c, sent, row, ln, |sent|) && c.IdxOf(row, |sent|) + 1 == c.group
    ensures Out(FoldEmit(c, ln, row, |sent|, chunk).1, row, c.BaseOf(row, |sent|), c.group)
  {
    hide c.BaseOf, c.IdxOf, GroupData, GroupLen;
    var f := FoldLane(ln, |sent|, chunk);
    assert f.base == c.BaseOf(row, |sent|) && f.count == c.group;
    assert ParityFrame(row, f.base, Parity(f.count, f.lenXor, f.data)) in FoldEmit(c, ln, row, |sent|, chunk).1;
  }

  /** The chunk that fills a group sends the group's parity. */
  lemma WriteEmits(c: Config, s: SState, chunk: Bytes, row: bool)
    requires c.Valid() && LanesOk(c, s) && Uses(c, row) && c.IdxOf(row, |s.sent|) + 1 == c.group
    requires s.lanes == [] || |s.lanes| == c.group
    ensures Out(WriteChunk(c, s, chunk).frames, row, c.BaseOf(row, |s.sent|), c.group)
  {
    hide c.BaseOf, c.IdxOf, LaneIs, FoldEmit, Out;
    var n, frames := |s.sent|, WriteChunk(c, s, chunk).frames;
    if row {
      FoldEmits(c, s.sent, true, s.rowLane, chunk);
      var f := FoldEmit(c, s.rowLane, true, n, chunk).1;
      assert f <= frames;
      OutGrows(f, frames, true, c.BaseOf(true, n), c.group);
    } else {
      var l := c.Lane(n);
      NextInStep(c, n, l);
      FoldEmits(c, s.sent, false, LanesOf(c, s)[l], chunk);
      var f := FoldEmit(c, LanesOf(c, s)[l], false, n, chunk).1;
      assert f <= frames;
      OutGrows(f, frames, false, c.BaseOf(false, n), c.group);
    }
  }

  // --- closing ---

  lemma {:induction false} FlushHas(lanes: seq<Lane>, l: nat, x: Frame)
    requires l < |lanes| && x in Emission(lanes[l], false)
    ensures x in FlushLanes(lanes)
  {
    if l < |lanes| - 1 {
      FlushHas(lanes[..|lanes| - 1], l, x);
    }
  }

  /** Closing sends the parity of every group in progress. */
  lemma CloseEmits(c: Config, s: SState, row: bool, base: nat)
    requires c.Valid() && LanesOk(c, s) && Uses(c, row) && !s.fin && !s.failed && Straddles(c, row, base, |s.sent|)
    ensures Out(Sender.CloseWrite(s).frames, row, base, Below(c, row, base, |s.sent|, c.group))
  {
    hide c.BaseOf, c.IdxOf, Below, GroupData, GroupLen;
    var n := |s.sent|;
    var x := WaitsFor(c, row, base, n);
    var ln := if row then s.rowLane else LanesOf(c, s)[c.Lane(base)];
    assert LaneIs(c, s.sent, row, ln, x);
    assert ln.count > 0 && ln.base == base;
    var f := ParityFrame(row, base, Parity(ln.count, ln.lenXor, ln.data));
    assert f in Emission(ln, row);
    if !row {
      assert s.lanes != [];
      FlushHas(s.lanes, c.Lane(base), f);
    }
    assert f in Sender.CloseWrite(s).frames;
  }

  // --- every run ---

  /** Every full group is on the wire; after a regular close, so is every group that has begun. */
  ghost predicate Covered(c: Config, y: Sys) {
    && (forall row, base :: Uses(c, row) && c.IsBase(row, base) && c.Member(row, base, c.group - 1) < |y.s.sent| ==>
          Out(y.net, row, base, c.group))
    && (y.s.fin && !y.s.failed ==>
          forall row, base :: Uses(c, row) && Straddles(c, row, base, |y.s.sent|) ==>
            Out(y.net, row, base, Below(c, row, base, |y.s.sent|, c.group)))
  }

  /** A group is full for the first time exactly when its last member is sent. */
  lemma JustFilled(c: Config, row: bool, base: nat, n: nat)
    requires c.group > 0 && c.IsBase(row, base) && c.Member(row, base, c.group - 1) == n
    ensures c.BaseOf(row, n) == base && c.IdxOf(row, n) + 1 == c.group
  {
    MemberOfGroup(c, row, base, c.group - 1);
  }

  lemma WriteCovers(c: Config, y: Sys, a: Action)
    requires Inv(c, y) && Covered(c, y) && a.Write? && Enabled(c, y, a)
    ensures Covered(c, Do(c, y, a))
  {
    hide WriteChunk, NetOk, ClosureOk, ArrivedOk, AcksOk, NoLoss, ReaderOk, LanesOk, c.BaseOf, c.IdxOf, c.Member, Out, Below;
    var z := Do(c, y, a);
    WriteKeeps(c, y.s, a.chunk);
    forall row, base | Uses(c, row) && c.IsBase(row, base) && c.Member(row, base, c.group - 1) < |z.s.sent|
      ensures Out(z.net, row, base, c.group)
    {
      if c.Member(row, base, c.group - 1) == |y.s.sent| {
        JustFilled(c, row, base, |y.s.sent|);
        WriteEmits(c, y.s, a.chunk, row);
        OutGrows(WriteChunk(c, y.s, a.chunk).frames, z.net, row, base, c.group);
      } else {
        OutGrows(y.net, z.net, row, base, c.group);
      }
    }
  }

  lemma CloseCovers(c: Config, y: Sys)
    requires Inv(c, y) && Covered(c, y)
    ensures Covered(c, Do(c, y, Close))
  {
    hide Sender.CloseWrite, NetOk, ClosureOk, ArrivedOk, AcksOk, NoLoss, ReaderOk, LanesOk, c.BaseOf, c.IdxOf, c.Member, Out,
         Below, Straddles;
    var z := Do(c, y, Close);
    CloseIs(y.s);
    var frames := Sender.CloseWrite(y.s).frames;
    forall row, base, count: nat | Out(y.net, row, base, count) ensures Out(z.net, row, base, count) {
      OutGrows(y.net, z.net, row, base, count);
    }
    if !y.s.fin && !y.s.failed {
      forall row, base | Uses(c, row) && Straddles(c, row, base, |y.s.sent|)
        ensures Out(z.net, row, base, Below(c, row, base, |y.s.sent|, c.group))
      {
        CloseEmits(c, y.s, row, base);
        OutGrows(frames, z.net, row, base, Below(c, row, base, |y.s.sent|, c.group));
      }
    }
  }

  lemma CloseIs(s: SState)
    ensures var t := Sender.CloseWrite(s).s;
            t.sent == s.sent && t.failed == s.failed && (s.fin || s.failed ==> t == s)
  {
    hide ResetLanes, FlushLanes;
  }

  /** A step that is neither a write nor a close sends no chunk, and closes only by aborting. */
  lemma OtherStep(c: Config, y: Sys, a: Action)
    requires !a.Write? && !a.Close?
    ensures var z := Step(c, y, a);
            z.s.sent == y.s.sent && (z.s.fin && !z.s.failed ==> y.s.fin && !y.s.failed)
  {
    hide Deliver, ApplyFec, ReadSome, AckCumulative, SweepList, From;
  }

  lemma CoveredStep(c: Config, y: Sys, a: Action)
    requires Inv(c, y) && Covered(c, y)
    ensures Covered(c, Step(c, y, a))
  {
    hide Inv, Do, Out, Below, Straddles, c.Member, c.IsBase;
    if Enabled(c, y, a) && a.Write? {
      WriteCovers(c, y, a);
    } else if a.Close? {
      CloseCovers(c, y);
      CloseEnabled(c, y);
    } else {
      var z := Step(c, y, a);
      if !a.Write? {
        OtherStep(c, y, a);
      }
      NetGrowsOnly(c, y, a);
      forall row, base, count: nat | Out(y.net, row, base, count) ensures Out(z.net, row, base, count) {
        OutGrows(y.net, z.net, row, base, count);
      }
    }
  }

  lemma CloseEnabled(c: Config, y: Sys)
    ensures Enabled(c, y, Close)
  {
  }

  lemma StartCovered(c: Config)
    requires c.Valid()
    ensures Covered(c, Start(c))
  {
  }

  lemma {:induction false} RunCovered(c: Config, acts: seq<Action>)
    requires c.Valid()
    ensures Covered(c, Run(c, acts))
  {
    hide Inv, Step, Start, Covered;
    if acts == [] {
      StartCovered(c);
    } else {
      RunCovered(c, acts[..|acts| - 1]);
      RunOk(c, acts[..|acts| - 1]);
      CoveredStep(c, Run(c, acts[..|acts| - 1]), acts[|acts| - 1]);
    }
  }

  /** In every run the parity of every full group is on the wire. */
  lemma FullGroupsAreSent(c: Config, acts: seq<Action>, row: bool, base: nat)
    requires c.Valid() && Uses(c, row) && c.IsBase(row, base) && c.Member(row, base, c.group - 1) < |Run(c, acts).s.sent|
    ensures exists p: Parity :: ParityFrame(row, base, p) in Run(c, acts).net && p.count == c.group
  {
    hide Run, c.IsBase, c.Member;
    RunCovered(c, acts);
    assert Out(Run(c, acts).net, row, base, c.group);
  }

  /** Once the stream is closed regularly, every frame is covered by a parity on the wire in each dimension. */
  lemma ClosedIsCovered(c: Config, acts: seq<Action>, row: bool, sn: nat)
    requires c.Valid() && Uses(c, row) && Run(c, acts).s.fin && !Run(c, acts).s.failed && sn < |Run(c, acts).s.sent|
    ensures exists p: Parity :: ParityFrame(row, c.BaseOf(row, sn), p) in Run(c, acts).net && c.IdxOf(row, sn) < p.count
  {
    hide Run, c.BaseOf, c.IdxOf, Below;
    RunCovered(c, acts);
    var y, base := Run(c, acts), c.BaseOf(row, sn);
    var n := |y.s.sent|;
    SeqIsMember(c, row, sn);
    BelowIff(c, row, base, n, c.group, c.IdxOf(row, sn));
    if c.Member(row, base, c.group - 1) < n {
      assert Out(y.net, row, base, c.group);
    } else {
      assert Straddles(c, row, base, n);
      assert Out(y.net, row, base, Below(c, row, base, n, c.group));
    }
  }
}
