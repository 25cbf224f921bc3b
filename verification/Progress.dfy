/**
 * What can still happen.  From every reachable state the stream can be brought to the end:
 * everything written can be read, and a blocked writer can be unblocked, provided the next
 * cumulative acknowledgement is not taken for corruption.  If it is, the sender is wedged.
 */
module Progress {
  import opened Bytes
  import opened Geometry
  import opened Receiver
  import opened Exactness
  import opened Delivery
  import opened Wire
  import opened Ledger
  import opened Sender
  import opened System
  import opened Safety
  import opened Runs
  import opened Steps

  function Continue(c: Config, y: Sys, acts: seq<Action>): Sys
    decreases |acts|
  {
    if acts == [] then y else Continue(c, Step(c, y, acts[0]), acts[1..])
  }

  lemma {:induction false} ContinueOk(c: Config, y: Sys, acts: seq<Action>)
    requires Inv(c, y)
    ensures Inv(c, Continue(c, y, acts))
    decreases |acts|
  {
    hide Inv, Step;
    if acts != [] {
      StepOk(c, y, acts[0]);
      ContinueOk(c, Step(c, y, acts[0]), acts[1..]);
    }
  }

  lemma {:induction false} ContinueJoins(c: Config, y: Sys, a: seq<Action>, b: seq<Action>)
    ensures Continue(c, y, a + b) == Continue(c, Continue(c, y, a), b)
    decreases |a|
  {
    hide Step;
    if a == [] {
      assert a + b == b;
    } else {
      ContinueJoins(c, Step(c, y, a[0]), a[1..], b);
      assert (a + b)[1..] == a[1..] + b;
    }
  }

  /** Continuing a run is a longer run. */
  lemma {:induction false} RunContinues(c: Config, acts: seq<Action>, more: seq<Action>)
    requires c.Valid()
    ensures Run(c, acts + more) == Continue(c, Run(c, acts), more)
    decreases |more|
  {
    hide Step;
    if more == [] {
      assert acts + more == acts;
    } else {
      RunContinues(c, acts + [more[0]], more[1..]);
      assert acts + [more[0]] + more[1..] == acts + more;
      assert (acts + [more[0]])[..|acts|] == acts;
    }
  }

  /** The read side is live, or came to its regular end. */
  predicate Reading(y: Sys) {
    !y.r.canceled && (y.r.readErr.NoErr? || y.r.readErr.EOF?)
  }

  /** The schedule asks for no write. */
  predicate Writeless(acts: seq<Action>) {
    forall a :: a in acts ==> !a.Write?
  }

  // --- everything can be read ---

  lemma HeadIsQueued(c: Config, y: Sys)
    requires Inv(c, y) && y.r.Live() && !y.s.failed && y.r.readSeq < |y.s.sent|
    ensures Enabled(c, y, Resend(y.r.readSeq)) && y.s.unacked[y.r.readSeq] == y.s.sent[y.r.readSeq]
  {
    hide NetOk, ClosureOk, ArrivedOk, AcksOk, LanesOk, CorePre;
  }

  lemma DeliveredMoves(c: Config, y: Sys)
    requires Inv(c, y) && y.r.Live() && y.r.readSeq < |y.s.sent|
    ensures var t := Deliver(c, {}, y.r, y.r.readSeq, y.s.sent[y.r.readSeq], false).r;
            y.r.readSeq < t.readSeq && !t.canceled && (t.readErr.NoErr? || t.readErr.EOF?)
  {
    hide Deliver, WriterOk, NetOk, ClosureOk, ArrivedOk, AcksOk, NoLoss, Core, Has;
    DeliverOk(c, {}, y.s.sent, y.got, y.r, y.r.readSeq);
    HeldIsPassed(c, y.s.sent, y.got, Deliver(c, {}, y.r, y.r.readSeq, y.s.sent[y.r.readSeq], false).r, y.r.readSeq);
  }

  /** A receiver never waits for a frame it holds. */
  lemma HeldIsPassed(c: Config, sent: seq<Bytes>, got: Bytes, t: RState, n: nat)
    requires Core(c, sent, got, t) && Has(t, n) && n <= t.readSeq
    ensures n < t.readSeq
  {
    hide AccsOk, PendOk;
  }

  function HeadFrame(y: Sys): Frame
    requires y.r.readSeq < |y.s.sent|
  {
    DataFrame(y.r.readSeq, y.s.sent[y.r.readSeq])
  }

  /** The frame the receiver waits for can be resent and received, and then the receiver moves on. */
  lemma HeadArrives(c: Config, y: Sys)
    requires Inv(c, y) && y.r.Live() && !y.s.failed && y.r.readSeq < |y.s.sent|
    ensures var z := Continue(c, y, [Resend(y.r.readSeq), RecvData(HeadFrame(y), {})]);
            && Inv(c, z) && Reading(z) && z.s == y.s && z.got == y.got && y.r.readSeq < z.r.readSeq
            && z.net == y.net + {HeadFrame(y)}
  {
    hide Deliver, Inv;
    var acts := [Resend(y.r.readSeq), RecvData(HeadFrame(y), {})];
    ContinueOk(c, y, acts);
    HeadIsQueued(c, y);
    DeliveredMoves(c, y);
    var y1 := Step(c, y, acts[0]);
    assert y1 == y.(net := y.net + {HeadFrame(y)});
    assert Enabled(c, y1, acts[1]);
    var z := Step(c, y1, acts[1]);
    assert acts[1..] == [acts[1]] && acts[1..][1..] == [];
    assert Continue(c, y, acts) == Continue(c, y1, acts[1..]) == Continue(c, z, []);
  }

  lemma EndReached(c: Config, y: Sys)
    requires Inv(c, y) && Reading(y) && !y.r.Live()
    ensures |y.s.sent| <= y.r.readSeq
  {
    hide WriterOk, NetOk, ClosureOk, ArrivedOk, AcksOk, NoLoss, CorePre;
  }

  lemma {:induction false} AllArrive(c: Config, y: Sys) returns (acts: seq<Action>)
    requires Inv(c, y) && Reading(y) && !y.s.failed
    ensures var z := Continue(c, y, acts);
            && Inv(c, z) && Reading(z) && z.s == y.s && z.got == y.got && |y.s.sent| <= z.r.readSeq
            && (forall f :: f in z.net ==> f in y.net || f.DataFrame?) && Writeless(acts)
    decreases |y.s.sent| - y.r.readSeq
  {
    hide Inv, Step;
    if |y.s.sent| <= y.r.readSeq {
      acts := [];
    } else {
      if !y.r.Live() {
        EndReached(c, y);
      }
      var head := [Resend(y.r.readSeq), RecvData(HeadFrame(y), {})];
      HeadArrives(c, y);
      var rest := AllArrive(c, Continue(c, y, head));
      acts := head + rest;
      ContinueJoins(c, y, head, rest);
    }
  }

  /** Reading all of the ring leaves nothing unread. */
  lemma RingRead(c: Config, y: Sys)
    requires Inv(c, y) && Reading(y) && |y.s.sent| <= y.r.readSeq
    ensures y.got + y.r.ring == Flatten(y.s.sent)
  {
    hide WriterOk, NetOk, ClosureOk, ArrivedOk, AcksOk, NoLoss, AccsOk, PendOk, Flatten;
    if y.r.Live() {
      assert y.s.sent[..y.r.readSeq] == y.s.sent;
    }
  }

  lemma ReadKeeps(c: Config, y: Sys, n: nat)
    requires Inv(c, y) && Reading(y) && Enabled(c, y, Read(n))
    ensures var t := ReadSome(c, y.r, n);
            t == y.r.(ring := t.ring, grantPending := t.grantPending, peerOffset := t.peerOffset)
  {
    hide WriterOk, NetOk, ClosureOk, ArrivedOk, AcksOk, NoLoss, Core;
    if y.r.readErr.EOF? {
      var k := Min(n, |y.r.ring|);
      assert Drain(c, y.r.(ring := y.r.ring[k..])) == y.r.(ring := y.r.ring[k..]);
    } else {
      hide ReadSome;
      RingHolds(y.r, y.got);
      ReadSomeOk(c, y.s.sent, y.got, y.r, n);
    }
  }

  lemma ReadAll(c: Config, y: Sys)
    requires Inv(c, y) && Reading(y) && |y.s.sent| <= y.r.readSeq && y.r.ring != []
    ensures var z := Step(c, y, Read(|y.r.ring|));
            && z.s == y.s && z.got == Flatten(y.s.sent) && z.net == y.net
            && z.r == y.r.(ring := z.r.ring, grantPending := z.r.grantPending, peerOffset := z.r.peerOffset)
  {
    hide Inv, ReadSome, Flatten;
    RingRead(c, y);
    ReadKeeps(c, y, |y.r.ring|);
    assert y.r.ring[..|y.r.ring|] == y.r.ring;
  }

  lemma ContinueOne(c: Config, y: Sys, a: Action)
    ensures Continue(c, y, [a]) == Step(c, y, a)
  {
    hide Step;
    assert [a][1..] == [];
  }

  lemma AllRead(c: Config, y: Sys) returns (acts: seq<Action>)
    requires Inv(c, y) && Reading(y) && |y.s.sent| <= y.r.readSeq
    ensures var z := Continue(c, y, acts);
            && Inv(c, z) && Reading(z) && z.s == y.s && z.got == Flatten(y.s.sent)
            && z.r.readErr == y.r.readErr && z.r.readSeq == y.r.readSeq && z.r.finRecvd == y.r.finRecvd && z.net == y.net
            && Writeless(acts)
  {
    hide Inv, Step, Flatten;
    if y.r.ring == [] {
      acts := [];
      RingRead(c, y);
      assert y.got + [] == y.got;
    } else {
      var a := Read(|y.r.ring|);
      acts := [a];
      ReadAll(c, y);
      StepOk(c, y, a);
      ContinueOne(c, y, a);
    }
  }

  /** From every state of every run in which neither side gave up, the reader can still get everything written. */
  lemma EverythingCanBeRead(c: Config, acts: seq<Action>) returns (more: seq<Action>)
    requires c.Valid() && Reading(Run(c, acts)) && !Run(c, acts).s.failed
    ensures var z := Run(c, acts + more);
            z.s == Run(c, acts).s && Reading(z) && z.got == Flatten(z.s.sent)
  {
    hide Inv, Run, Step;
    RunOk(c, acts);
    var a := AllArrive(c, Run(c, acts));
    var b := AllRead(c, Continue(c, Run(c, acts), a));
    more := a + b;
    ContinueJoins(c, Run(c, acts), a, b);
    RunContinues(c, acts, more);
  }

  // --- the end can be reached ---

  /** A FIN, once sent, stays in the network at the position after the last frame. */
  predicate FinOut(y: Sys) {
    y.s.fin && !y.s.failed ==> FinFrame(|y.s.sent|) in y.net
  }

  lemma FinOutStep(c: Config, y: Sys, a: Action)
    requires FinOut(y)
    ensures FinOut(Step(c, y, a))
  {
    hide Deliver, ApplyFec, ReadSome, WriteChunk, AckCumulative, SweepList, From, FlushLanes, ResetLanes;
    if a.Write? && Enabled(c, y, a) {
      WriteKeeps(c, y.s, a.chunk);
    }
  }

  lemma {:induction false} FinIsOut(c: Config, acts: seq<Action>)
    requires c.Valid()
    ensures FinOut(Run(c, acts))
  {
    if acts != [] {
      hide Step;
      FinIsOut(c, acts[..|acts| - 1]);
      FinOutStep(c, Run(c, acts[..|acts| - 1]), acts[|acts| - 1]);
    }
  }

  /** With everything read, the FIN ends the stream. */
  lemma FinEnds(c: Config, y: Sys) returns (acts: seq<Action>)
    requires Inv(c, y) && Reading(y) && |y.s.sent| <= y.r.readSeq && y.got == Flatten(y.s.sent)
    requires y.s.fin && FinFrame(|y.s.sent|) in y.net
    ensures var z := Continue(c, y, acts); z.got == y.got && z.s == y.s && z.r.ring == [] && z.r.readErr.EOF?
  {
    RingRead(c, y);
    assert |y.r.ring| == 0;
    if y.r.Live() {
      CaughtUp(c, y);
      hide Inv;
      var a := RecvFin(FinFrame(|y.s.sent|));
      acts := [a];
      FinIs(c, y.r, |y.s.sent|);
      assert [a][1..] == [] && Continue(c, y, acts) == Continue(c, Step(c, y, a), []);
    } else {
      acts := [];
    }
  }

  lemma CaughtUp(c: Config, y: Sys)
    requires Inv(c, y) && y.r.Live()
    ensures y.r.readSeq <= |y.s.sent|
  {
    hide WriterOk, NetOk, ClosureOk, ArrivedOk, AcksOk, NoLoss, AccsOk, PendOk;
  }

  /** From every state of every run of a closed, not aborted stream, its reader can still reach end of file with everything read. */
  lemma EndCanBeReached(c: Config, acts: seq<Action>) returns (more: seq<Action>)
    requires c.Valid() && Reading(Run(c, acts)) && Run(c, acts).s.fin && !Run(c, acts).s.failed
    ensures var z := Run(c, acts + more);
            z.s == Run(c, acts).s && z.got == Flatten(z.s.sent) && z.r.ring == [] && z.r.readErr.EOF?
  {
    hide Inv, Run, Step;
    RunOk(c, acts);
    FinIsOut(c, acts);
    var y := Run(c, acts);
    var a := AllArrive(c, y);
    var y1 := Continue(c, y, a);
    NetKept(c, y, a);
    var b := AllRead(c, y1);
    var y2 := Continue(c, y1, b);
    var e := FinEnds(c, y2);
    more := a + (b + e);
    ContinueJoins(c, y1, b, e);
    ContinueJoins(c, y, a, b + e);
    RunContinues(c, acts, more);
  }

  lemma {:induction false} NetKept(c: Config, y: Sys, acts: seq<Action>)
    ensures y.net <= Continue(c, y, acts).net
    decreases |acts|
  {
    if acts != [] {
      NetGrowsOnly(c, y, acts[0]);
      hide Step;
      NetKept(c, Step(c, y, acts[0]), acts[1..]);
    }
  }

  // --- a blocked writer can be unblocked ---

  /** The receiver's next watermark is one the sender will believe. */
  predicate Believable(y: Sys) {
    |y.s.sent| <= y.s.ackedThrough + MAX_CUM_ADVANCE
  }

  /** An empty ACK that covers everything sent leaves nothing unacknowledged. */
  lemma AllAcked(c: Config, s: SState)
    requires WriterOk(c, s) && !s.fin && !s.failed && |s.sent| <= s.ackedThrough + MAX_CUM_ADVANCE
    ensures HandleAck(s, |s.sent|, []).unacked == map[]
  {
    hide LanesOk, SweepRange, Records;
    var n := |s.sent|;
    if Accepted(s.ackedThrough, n) {
      CumulativeCoversAll(s.unacked, s.ackedThrough, n);
    }
    assert forall k :: k in AckCumulative(s.unacked, s.ackedThrough, n).rest ==> false;
  }

  lemma NothingInFlight(c: Config, s: SState)
    requires WriterOk(c, s) && !s.failed && s.unacked == map[]
    ensures s.sentOffset == s.ackedBytes
  {
    hide LanesOk;
    assert s.unacked.Keys == {};
    NoneSum(s.sent, 0);
  }

  lemma {:induction false} NoneSum(sent: seq<Bytes>, a: nat)
    ensures SumIn(sent, {}, a) == 0
    decreases |sent| - a
  {
    if a < |sent| {
      NoneSum(sent, a + 1);
    }
  }

  function AckAll(y: Sys): seq<Action> {
    [SendAck, RecvAck(AckFrame(y.r.readSeq, [])), RecvWindow(WindowFrame(y.r.peerOffset))]
  }

  /** What an acknowledgement round trip that gets through leaves behind. */
  lemma AckRound(c: Config, y: Sys)
    requires Inv(c, y) && !y.s.fin && !y.s.failed && y.r.readSeq == |y.s.sent| && Believable(y)
    ensures var z := Continue(c, y, AckAll(y));
            && Inv(c, z) && z.got == y.got && z.r == AckSnapshot(y.r).r
            && z.s == SetMaxOffset(HandleAck(y.s, |y.s.sent|, []), y.r.peerOffset)
  {
    hide Inv, HandleAck, From;
    var acts := AckAll(y);
    ContinueOk(c, y, acts);
    var k := AckSnapshot(y.r);
    var f, w := AckFrame(y.r.readSeq, []), WindowFrame(y.r.peerOffset);
    assert k.seqs[0..0] == [];
    assert AckFrame(k.cum, k.seqs[0..0]) in AckFrames(k.cum, k.seqs);
    var y1 := Step(c, y, SendAck);
    assert f in y1.net && w in y1.net;
    var y2 := Step(c, y1, RecvAck(f));
    var y3 := Step(c, y2, RecvWindow(w));
    assert acts[1..][1..] == [acts[2]] && acts[1..][0] == acts[1] && [acts[2]][1..] == [];
    assert Continue(c, y, acts) == Continue(c, y1, acts[1..]) == Continue(c, y2, [acts[2]]) == Continue(c, y3, []);
  }

  lemma RoomToWrite(c: Config, y: Sys, n: nat, limit: int)
    requires Inv(c, y) && y.r.Live() && y.got == Flatten(y.s.sent) && y.s.maxOffset == y.r.peerOffset
    requires y.s.sentOffset == y.s.ackedBytes && n <= c.DataCap() && n <= limit
    ensures MayWrite(y.s, n, limit)
  {
    hide NetOk, ClosureOk, ArrivedOk, NoLoss, AcksOk, Core, FinOk, LanesOk, Records, Flatten;
  }

  lemma NoEndYet(c: Config, y: Sys)
    requires Inv(c, y) && Reading(y) && !y.s.fin
    ensures y.r.Live() && y.r.readSeq <= |y.s.sent|
  {
    hide WriterOk, NetOk, ClosureOk, ArrivedOk, AcksOk, NoLoss, CorePre;
  }

  /**
   * No deadlock: from every state of every run in which neither side gave up and the next
   * watermark is believable, the writer can be brought to a point where it may send a chunk of
   * any legal size under any in-flight cap that admits it.
   */
  lemma WriterCanProceed(c: Config, acts: seq<Action>) returns (more: seq<Action>)
    requires c.Valid() && Reading(Run(c, acts)) && !Run(c, acts).s.failed && !Run(c, acts).s.fin
    requires Believable(Run(c, acts))
    ensures var z := Run(c, acts + more);
            && z.s.sent == Run(c, acts).s.sent && z.got == Flatten(z.s.sent) && z.s.unacked == map[]
            && z.r.Live() && !z.s.fin && !z.s.failed
            && forall n: nat, limit: int :: n <= c.DataCap() && n <= limit ==> MayWrite(z.s, n, limit)
  {
    hide Inv, Run, Step, HandleAck, MayWrite;
    RunOk(c, acts);
    var y := Run(c, acts);
    var a := AllArrive(c, y);
    var y1 := Continue(c, y, a);
    var b := AllRead(c, y1);
    var y2 := Continue(c, y1, b);
    NoEndYet(c, y2);
    AckRound(c, y2);
    var z := Continue(c, y2, AckAll(y2));
    AckedAndGranted(c, y2, z);
    forall n: nat, limit: int | n <= c.DataCap() && n <= limit ensures MayWrite(z.s, n, limit) {
      RoomToWrite(c, z, n, limit);
    }
    more := a + (b + AckAll(y2));
    ContinueJoins(c, y1, b, AckAll(y2));
    ContinueJoins(c, y, a, b + AckAll(y2));
    RunContinues(c, acts, more);
  }

  lemma AckedAndGranted(c: Config, y: Sys, z: Sys)
    requires Inv(c, y) && Inv(c, z) && !y.s.fin && !y.s.failed && Believable(y)
    requires z.r == AckSnapshot(y.r).r && z.s == SetMaxOffset(HandleAck(y.s, |y.s.sent|, []), y.r.peerOffset)
    ensures z.s.sent == y.s.sent && z.s.unacked == map[] && z.s.sentOffset == z.s.ackedBytes == y.s.sentOffset
    ensures z.s.maxOffset == z.r.peerOffset && z.r.Live() == y.r.Live() && !z.s.fin && !z.s.failed
  {
    hide NetOk, ClosureOk, ArrivedOk, NoLoss, AcksOk, ReaderOk, LanesOk, AckCumulative, SweepList, From;
    AllAcked(c, y.s);
    NothingInFlight(c, z.s);
  }
}
