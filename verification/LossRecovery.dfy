/**
 * Which losses the parities repair by themselves, in terms of what was lost and in which
 * order the rest arrived.  `lost` is the set of frames that did not get through.
 */
module LossRecovery {
  import opened Bytes
  import opened Geometry
  import opened Receiver
  import opened Exactness
  import opened Peeling
  import opened Wire
  import opened Sender
  import opened System
  import opened Ledger
  import opened Safety
  import opened Delivery
  import opened Runs
  import opened Theorems
  import opened Coverage

  /** Each parity of one dimension is received after those of its members that are not lost, as it is in send order. */
  ghost predicate InSendOrder(c: Config, acts: seq<Action>, row: bool, lost: set<nat>)
    requires c.Valid()
  {
    acts != [] ==>
      var y, a := Run(c, acts[..|acts| - 1]), acts[|acts| - 1];
      InSendOrder(c, acts[..|acts| - 1], row, lost) &&
      (a.RecvParity? && a.f in y.net && a.f.ParityFrame? && a.f.row == row ==>
         Accounted(c, y, row, a.f.base, a.f.p.count, lost))
  }

  /** Every member of the group was received or is lost. */
  ghost predicate Accounted(c: Config, y: Sys, row: bool, base: nat, count: nat, lost: set<nat>) {
    forall i: nat :: i < count ==> c.Member(row, base, i) in y.seen || c.Member(row, base, i) in lost
  }

  ghost predicate AllAccounted(c: Config, y: Sys, row: bool, lost: set<nat>) {
    forall k :: k in y.arrived && k.0 == row ==> Accounted(c, y, row, k.1, y.arrived[k], lost)
  }

  lemma SeenGrows(c: Config, y: Sys, a: Action)
    ensures y.seen <= Step(c, y, a).seen
    ensures !(a.RecvParity? && Enabled(c, y, a)) ==> Step(c, y, a).arrived == y.arrived
    ensures a.RecvParity? && Enabled(c, y, a) ==> Step(c, y, a).arrived == y.arrived[(a.f.row, a.f.base) := a.f.p.count]
  {
    hide Deliver, ApplyFec, ReadSome, WriteChunk, HandleAck, TryReconstruct, From, Evicts;
  }

  lemma {:induction false} ArrivedAccounted(c: Config, acts: seq<Action>, row: bool, lost: set<nat>)
    requires c.Valid() && InSendOrder(c, acts, row, lost)
    ensures AllAccounted(c, Run(c, acts), row, lost)
  {
    if acts != [] {
      hide c.Member, Step;
      var y, a := Run(c, acts[..|acts| - 1]), acts[|acts| - 1];
      ArrivedAccounted(c, acts[..|acts| - 1], row, lost);
      SeenGrows(c, y, a);
      forall k | k in Step(c, y, a).arrived && k.0 == row
        ensures Accounted(c, Step(c, y, a), row, k.1, Step(c, y, a).arrived[k], lost)
      {
        assert Accounted(c, y, row, k.1, Step(c, y, a).arrived[k], lost);
      }
    }
  }

  // --- the pending buffer never overflows ---

  /** Two of the group's frames are lost. */
  ghost predicate TwoLost(c: Config, row: bool, b: nat, lost: set<nat>) {
    exists x, y :: x in lost && y in lost && x != y && c.BaseOf(row, x) == b && c.BaseOf(row, y) == b
  }

  /** Groups are disjoint, so half as many groups as lost frames can have two of them. */
  lemma {:induction false} PairsFit(c: Config, row: bool, keys: set<nat>, lost: set<nat>)
    requires forall b :: b in keys ==> TwoLost(c, row, b, lost)
    ensures 2 * |keys| <= |lost|
    decreases |keys|
  {
    hide c.BaseOf, TwoLost;
    if keys != {} {
      var b :| b in keys;
      var rest := TakePair(c, row, b, lost);
      PairsFit(c, row, keys - {b}, rest);
    }
  }

  /** Setting two lost frames of one group aside leaves every other group its own. */
  lemma TakePair(c: Config, row: bool, b: nat, lost: set<nat>) returns (rest: set<nat>)
    requires TwoLost(c, row, b, lost)
    ensures |lost| == |rest| + 2
    ensures forall k :: k != b && TwoLost(c, row, k, lost) ==> TwoLost(c, row, k, rest)
  {
    hide c.BaseOf;
    var x, y :| x in lost && y in lost && x != y && c.BaseOf(row, x) == b && c.BaseOf(row, y) == b;
    rest := lost - {x, y};
    assert |lost| == |rest| + |{x, y}|;
    forall k | k != b && TwoLost(c, row, k, lost) ensures TwoLost(c, row, k, rest) {
      var u, v :| u in lost && v in lost && u != v && c.BaseOf(row, u) == k && c.BaseOf(row, v) == k;
      assert u in rest && v in rest;
    }
  }

  /** The lost frames that are still missing. */
  function Absent(y: Sys, lost: set<nat>): set<nat> {
    set x | x in lost && !Has(y.r, x)
  }

  /** A buffered parity misses two lost frames of its own group. */
  lemma PendingLost(c: Config, y: Sys, row: bool, b: nat, lost: set<nat>)
    requires Inv(c, y) && y.r.Live() && b in y.r.Pend(row) && AllAccounted(c, y, row, lost)
    ensures TwoLost(c, row, b, Absent(y, lost))
  {
    hide WriterOk, NetOk, AcksOk, NoLoss, AccsOk, BufOk, c.Member, c.BaseOf, Has, Genuine, Served;
    var count := y.r.Pend(row)[b].count;
    assert TwoMissing(c, y.r, row, b, count);
    assert Accounted(c, y, row, b, count, lost);
    var i: nat, j: nat :| i < j < count && !Has(y.r, c.Member(row, b, i)) && !Has(y.r, c.Member(row, b, j));
    GroupOf(c, y, row, b, i);
    GroupOf(c, y, row, b, j);
    assert c.Member(row, b, i) in Absent(y, lost) && c.Member(row, b, j) in Absent(y, lost);
  }

  lemma GroupOf(c: Config, y: Sys, row: bool, b: nat, i: nat)
    requires Inv(c, y) && y.r.Live() && b in y.r.Pend(row) && i < y.r.Pend(row)[b].count
    ensures c.BaseOf(row, c.Member(row, b, i)) == b && c.IdxOf(row, c.Member(row, b, i)) == i
  {
    hide WriterOk, NetOk, AcksOk, NoLoss, AccsOk, BufOk, ClosureOk, ArrivedOk;
    MemberOfGroup(c, row, b, i);
  }

  /** No group of this dimension lost two frames. */
  ghost predicate Spread(c: Config, row: bool, lost: set<nat>) {
    forall b: nat :: !TwoLost(c, row, b, lost)
  }

  /**
   * Whenever a parity of this dimension arrives, fewer lost frames are missing than twice the
   * pending cap; or no group of the dimension lost two.
   */
  ghost predicate FewAtOnce(c: Config, acts: seq<Action>, row: bool, lost: set<nat>)
    requires c.Valid()
  {
    acts != [] ==>
      var y, a := Run(c, acts[..|acts| - 1]), acts[|acts| - 1];
      FewAtOnce(c, acts[..|acts| - 1], row, lost) &&
      (a.RecvParity? && a.f in y.net && a.f.ParityFrame? && a.f.row == row ==>
         |Absent(y, lost)| < 2 * FEC_PENDING_CAP || Spread(c, row, lost))
  }

  lemma {:induction false} FewInAll(c: Config, acts: seq<Action>, row: bool, lost: set<nat>)
    requires c.Valid() && (|lost| < 2 * FEC_PENDING_CAP || Spread(c, row, lost))
    ensures FewAtOnce(c, acts, row, lost)
  {
    if acts != [] {
      hide Run, Spread, Has;
      FewInAll(c, acts[..|acts| - 1], row, lost);
      Subset(Absent(Run(c, acts[..|acts| - 1]), lost), lost);
    }
  }

  /** In send order, losses that are few at once, or spread over their groups, never cause an eviction. */
  lemma {:induction false} FewLossesNeverEvict(c: Config, acts: seq<Action>, row: bool, lost: set<nat>)
    requires c.Valid() && InSendOrder(c, acts, row, lost) && FewAtOnce(c, acts, row, lost)
    ensures Unevicted(Run(c, acts), row)
  {
    if acts != [] {
      hide Inv, Do, Spread;
      var past, a := acts[..|acts| - 1], acts[|acts| - 1];
      var y := Run(c, past);
      FewLossesNeverEvict(c, past, row, lost);
      RunOk(c, past);
      ArrivedAccounted(c, past, row, lost);
      hide Run;
      if a.RecvParity? && Enabled(c, y, a) && a.f.row == row {
        NothingToEvict(c, y, a, row, lost);
      }
      hide Enabled, Evicts;
      EvictedStep(c, y, a, row);
    }
  }

  lemma NothingToEvict(c: Config, y: Sys, a: Action, row: bool, lost: set<nat>)
    requires Inv(c, y) && AllAccounted(c, y, row, lost) && (|Absent(y, lost)| < 2 * FEC_PENDING_CAP || Spread(c, row, lost))
    requires a.RecvParity? && Enabled(c, y, a) && a.f.row == row
    ensures Evicts(c, a.ramp, y.r, row, a.f.base, a.f.p) == {}
  {
    hide Inv, TwoLost, TryReconstruct, Absent;
    var keys := y.r.Pend(row).Keys;
    forall b | b in keys ensures TwoLost(c, row, b, Absent(y, lost)) && TwoLost(c, row, b, lost) {
      PendingLost(c, y, row, b, lost);
      AbsentLost(c, y, row, b, lost);
    }
    PairsFit(c, row, keys, Absent(y, lost));
    if Spread(c, row, lost) {
      assert keys == {};
    }
  }

  lemma AbsentLost(c: Config, y: Sys, row: bool, b: nat, lost: set<nat>)
    requires TwoLost(c, row, b, Absent(y, lost))
    ensures TwoLost(c, row, b, lost)
  {
    hide c.BaseOf, Has;
  }

  // --- bursts ---

  /** The parity of sn in this dimension arrived, and covers it. */
  predicate Parities(c: Config, y: Sys, row: bool, sn: nat) {
    var k := (row, c.BaseOf(row, sn));
    k in y.arrived && c.IdxOf(row, sn) < y.arrived[k]
  }

  function Burst(a: nat, len: nat): (s: set<nat>)
    ensures |s| == len && forall x: nat :: x in s <==> a <= x < a + len
  {
    if len == 0 then {} else Burst(a, len - 1) + {a + len - 1}
  }

  /**
   * Losses that hit no column group twice leave nothing missing, however many they are and
   * with one or two dimensions of parity: it is enough that the other frames arrive, and the
   * column parities of the lost ones arrive, in send order.  No retransmission is needed.
   */
  lemma SpreadLossesAreRepaired(c: Config, acts: seq<Action>, lost: set<nat>)
    requires c.Valid() && 0 < c.group && Run(c, acts).r.Live() && Spread(c, false, lost)
    requires InSendOrder(c, acts, false, lost)
    requires forall x: nat :: x < |Run(c, acts).s.sent| && x !in lost ==> x in Run(c, acts).seen
    requires forall x: nat :: x < |Run(c, acts).s.sent| && x in lost ==> Parities(c, Run(c, acts), false, x)
    ensures Run(c, acts).r.readSeq == |Run(c, acts).s.sent|
  {
    hide Run, Inv, InSendOrder, Parities, Companion;
    var y := Run(c, acts);
    RunOk(c, acts);
    FewInAll(c, acts, false, lost);
    FewLossesNeverEvict(c, acts, false, lost);
    CompleteIff(c, y);
    if x :| x in Missing(y) {
      MissingIsLost(c, y, lost, x);
      MissingStops(c, y, false, x);
      CompanionLost(c, y, lost, x);
    }
  }

  lemma MissingIsLost(c: Config, y: Sys, lost: set<nat>, x: nat)
    requires Inv(c, y) && y.r.Live() && x in Missing(y)
    requires forall z: nat :: z < |y.s.sent| && z !in lost ==> z in y.seen
    ensures x < |y.s.sent| && x in lost && x !in y.seen
  {
    hide Inv;
    if x in y.seen {
      SeenIsHeld(c, y, x);
    }
  }

  lemma CompanionLost(c: Config, y: Sys, lost: set<nat>, x: nat)
    requires Inv(c, y) && y.r.Live() && x in Missing(y) && Companion(c, false, Missing(y), x)
    requires forall z: nat :: z < |y.s.sent| && z !in lost ==> z in y.seen
    ensures !Spread(c, false, lost)
  {
    hide Inv, Missing, c.BaseOf;
    var z :| z in Missing(y) && z != x && c.BaseOf(false, z) == c.BaseOf(false, x);
    MissingIsLost(c, y, lost, x);
    MissingIsLost(c, y, lost, z);
    assert TwoLost(c, false, c.BaseOf(false, x), lost);
  }

  /** A burst of at most G consecutive frames hits no column group twice. */
  lemma BurstIsSpread(c: Config, a: nat, len: nat)
    requires 0 < c.group && len <= c.group
    ensures Spread(c, false, Burst(a, len))
  {
    hide c.BaseOf;
    forall b: nat ensures !TwoLost(c, false, b, Burst(a, len)) {
      if TwoLost(c, false, b, Burst(a, len)) {
        var x, y :| x in Burst(a, len) && y in Burst(a, len) && x != y && c.BaseOf(false, x) == b && c.BaseOf(false, y) == b;
        FarApart(c, Min(x, y), Max(x, y));
      }
    }
  }

  /** Two frames of one column group are at least G apart. */
  lemma FarApart(c: Config, x: nat, y: nat)
    requires 0 < c.group && x < y && c.BaseOf(false, x) == c.BaseOf(false, y)
    ensures x + c.group <= y
  {
    LaneOfBase(c, x);
    LaneOfBase(c, y);
    LaneGap(c, x, y);
  }

  /** So losing any burst of at most G consecutive frames leaves nothing missing. */
  lemma BurstInSendOrder(c: Config, acts: seq<Action>, a: nat, len: nat)
    requires c.Valid() && 0 < c.group && len <= c.group && Run(c, acts).r.Live()
    requires InSendOrder(c, acts, false, Burst(a, len))
    requires forall x: nat :: x < |Run(c, acts).s.sent| && !(a <= x < a + len) ==> x in Run(c, acts).seen
    requires forall x: nat :: x < |Run(c, acts).s.sent| && a <= x < a + len ==> Parities(c, Run(c, acts), false, x)
    ensures Run(c, acts).r.readSeq == |Run(c, acts).s.sent|
  {
    hide Run, InSendOrder, Spread, Parities;
    BurstIsSpread(c, a, len);
    SpreadLossesAreRepaired(c, acts, Burst(a, len));
  }

  // --- exactly which losses are repaired ---

  predicate Companion(c: Config, row: bool, S: set<nat>, x: nat) {
    exists y :: y in S && y != x && c.BaseOf(row, y) == c.BaseOf(row, x)
  }

  /** No frame of S is the only one missing from any of its groups. */
  predicate Stopping(c: Config, S: set<nat>) {
    forall x, row :: x in S && Uses(c, row) ==> Companion(c, row, S, x)
  }

  /** Peeling can start from whatever part of the losses is left. */
  ghost predicate Peelable(c: Config, lost: set<nat>) {
    forall S :: S <= lost && Stopping(c, S) ==> S == {}
  }

  /**
   * Everything but `lost` was received in send order with the parities; of what was lost some came
   * later, and the parities of the rest arrived.
   */
  ghost predicate OnlyLost(c: Config, acts: seq<Action>, lost: set<nat>)
    requires c.Valid()
  {
    var y := Run(c, acts);
    && (forall x: nat :: x < |y.s.sent| && x !in lost ==> x in y.seen)
    && (forall x :: x in lost ==> x < |y.s.sent|)
    && (forall row :: Uses(c, row) ==> InSendOrder(c, acts, row, lost) && FewAtOnce(c, acts, row, lost))
    && (forall x, row :: x in lost && x !in y.seen && Uses(c, row) ==> Parities(c, y, row, x))
  }

  function Missing(y: Sys): set<nat> {
    set x: nat | x in UpTo(|y.s.sent|) && !Has(y.r, x)
  }

  /** A frame still missing has a companion missing from each of its groups. */
  lemma MissingStops(c: Config, y: Sys, row: bool, x: nat)
    requires Inv(c, y) && y.r.Live() && Uses(c, row) && Unevicted(y, row) && Parities(c, y, row, x)
    requires x in Missing(y)
    ensures Companion(c, row, Missing(y), x)
  {
    hide WriterOk, NetOk, AcksOk, NoLoss, ReaderOk, c.BaseOf, c.IdxOf, c.Member, Has, Below;
    var base := c.BaseOf(row, x);
    var count := y.arrived[(row, base)];
    SeqIsMember(c, row, x);
    assert base in y.r.Pend(row) || AllHere(c, y.r, row, base, count);
    assert TwoMissing(c, y.r, row, base, count);
    var i: nat, j: nat :| i < j < count && !Has(y.r, c.Member(row, base, i)) && !Has(y.r, c.Member(row, base, j));
    var k := if c.IdxOf(row, x) == i then j else i;
    MissingMember(c, y, row, base, count, k);
  }

  lemma MissingMember(c: Config, y: Sys, row: bool, base: nat, count: nat, k: nat)
    requires Inv(c, y) && (row, base) in y.arrived && y.arrived[(row, base)] == count && k < count
    requires !Has(y.r, c.Member(row, base, k))
    ensures c.Member(row, base, k) in Missing(y) && c.BaseOf(row, c.Member(row, base, k)) == base
    ensures c.IdxOf(row, c.Member(row, base, k)) == k
  {
    hide WriterOk, NetOk, AcksOk, NoLoss, ReaderOk, ClosureOk, Has, Below, c.BaseOf, c.IdxOf;
    assert GroupCount(c, y.s, row, base, count);
    MemberOfGroup(c, row, base, k);
    if k < count - 1 {
      MemberOrder(c, row, base, k, count - 1);
    }
  }

  /** A sent frame of a group is covered by the parity that arrived for the group. */
  lemma SentIsCovered(c: Config, y: Sys, row: bool, x: nat)
    requires Inv(c, y) && c.group > 0 && x < |y.s.sent| && (row, c.BaseOf(row, x)) in y.arrived
    ensures c.IdxOf(row, x) < y.arrived[(row, c.BaseOf(row, x))]
    ensures c.Member(row, c.BaseOf(row, x), c.IdxOf(row, x)) == x
  {
    hide WriterOk, NetOk, AcksOk, NoLoss, ReaderOk, ClosureOk, c.BaseOf, c.IdxOf;
    var base := c.BaseOf(row, x);
    SeqIsMember(c, row, x);
    BelowIff(c, row, base, |y.s.sent|, c.group, c.IdxOf(row, x));
    assert GroupCount(c, y.s, row, base, y.arrived[(row, base)]);
  }

  /** What is left when a stopping set is taken away is closed under every parity. */
  lemma OutsideClosed(c: Config, y: Sys, S: set<nat>, k: Key)
    requires Inv(c, y) && k in y.arrived && Stopping(c, S) && (forall x :: x in S ==> x < |y.s.sent|)
    ensures Closed(c, UpTo(|y.s.sent|) - S, k.0, k.1, y.arrived[k])
  {
    hide WriterOk, NetOk, AcksOk, NoLoss, ReaderOk, ClosureOk, c.BaseOf, c.IdxOf, c.Member, Has, GroupCount;
    var C, count := UpTo(|y.s.sent|) - S, y.arrived[k];
    forall m: nat | m < count && (forall i: nat :: i < count && i != m ==> c.Member(k.0, k.1, i) in C)
      ensures c.Member(k.0, k.1, m) in C
    {
      var x := c.Member(k.0, k.1, m);
      CountedMember(c, y, k, m);
      if x in S {
        assert Companion(c, k.0, S, x);
        var z :| z in S && z != x && c.BaseOf(k.0, z) == c.BaseOf(k.0, x);
        SentIsCovered(c, y, k.0, z);
        assert false;
      }
    }
  }

  lemma CountedMember(c: Config, y: Sys, k: Key, m: nat)
    requires Inv(c, y) && k in y.arrived && m < y.arrived[k]
    ensures Uses(c, k.0) && c.Member(k.0, k.1, m) < |y.s.sent| && c.BaseOf(k.0, c.Member(k.0, k.1, m)) == k.1
  {
    hide WriterOk, NetOk, AcksOk, NoLoss, ReaderOk, ClosureOk, c.BaseOf, c.IdxOf;
    var count := y.arrived[k];
    assert GroupCount(c, y.s, k.0, k.1, count);
    MemberOfGroup(c, k.0, k.1, m);
    if m < count - 1 {
      MemberOrder(c, k.0, k.1, m, count - 1);
    }
  }

  lemma HeldIsSent(c: Config, y: Sys, x: nat)
    requires Inv(c, y) && y.r.Live() && Has(y.r, x)
    ensures x < |y.s.sent|
  {
    hide WriterOk, NetOk, AcksOk, NoLoss, ClosureOk, AccsOk, PendOk;
  }

  /** No frame of a lost stopping set is ever recovered. */
  lemma StoppingStays(c: Config, y: Sys, S: set<nat>, x: nat)
    requires Inv(c, y) && y.r.Live() && Stopping(c, S) && x in S
    requires forall z :: z in S ==> z < |y.s.sent| && z !in y.seen
    ensures !Has(y.r, x)
  {
    hide WriterOk, NetOk, AcksOk, NoLoss, ReaderOk, ArrivedOk, Has, Closed, Stopping;
    var C := UpTo(|y.s.sent|) - S;
    forall z | z in y.seen ensures z in C {
      assert Has(y.r, z);
      HeldIsSent(c, y, z);
    }
    forall k | k in y.arrived ensures Closed(c, C, k.0, k.1, y.arrived[k]) {
      OutsideClosed(c, y, S, k);
    }
    assert ArrivedClosed(c, C, y.arrived);
    assert Within(y.r, C);
  }

  lemma CompleteIff(c: Config, y: Sys)
    requires Inv(c, y) && y.r.Live()
    ensures y.r.readSeq == |y.s.sent| <==> Missing(y) == {}
  {
    hide WriterOk, NetOk, AcksOk, NoLoss, ClosureOk, AccsOk, PendOk;
    if y.r.readSeq < |y.s.sent| {
      assert y.r.readSeq in UpTo(|y.s.sent|);
      assert y.r.readSeq in Missing(y);
    }
  }

  /**
   * With every other frame and the parities of the lost ones received in send order, and never too
   * many lost frames missing at once, what did not come later is repaired if and only if it
   * contains no stopping set: a set of frames each of which shares each of its groups with another.
   */
  lemma RepairedIffPeelable(c: Config, acts: seq<Action>, lost: set<nat>)
    requires c.Valid() && 0 < c.group && Run(c, acts).r.Live() && OnlyLost(c, acts, lost)
    ensures Run(c, acts).r.readSeq == |Run(c, acts).s.sent| <==> Peelable(c, lost - Run(c, acts).seen)
  {
    hide Run, Inv, InSendOrder, FewAtOnce, Parities, Companion;
    var y := Run(c, acts);
    var gone := lost - y.seen;
    RunOk(c, acts);
    CompleteIff(c, y);
    if Peelable(c, gone) {
      var S := Missing(y);
      forall x | x in S ensures x in gone {
        MissingIsLost(c, y, lost, x);
      }
      assert S <= gone;
      forall x, row | x in S && Uses(c, row) ensures Companion(c, row, S, x) {
        FewLossesNeverEvict(c, acts, row, lost);
        MissingStops(c, y, row, x);
      }
    } else {
      var S :| S <= gone && Stopping(c, S) && S != {};
      var x :| x in S;
      StoppingStays(c, y, S, x);
      assert x in Missing(y);
    }
  }

  lemma SeenIsHeld(c: Config, y: Sys, x: nat)
    requires Inv(c, y) && y.r.Live() && x in y.seen
    ensures Has(y.r, x)
  {
    hide WriterOk, NetOk, AcksOk, NoLoss, ReaderOk, ArrivedOk, Has;
  }

  // --- small losses ---

  lemma FourDistinct(S: set<nat>, a: nat, b: nat, d: nat, e: nat)
    requires a in S && b in S && d in S && e in S
    requires a != b && a != d && a != e && b != d && b != e && d != e
    ensures |S| >= 4
  {
    var T := {a, b, d, e};
    assert |T| == 4;
    Subset(T, S);
  }

  lemma {:induction false} Subset(T: set<nat>, S: set<nat>)
    requires T <= S
    ensures |T| <= |S|
  {
    if T != {} {
      var x :| x in T;
      Subset(T - {x}, S - {x});
    }
  }

  /** In two dimensions a stopping set is at least a rectangle: it has four frames or more. */
  lemma StoppingIsRectangle(c: Config, S: set<nat>)
    requires c.group > 0 && c.twoD && Stopping(c, S) && S != {}
    ensures |S| >= 4
  {
    hide c.BaseOf;
    var a :| a in S;
    assert Companion(c, false, S, a) && Companion(c, true, S, a);
    var b :| b in S && b != a && c.BaseOf(false, b) == c.BaseOf(false, a);
    var d :| d in S && d != a && c.BaseOf(true, d) == c.BaseOf(true, a);
    assert Companion(c, true, S, b);
    var e :| e in S && e != b && c.BaseOf(true, e) == c.BaseOf(true, b);
    ColumnMeetsRowOnce(c, a, b);
    FourDistinct(S, a, b, d, e);
  }

  /** Four frames can be enough: two neighbours in one row and the frames below them in the next. */
  lemma RectangleStops(c: Config)
    requires c.Valid() && 0 < c.group
    ensures Stopping(c, {0, 1, c.group, c.group + 1})
  {
    var g := c.group;
    var S := {0, 1, g, g + 1};
    assert c.BaseOf(false, g) == c.BaseOf(false, 0) && c.BaseOf(false, g + 1) == c.BaseOf(false, 1) by {
      assert c.ColIdx(0) == 0 && c.ColIdx(1) == 0;
      assert c.ColIdx(g) == 1 && c.ColIdx(g + 1) == 1;
    }
    assert c.BaseOf(true, 1) == c.BaseOf(true, 0) && c.BaseOf(true, g + 1) == c.BaseOf(true, g) by {
      assert c.Lane(0) == 0 && c.Lane(1) == 1 && c.Lane(g) == 0 && c.Lane(g + 1) == 1;
    }
    hide c.BaseOf;
    forall x, row | x in S && Uses(c, row) ensures Companion(c, row, S, x) {
      var y := if row then (if x == 0 then 1 else if x == 1 then 0 else if x == g then g + 1 else g)
               else (if x < 2 then x + g else x - g);
      assert y in S && y != x && c.BaseOf(row, y) == c.BaseOf(row, x);
    }
  }

  /** With both dimensions, losses of which at most three did not come later are repaired without retransmission of those. */
  lemma ThreeLossesAreRepaired(c: Config, acts: seq<Action>, lost: set<nat>)
    requires c.Valid() && 0 < c.group && c.twoD && Run(c, acts).r.Live() && OnlyLost(c, acts, lost)
    requires |lost - Run(c, acts).seen| <= 3
    ensures Run(c, acts).r.readSeq == |Run(c, acts).s.sent|
  {
    hide Run, OnlyLost, Stopping;
    var gone := lost - Run(c, acts).seen;
    forall S | S <= gone && Stopping(c, S) ensures S == {} {
      if S != {} {
        StoppingIsRectangle(c, S);
        Subset(S, gone);
      }
    }
    RepairedIffPeelable(c, acts, lost);
  }

  // --- and a run that is not repaired ---

  const ONE := Write([7], 4)
  const FOUR: set<nat> := {0, 1, 2, 3}

  /** k frames of one byte were written, and none received. */
  ghost predicate Written(c: Config, y: Sys, k: nat) {
    && Inv(c, y) && y.r == Fresh(c) && y.seen == {} && y.arrived == map[]
    && !y.s.fin && !y.s.failed && |y.s.sent| == k == y.s.sentOffset && y.s.ackedBytes == 0 && y.s.maxOffset == c.InitialWindow()
  }

  lemma WriterReady(c: Config, y: Sys)
    requires Inv(c, y) && !y.s.fin
    ensures c.Valid() && (y.s.lanes == [] || |y.s.lanes| == c.group)
  {
    hide NetOk, ClosureOk, ArrivedOk, NoLoss, AcksOk, ReaderOk, LaneIs, Records;
  }

  lemma OneWritten(c: Config, y: Sys, k: nat)
    requires Written(c, y, k) && k < 4
    ensures Written(c, Step(c, y, ONE), k + 1)
  {
    hide Inv, WriteChunk;
    WriterReady(c, y);
    StepOk(c, y, ONE);
    WriteKeeps(c, y.s, [7]);
    assert Enabled(c, y, ONE);
  }

  lemma FourWritten(c: Config)
    requires c.Valid()
    ensures Written(c, Run(c, [ONE, ONE, ONE, ONE]), 4)
  {
    hide Step, Inv;
    StartOk(c);
    var a := [ONE];
    RunUnfold(c, [], ONE);
    RunUnfold(c, a, ONE);
    RunUnfold(c, a + a, ONE);
    RunUnfold(c, a + a + a, ONE);
    assert [] + a == a && a + a + a + a == [ONE, ONE, ONE, ONE];
    OneWritten(c, Run(c, []), 0);
    OneWritten(c, Run(c, a), 1);
    OneWritten(c, Run(c, a + a), 2);
    OneWritten(c, Run(c, a + a + a), 3);
  }

  /** All four frames are lost, and the parities of these groups were received. */
  ghost predicate Heard(c: Config, acts: seq<Action>, keys: set<Key>)
    requires c.Valid()
  {
    var y := Run(c, acts);
    && y.r.Live() && !y.s.fin && !y.s.failed && |y.s.sent| == 4 && y.seen == {}
    && y.arrived.Keys == keys && (forall k :: k in keys ==> y.arrived[k] == c.group)
    && InSendOrder(c, acts, false, FOUR) && InSendOrder(c, acts, true, FOUR)
  }

  lemma {:induction false} WritesInOrder(c: Config, acts: seq<Action>, row: bool)
    requires c.Valid() && (forall a :: a in acts ==> a.Write?)
    ensures InSendOrder(c, acts, row, FOUR)
  {
    if acts != [] {
      hide Run;
      assert acts[|acts| - 1] in acts;
      WritesInOrder(c, acts[..|acts| - 1], row);
    }
  }

  lemma ParityKeepsLive(c: Config, y: Sys, f: Frame)
    requires Inv(c, y) && !y.s.fin && Enabled(c, y, RecvParity(f, {}))
    ensures Step(c, y, RecvParity(f, {})).r.Live()
  {
    hide TryReconstruct, WriterOk, ClosureOk, ArrivedOk, NoLoss, AcksOk, Core, Genuine, AllHere, TwoMissing, StoreParity;
    NetHas(c, y, f);
    TryReconstructOk(c, {}, y.s.sent, y.got, y.r, f.row, f.base, f.p);
  }

  lemma OnWireMembers(c: Config, y: Sys, f: Frame)
    requires Inv(c, y) && f in y.net && f.ParityFrame? && |y.s.sent| == 4
    ensures 0 < f.p.count <= c.group && c.IsBase(f.row, f.base)
    ensures forall i: nat :: i < f.p.count ==> c.Member(f.row, f.base, i) in FOUR
  {
    hide WriterOk, ClosureOk, ArrivedOk, NoLoss, AcksOk, ReaderOk, Genuine, Below;
    NetHas(c, y, f);
    var count := f.p.count;
    forall i: nat | i < count ensures c.Member(f.row, f.base, i) in FOUR {
      if i < count - 1 {
        MemberOrder(c, f.row, f.base, i, count - 1);
      }
    }
  }

  /** The parity of a full group can be received at once. */
  lemma ParityAtHand(c: Config, acts: seq<Action>, row: bool, base: nat) returns (f: Frame)
    requires c.Valid() && c.group == 2 && c.twoD && Run(c, acts).r.Live() && |Run(c, acts).s.sent| == 4
    requires c.IsBase(row, base) && c.Member(row, base, 1) < 4
    ensures f.ParityFrame? && f.row == row && f.base == base && f.p.count == c.group
    ensures Enabled(c, Run(c, acts), RecvParity(f, {})) && Accounted(c, Run(c, acts), row, base, c.group, FOUR)
  {
    hide Run, Inv, c.IsBase, c.Member;
    RunOk(c, acts);
    FullGroupsAreSent(c, acts, row, base);
    var p: Parity :| ParityFrame(row, base, p) in Run(c, acts).net && p.count == c.group;
    f := ParityFrame(row, base, p);
    OnWireMembers(c, Run(c, acts), f);
  }

  lemma HearParity(c: Config, acts: seq<Action>, keys: set<Key>, row: bool, base: nat) returns (more: seq<Action>)
    requires c.Valid() && c.group == 2 && c.twoD && Heard(c, acts, keys)
    requires c.IsBase(row, base) && c.Member(row, base, 1) < 4
    ensures Heard(c, more, keys + {(row, base)})
  {
    hide Run, Inv, c.IsBase, c.Member, Step, Enabled, InSendOrder, Accounted;
    var f := ParityAtHand(c, acts, row, base);
    var a := RecvParity(f, {});
    more := acts + [a];
    RunOk(c, acts);
    RunUnfold(c, acts, a);
    ParityKeepsLive(c, Run(c, acts), f);
    SeenSame(c, Run(c, acts), a);
    Unfolded(c, acts, a, false);
    Unfolded(c, acts, a, true);
  }

  lemma SeenSame(c: Config, y: Sys, a: Action)
    requires a.RecvParity? && Enabled(c, y, a)
    ensures var z := Step(c, y, a);
            z.seen == y.seen && z.s == y.s && z.arrived == y.arrived[(a.f.row, a.f.base) := a.f.p.count]
  {
    hide ApplyFec, Evicts;
  }

  lemma Unfolded(c: Config, acts: seq<Action>, a: Action, row: bool)
    requires c.Valid() && InSendOrder(c, acts, row, FOUR) && a.RecvParity? && a.f.ParityFrame?
    requires Accounted(c, Run(c, acts), a.f.row, a.f.base, a.f.p.count, FOUR)
    ensures InSendOrder(c, acts + [a], row, FOUR)
  {
    hide Run, Accounted;
    assert (acts + [a])[..|acts|] == acts;
  }

  const CORNERS: set<Key> := {(true, 0), (true, 2), (false, 0), (false, 1)}

  lemma HeardOnly(c: Config, acts: seq<Action>)
    requires c.Valid() && c.group == 2 && c.twoD && Heard(c, acts, CORNERS)
    ensures OnlyLost(c, acts, FOUR)
  {
    TwoByTwo(c);
    hide Run, InSendOrder, FewAtOnce, c.BaseOf, c.IdxOf, c.IsBase, c.Member;
    FewInAll(c, acts, false, FOUR);
    FewInAll(c, acts, true, FOUR);
    forall x, row | x in FOUR && Uses(c, row) ensures Parities(c, Run(c, acts), row, x) {
      assert (row, c.BaseOf(row, x)) in CORNERS;
    }
  }

  lemma HearAll(c: Config) returns (acts: seq<Action>)
    requires c.Valid() && c.group == 2 && c.twoD
    ensures Heard(c, acts, CORNERS)
  {
    TwoByTwo(c);
    acts := FirstHeard(c);
    hide Heard, c.IsBase, c.Member, c.BaseOf, c.IdxOf;
    var none: set<Key> := {};
    acts := HearParity(c, acts, none, true, 0);
    acts := HearParity(c, acts, none + {(true, 0)}, true, 2);
    acts := HearParity(c, acts, none + {(true, 0)} + {(true, 2)}, false, 0);
    acts := HearParity(c, acts, none + {(true, 0)} + {(true, 2)} + {(false, 0)}, false, 1);
    assert none + {(true, 0)} + {(true, 2)} + {(false, 0)} + {(false, 1)} == CORNERS;
  }

  lemma FirstHeard(c: Config) returns (acts: seq<Action>)
    requires c.Valid()
    ensures Heard(c, acts, {})
  {
    hide Run, Inv, InSendOrder;
    acts := [ONE, ONE, ONE, ONE];
    FourWritten(c);
    WritesInOrder(c, acts, false);
    WritesInOrder(c, acts, true);
  }

  /** With groups of two, both dimensions and all four parities received, the rectangle of four lost frames is not repaired. */
  lemma RectangleIsReachable(c: Config) returns (acts: seq<Action>)
    requires c.Valid() && c.group == 2 && c.twoD
    ensures OnlyLost(c, acts, FOUR) && Run(c, acts).r.Live() && Run(c, acts).seen == {}
    ensures Run(c, acts).r.readSeq < |Run(c, acts).s.sent| == 4
  {
    hide Run, Inv, OnlyLost, InSendOrder, Stopping;
    acts := HearAll(c);
    HeardOnly(c, acts);
    RunOk(c, acts);
    RepairedIffPeelable(c, acts, FOUR);
    RectangleStops(c);
    assert FOUR == {0, 1, c.group, c.group + 1};
    assert FOUR - Run(c, acts).seen == FOUR;
    PositionIn(c, Run(c, acts));
  }

  lemma PositionIn(c: Config, y: Sys)
    requires Inv(c, y) && !y.s.fin
    ensures y.r.readSeq <= |y.s.sent|
  {
    hide WriterOk, NetOk, ClosureOk, ArrivedOk, NoLoss, AcksOk, ReaderOk;
  }

  /** The first block of a stream with groups of two. */
  lemma TwoByTwo(c: Config)
    requires c.group == 2
    ensures c.IsBase(true, 0) && c.IsBase(true, 2) && c.IsBase(false, 0) && c.IsBase(false, 1)
    ensures c.Member(true, 0, 1) == 1 && c.Member(true, 2, 1) == 3 && c.Member(false, 0, 1) == 2 && c.Member(false, 1, 1) == 3
    ensures forall x: nat :: x in FOUR ==> c.BaseOf(true, x) == (if x < 2 then 0 else 2) && c.IdxOf(true, x) < 2
    ensures forall x: nat :: x in FOUR ==> c.BaseOf(false, x) == (if x == 0 || x == 2 then 0 else 1) && c.IdxOf(false, x) < 2
  {
    assert c.Lane(0) == 0 && c.Lane(1) == 1 && c.Lane(2) == 0 && c.Lane(3) == 1;
    assert c.ColIdx(0) == 0 && c.ColIdx(1) == 0 && c.ColIdx(2) == 1 && c.ColIdx(3) == 1;
    assert c.ColBase(0) == 0 && c.ColBase(1) == 1 && c.ColBase(2) == 0 && c.ColBase(3) == 1;
  }
}
