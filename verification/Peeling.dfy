/**
 * Recovery is a closure: what the receiver holds depends only on which frames
 * arrived.  A parity leaves the buffer only when its group is complete, and one
 * that stays buffered misses two members or more.
 */
module Peeling {
  import opened Bytes
  import opened Geometry
  import opened Receiver
  import opened Exactness
  import opened Delivery

  /** C obeys the recovery rule of one parity: it never lacks exactly one member. */
  ghost predicate Closed(c: Config, C: set<nat>, row: bool, base: nat, count: nat) {
    forall m: nat :: m < count && (forall i: nat :: i < count && i != m ==> c.Member(row, base, i) in C)
                     ==> c.Member(row, base, m) in C
  }

  ghost predicate PendClosed(c: Config, C: set<nat>, r: RState) {
    && (forall b :: b in r.colPend ==> Closed(c, C, false, b, r.colPend[b].count))
    && (forall b :: b in r.rowPend ==> Closed(c, C, true, b, r.rowPend[b].count))
  }

  ghost predicate Within(r: RState, C: set<nat>) {
    forall x: nat :: Has(r, x) ==> x in C
  }

  /** Every buffered parity outside X misses at least two members. */
  ghost predicate QuietExcept(c: Config, r: RState, X: set<(bool, nat)>) {
    && (forall b :: b in r.colPend && (false, b) !in X ==> TwoMissing(c, r, false, b, r.colPend[b].count))
    && (forall b :: b in r.rowPend && (true, b) !in X ==> TwoMissing(c, r, true, b, r.rowPend[b].count))
  }

  /** A parity that left the buffer between r and s has all its members in s. */
  ghost predicate LeavesDone(c: Config, r: RState, s: RState) {
    && (forall b :: b in r.colPend && b !in s.colPend ==> AllHere(c, s, false, b, r.colPend[b].count))
    && (forall b :: b in r.rowPend && b !in s.rowPend ==> AllHere(c, s, true, b, r.rowPend[b].count))
  }

  /** What one operation that only adds `extra` does to the closure. */
  ghost predicate Peels(c: Config, r: RState, s: RState, X: set<(bool, nat)>, C: set<nat>, extra: bool) {
    && QuietExcept(c, s, X)
    && LeavesDone(c, r, s)
    && (extra && Within(r, C) && PendClosed(c, C, r) ==> Within(s, C))
  }

  lemma AllHereGrows(c: Config, r: RState, s: RState, row: bool, base: nat, count: nat)
    requires Keeps(r, s) && AllHere(c, r, row, base, count)
    ensures AllHere(c, s, row, base, count)
  {
    hide c.Member;
  }

  lemma LeavesDoneTrans(c: Config, r: RState, s: RState, t: RState)
    requires Keeps(r, s) && Keeps(s, t) && LeavesDone(c, r, s) && LeavesDone(c, s, t)
    ensures LeavesDone(c, r, t)
  {
    hide AllHere;
    forall b | b in r.colPend && b !in t.colPend ensures AllHere(c, t, false, b, r.colPend[b].count) {
      if b !in s.colPend {
        AllHereGrows(c, s, t, false, b, r.colPend[b].count);
      }
    }
    forall b | b in r.rowPend && b !in t.rowPend ensures AllHere(c, t, true, b, r.rowPend[b].count) {
      if b !in s.rowPend {
        AllHereGrows(c, s, t, true, b, r.rowPend[b].count);
      }
    }
  }

  /** The two groups a frame belongs to. */
  function KeysOf(c: Config, sn: nat): set<(bool, nat)> {
    {(false, c.BaseOf(false, sn)), (true, c.BaseOf(true, sn))}
  }

  lemma StillTwoMissing(c: Config, sent: seq<Bytes>, r: RState, s: RState, sn: nat, row: bool, b: nat, p: Parity)
    requires forall x: nat :: Has(s, x) ==> Has(r, x) || x == sn
    requires Genuine(c, sent, row, b, p) && b != c.BaseOf(row, sn) && TwoMissing(c, r, row, b, p.count)
    ensures TwoMissing(c, s, row, b, p.count)
  {
    hide c.BaseOf, c.IdxOf, c.Member;
    var i: nat, j: nat :| i < j < p.count && !Has(r, c.Member(row, b, i)) && !Has(r, c.Member(row, b, j));
    MemberOfGroup(c, row, b, i);
    MemberOfGroup(c, row, b, j);
    assert !Has(s, c.Member(row, b, i)) && !Has(s, c.Member(row, b, j));
  }

  /** Putting a frame in place disturbs only the two groups it belongs to. */
  lemma AdmitPeels(c: Config, ramp: set<nat>, sent: seq<Bytes>, got: Bytes, r: RState, sn: nat,
                   X: set<(bool, nat)>, C: set<nat>)
    requires Good(c, sent, got, r) && r.Live() && sn < |sent| && QuietExcept(c, r, X)
    ensures var a := Admit(c, ramp, r, sn, sent[sn]);
            QuietExcept(c, a.r, X + KeysOf(c, sn)) && (!a.novel ==> QuietExcept(c, a.r, X)) &&
            (Within(r, C) && sn in C ==> Within(a.r, C))
  {
    hide Admit, CorePre, Genuine, TwoMissing, FinOk, KeepsBuf, c.BaseOf;
    AdmitOk(c, ramp, sent, got, r, sn);
    var a := Admit(c, ramp, r, sn, sent[sn]);
    var Y := if a.novel then X + KeysOf(c, sn) else X;
    forall b | b in a.r.colPend && (false, b) !in Y ensures TwoMissing(c, a.r, false, b, a.r.colPend[b].count) {
      PendingIsGenuine(c, sent, got, r, false, b);
      StillTwo(c, sent, r, a.r, a.novel, sn, false, b, a.r.colPend[b]);
    }
    forall b | b in a.r.rowPend && (true, b) !in Y ensures TwoMissing(c, a.r, true, b, a.r.rowPend[b].count) {
      PendingIsGenuine(c, sent, got, r, true, b);
      StillTwo(c, sent, r, a.r, a.novel, sn, true, b, a.r.rowPend[b]);
    }
    hide Has;
  }

  lemma StillTwo(c: Config, sent: seq<Bytes>, r: RState, s: RState, novel: bool, sn: nat, row: bool, b: nat, p: Parity)
    requires forall x: nat :: Has(s, x) <==> Has(r, x) || x == sn
    requires novel == !Has(r, sn)
    requires Genuine(c, sent, row, b, p) && TwoMissing(c, r, row, b, p.count)
    requires novel ==> b != c.BaseOf(row, sn)
    ensures TwoMissing(c, s, row, b, p.count)
  {
    if novel {
      StillTwoMissing(c, sent, r, s, sn, row, b, p);
    } else {
      hide c.Member;
      var i: nat, j: nat :| i < j < p.count && !Has(r, c.Member(row, b, i)) && !Has(r, c.Member(row, b, j));
      assert !Has(s, c.Member(row, b, i)) && !Has(s, c.Member(row, b, j));
    }
  }

  lemma TryPeels(c: Config, ramp: set<nat>, sent: seq<Bytes>, got: Bytes, r: RState, row: bool, base: nat, p: Parity,
                 X: set<(bool, nat)>, C: set<nat>)
    requires Good(c, sent, got, r) && Genuine(c, sent, row, base, p) && QuietExcept(c, r, X)
    ensures Peels(c, r, TryReconstruct(c, ramp, r, row, base, p).r, X, C, Closed(c, C, row, base, p.count))
    decreases r.NumPend(), 3
  {
    hide Good, TryReconstruct, Deliver, Genuine, c.Member, QuietExcept, LeavesDone, PendClosed;
    var k := TryCases(c, ramp, sent, got, r, row, base, p);
    if k.Yields? {
      DeliverPeels(c, ramp, sent, got, r, c.Member(row, base, k.m), X, C);
    } else {
      LeavesDoneSame(c, r);
    }
  }

  lemma LeavesDoneSame(c: Config, r: RState)
    ensures LeavesDone(c, r, r)
  {
  }

  lemma DropQuiet(c: Config, r: RState, row: bool, base: nat, X: set<(bool, nat)>, C: set<nat>)
    requires QuietExcept(c, r, X + {(row, base)}) && base in r.Pend(row)
    ensures var r1 := r.WithPend(row, r.Pend(row) - {base});
            QuietExcept(c, r1, X) && (Within(r, C) ==> Within(r1, C)) && (PendClosed(c, C, r) ==> PendClosed(c, C, r1))
    ensures PendClosed(c, C, r) ==> Closed(c, C, row, base, r.Pend(row)[base].count)
  {
    hide Closed, c.Member;
    var r1 := r.WithPend(row, r.Pend(row) - {base});
    forall b | b in r1.colPend && (false, b) !in X ensures TwoMissing(c, r1, false, b, r1.colPend[b].count) {
      assert (false, b) !in X + {(row, base)};
      SameHas(c, r, r1, false, b, r1.colPend[b].count);
    }
    forall b | b in r1.rowPend && (true, b) !in X ensures TwoMissing(c, r1, true, b, r1.rowPend[b].count) {
      assert (true, b) !in X + {(row, base)};
      SameHas(c, r, r1, true, b, r1.rowPend[b].count);
    }
  }

  lemma SameHas(c: Config, r: RState, s: RState, row: bool, b: nat, count: nat)
    requires r.readSeq == s.readSeq && r.reorder == s.reorder && TwoMissing(c, r, row, b, count)
    ensures TwoMissing(c, s, row, b, count)
  {
    hide c.Member;
    var i: nat, j: nat :| i < j < count && !Has(r, c.Member(row, b, i)) && !Has(r, c.Member(row, b, j));
    assert !Has(s, c.Member(row, b, i)) && !Has(s, c.Member(row, b, j));
  }

  lemma PutBackQuiet(c: Config, r: RState, row: bool, base: nat, X: set<(bool, nat)>)
    requires QuietExcept(c, r, X + {(row, base)}) && base in r.Pend(row)
    requires TwoMissing(c, r, row, base, r.Pend(row)[base].count)
    ensures QuietExcept(c, r, X)
  {
    hide TwoMissing;
  }

  lemma ClaimDone(c: Config, r: RState, row: bool, base: nat, t: RState)
    requires base in r.Pend(row)
    requires LeavesDone(c, r.WithPend(row, r.Pend(row) - {base}), t)
    requires AllHere(c, t, row, base, r.Pend(row)[base].count)
    ensures LeavesDone(c, r, t)
  {
    hide AllHere;
  }

  lemma NoEntryQuiet(c: Config, r: RState, row: bool, base: nat, X: set<(bool, nat)>)
    requires QuietExcept(c, r, X + {(row, base)}) && base !in r.Pend(row)
    ensures QuietExcept(c, r, X)
  {
    hide TwoMissing;
  }

  /** What a claimed parity leaves behind, whichever way its reconstruction ends. */
  lemma ClaimPeels(c: Config, r: RState, row: bool, base: nat, t: Tried, X: set<(bool, nat)>, C: set<nat>)
    requires base in r.Pend(row) && QuietExcept(c, r, X + {(row, base)})
    requires var r1 := r.WithPend(row, r.Pend(row) - {base});
             var count := r.Pend(row)[base].count;
             Peels(c, r1, t.r, X, C, Closed(c, C, row, base, count)) &&
             (t.outcome.FecPending? ==> TwoMissing(c, r1, row, base, count)) &&
             (!t.outcome.FecPending? ==> AllHere(c, t.r, row, base, count))
    ensures Peels(c, r, if t.outcome.FecPending? then r else t.r, X, C, true)
  {
    hide QuietExcept, LeavesDone, PendClosed, Within, Closed, TwoMissing, AllHere;
    var r1 := r.WithPend(row, r.Pend(row) - {base});
    DropQuiet(c, r, row, base, X, C);
    if t.outcome.FecPending? {
      SameHas(c, r1, r, row, base, r.Pend(row)[base].count);
      PutBackQuiet(c, r, row, base, X);
      LeavesDoneSame(c, r);
    } else {
      ClaimDone(c, r, row, base, t.r);
    }
  }

  lemma RetryBasePeels(c: Config, ramp: set<nat>, sent: seq<Bytes>, got: Bytes, r: RState, row: bool, base: nat,
                       X: set<(bool, nat)>, C: set<nat>)
    requires Good(c, sent, got, r) && QuietExcept(c, r, X + {(row, base)})
    ensures Peels(c, r, RetryBase(c, ramp, r, row, base), X, C, true)
    decreases r.NumPend(), 0
  {
    if base in r.Pend(row) {
      hide Good, TryReconstruct, RetryBase, Genuine, QuietExcept, Peels, Keeps, AllHere, TwoMissing;
      var p := r.Pend(row)[base];
      var r1 := r.WithPend(row, r.Pend(row) - {base});
      RetryUnfold(c, ramp, r, row, base);
      DropPending(c, sent, got, r, row, base);
      DropQuiet(c, r, row, base, X, C);
      PendingIsGenuine(c, sent, got, r, row, base);
      TryReconstructOk(c, ramp, sent, got, r1, row, base, p);
      TryPeels(c, ramp, sent, got, r1, row, base, p, X, C);
      ClaimPeels(c, r, row, base, TryReconstruct(c, ramp, r1, row, base, p), X, C);
    } else {
      hide TwoMissing, Good, QuietExcept;
      NoEntryQuiet(c, r, row, base, X);
      LeavesDoneSame(c, r);
    }
  }

  /** Without the second dimension there are no row parities to disturb. */
  lemma NoRows(c: Config, sent: seq<Bytes>, got: Bytes, r: RState, base: nat, X: set<(bool, nat)>)
    requires Good(c, sent, got, r) && !c.twoD && QuietExcept(c, r, X + {(true, base)})
    ensures QuietExcept(c, r, X)
  {
    hide TwoMissing, AccOk, BufOk;
  }

  lemma PeelsTrans(c: Config, r: RState, s: RState, t: RState, Y: set<(bool, nat)>, X: set<(bool, nat)>, C: set<nat>)
    requires Keeps(r, s) && Keeps(s, t) && Peels(c, r, s, Y, C, true) && Peels(c, s, t, X, C, true)
    ensures Peels(c, r, t, X, C, true)
  {
    hide Closed;
    LeavesDoneTrans(c, r, s, t);
  }

  lemma RetrySeqPeels(c: Config, ramp: set<nat>, sent: seq<Bytes>, got: Bytes, r: RState, sn: nat,
                      X: set<(bool, nat)>, C: set<nat>)
    requires Good(c, sent, got, r) && c.group > 0 && QuietExcept(c, r, X + KeysOf(c, sn))
    ensures Peels(c, r, RetrySeq(c, ramp, r, sn), X, C, true)
    decreases r.NumPend(), 1
  {
    hide Good, RetryBase, QuietExcept, LeavesDone, PendClosed, Within;
    var cb, rb := c.BaseOf(false, sn), c.BaseOf(true, sn);
    var Y := X + {(true, rb)};
    assert Y + {(false, cb)} == X + KeysOf(c, sn);
    RetryBasePeels(c, ramp, sent, got, r, false, cb, Y, C);
    RetryBaseOk(c, ramp, sent, got, r, false, cb);
    var r1 := RetryBase(c, ramp, r, false, cb);
    if c.twoD {
      RetryBasePeels(c, ramp, sent, got, r1, true, rb, X, C);
      RetryBaseOk(c, ramp, sent, got, r1, true, rb);
      PeelsTrans(c, r, r1, RetryBase(c, ramp, r1, true, rb), Y, X, C);
    } else {
      NoRows(c, sent, got, r1, rb, X);
    }
  }

  lemma DeliverPeels(c: Config, ramp: set<nat>, sent: seq<Bytes>, got: Bytes, r: RState, sn: nat,
                     X: set<(bool, nat)>, C: set<nat>)
    requires Good(c, sent, got, r) && r.Live() && sn < |sent| && QuietExcept(c, r, X)
    ensures Peels(c, r, Deliver(c, ramp, r, sn, sent[sn], false).r, X, C, sn in C)
    decreases r.NumPend(), 2
  {
    DeliverDataPeels(c, ramp, sent, got, r, sn, X, C);
    hide DeliverData, Good;
    var d := DeliverData(c, ramp, r, sn, sent[sn]);
    AckQuiet(c, d.r, d.r.ackPending + [sn], X);
    hide QuietExcept, PendClosed, TwoMissing;
  }

  lemma AckQuiet(c: Config, r: RState, acks: seq<nat>, X: set<(bool, nat)>)
    requires QuietExcept(c, r, X)
    ensures QuietExcept(c, r.(ackPending := acks), X)
  {
    hide c.Member, TwoMissing;
    var s := r.(ackPending := acks);
    forall b | b in s.colPend && (false, b) !in X ensures TwoMissing(c, s, false, b, s.colPend[b].count) {
      SameHas(c, r, s, false, b, s.colPend[b].count);
    }
    forall b | b in s.rowPend && (true, b) !in X ensures TwoMissing(c, s, true, b, s.rowPend[b].count) {
      SameHas(c, r, s, true, b, s.rowPend[b].count);
    }
  }

  lemma DeliverDataPeels(c: Config, ramp: set<nat>, sent: seq<Bytes>, got: Bytes, r: RState, sn: nat,
                         X: set<(bool, nat)>, C: set<nat>)
    requires Good(c, sent, got, r) && r.Live() && sn < |sent| && QuietExcept(c, r, X)
    ensures Peels(c, r, DeliverData(c, ramp, r, sn, sent[sn]).r, X, C, sn in C)
    decreases r.NumPend(), 2, 0
  {
    hide Admit, RetrySeq, Good, QuietExcept, Within, Closed, AllHere;
    AdmitOk(c, ramp, sent, got, r, sn);
    AdmitPeels(c, ramp, sent, got, r, sn, X, C);
    var a := Admit(c, ramp, r, sn, sent[sn]);
    if a.novel {
      if c.group > 0 {
        RetrySeqPeels(c, ramp, sent, got, a.r, sn, X, C);
      } else {
        NoFec(c, sent, got, a.r, X, X + KeysOf(c, sn));
        RetryNothing(c, ramp, a.r, sn);
      }
    }
  }

  lemma RetryNothing(c: Config, ramp: set<nat>, r: RState, sn: nat)
    requires c.group == 0
    ensures RetrySeq(c, ramp, r, sn) == r
  {
  }

  lemma NoFec(c: Config, sent: seq<Bytes>, got: Bytes, r: RState, X: set<(bool, nat)>, Y: set<(bool, nat)>)
    requires Good(c, sent, got, r) && c.group == 0 && QuietExcept(c, r, Y)
    ensures QuietExcept(c, r, X)
  {
    hide TwoMissing, AccOk, BufOk;
  }
}
