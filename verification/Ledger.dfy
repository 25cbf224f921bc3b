/** One stream's unacknowledged frames, and how acknowledgements remove them. */
module Ledger {
  import opened Bytes

  const MAX_CUM_ADVANCE := 0x10_0000

  type Unacked = map<nat, Bytes>

  datatype Swept = Swept(rest: Unacked, freed: nat)

  function Remove(u: Unacked, k: nat): Swept {
    if k in u then Swept(u - {k}, |u[k]|) else Swept(u, 0)
  }

  /** Visits from, from+1, ..., upto-1 and removes what is there. */
  function SweepRange(u: Unacked, from: nat, upto: nat): Swept
    decreases upto - from
  {
    if from >= upto then Swept(u, 0)
    else
      var a := Remove(u, from);
      var b := SweepRange(a.rest, from + 1, upto);
      Swept(b.rest, a.freed + b.freed)
  }

  function SweepList(u: Unacked, seqs: seq<nat>): Swept {
    if seqs == [] then Swept(u, 0)
    else
      var a := Remove(u, seqs[0]);
      var b := SweepList(a.rest, seqs[1..]);
      Swept(b.rest, a.freed + b.freed)
  }

  datatype Cumulative = Cumulative(rest: Unacked, through: nat, freed: nat)

  /** A watermark is accepted unless it is stale or implausibly far ahead. */
  predicate Accepted(through: nat, cum: nat) {
    through < cum <= through + MAX_CUM_ADVANCE
  }

  function AckCumulative(u: Unacked, through: nat, cum: nat): Cumulative {
    if !Accepted(through, cum) then Cumulative(u, through, 0)
    else
      var s := SweepRange(u, through, cum);
      Cumulative(s.rest, cum, s.freed)
  }

  lemma {:induction false} SweepRangeSnoc(u: Unacked, from: nat, upto: nat)
    requires from <= upto
    ensures var a := SweepRange(u, from, upto);
            var b := Remove(a.rest, upto);
            SweepRange(u, from, upto + 1) == Swept(b.rest, a.freed + b.freed)
    decreases upto - from
  {
    if from < upto {
      SweepRangeSnoc(Remove(u, from).rest, from + 1, upto);
    }
  }

  lemma {:induction false} SweepListSnoc(u: Unacked, seqs: seq<nat>, k: nat)
    ensures var a := SweepList(u, seqs);
            var b := Remove(a.rest, k);
            SweepList(u, seqs + [k]) == Swept(b.rest, a.freed + b.freed)
  {
    if seqs != [] {
      SweepListSnoc(Remove(u, seqs[0]).rest, seqs[1..], k);
      assert (seqs + [k])[1..] == seqs[1..] + [k];
    }
  }

  lemma {:induction false} SweepRangeRemoves(u: Unacked, from: nat, upto: nat)
    ensures SweepRange(u, from, upto).rest == map k | k in u && !(from <= k < upto) :: u[k]
    decreases upto - from
  {
    if from < upto {
      var a := Remove(u, from);
      SweepRangeRemoves(a.rest, from + 1, upto);
      assert a.rest.Keys == u.Keys - {from};
    }
  }

  /** Sweeping only from where the last sweep stopped removes every frame below the watermark. */
  lemma CumulativeCoversAll(u: Unacked, through: nat, cum: nat)
    requires forall k :: k in u ==> through <= k
    requires Accepted(through, cum)
    ensures AckCumulative(u, through, cum).rest == map k | k in u && cum <= k :: u[k]
    ensures forall k :: k in AckCumulative(u, through, cum).rest ==> AckCumulative(u, through, cum).through <= k
  {
    SweepRangeRemoves(u, through, cum);
  }

  lemma {:induction false} SweepListRemoves(u: Unacked, seqs: seq<nat>)
    ensures SweepList(u, seqs).rest == map k | k in u && k !in seqs :: u[k]
  {
    if seqs != [] {
      var a := Remove(u, seqs[0]);
      SweepListRemoves(a.rest, seqs[1..]);
      assert seqs == [seqs[0]] + seqs[1..];
    }
  }

  /** The frames of u are frames of sent; anything past the end of sent carries no counted data. */
  predicate Records(sent: seq<Bytes>, u: Unacked) {
    forall k :: k in u ==> if k < |sent| then u[k] == sent[k] else u[k] == []
  }

  /** Payload bytes still unacknowledged. */
  function InFlight(sent: seq<Bytes>, u: Unacked): nat {
    SumIn(sent, u.Keys, 0)
  }

  lemma RemoveConserves(sent: seq<Bytes>, u: Unacked, k: nat)
    requires Records(sent, u)
    ensures InFlight(sent, Remove(u, k).rest) + Remove(u, k).freed == InFlight(sent, u)
    ensures Records(sent, Remove(u, k).rest)
  {
    if k in u {
      assert (u - {k}).Keys == u.Keys - {k};
      assert u.Keys == u.Keys - {k} + {k};
      if k < |sent| {
        SumInAdd(sent, u.Keys - {k}, 0, k);
      } else {
        SumInPastEnd(sent, u.Keys - {k}, 0, k);
      }
    }
  }

  lemma {:induction false} SumInPastEnd(s: seq<Bytes>, keys: set<nat>, a: nat, k: nat)
    requires |s| <= k
    ensures SumIn(s, keys + {k}, a) == SumIn(s, keys, a)
    decreases |s| - a
  {
    if a < |s| {
      SumInPastEnd(s, keys, a + 1, k);
    }
  }

  /** Every byte an acknowledgement frees leaves the in-flight total exactly once. */
  lemma {:induction false} SweepRangeConserves(sent: seq<Bytes>, u: Unacked, from: nat, upto: nat)
    requires Records(sent, u)
    ensures var s := SweepRange(u, from, upto);
            InFlight(sent, s.rest) + s.freed == InFlight(sent, u) && Records(sent, s.rest)
    decreases upto - from
  {
    if from < upto {
      RemoveConserves(sent, u, from);
      SweepRangeConserves(sent, Remove(u, from).rest, from + 1, upto);
    }
  }

  lemma {:induction false} SweepListConserves(sent: seq<Bytes>, u: Unacked, seqs: seq<nat>)
    requires Records(sent, u)
    ensures var s := SweepList(u, seqs);
            InFlight(sent, s.rest) + s.freed == InFlight(sent, u) && Records(sent, s.rest)
  {
    if seqs != [] {
      RemoveConserves(sent, u, seqs[0]);
      SweepListConserves(sent, Remove(u, seqs[0]).rest, seqs[1..]);
    }
  }
}
