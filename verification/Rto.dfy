/** The retransmission timeout: smoothed round trip and variation, as sections 2 and 3 of RFC 6298 have them. */
module Rto {
  import opened Bytes

  datatype Rtt = Rtt(srtt: int, rttvar: int, rto: int)

  function Magnitude(x: int): nat {
    if x < 0 then -x else x
  }

  /** One sample; integer division truncates toward zero. */
  function Update(e: Rtt, floor: int, sample: int): Rtt {
    if sample <= 0 then e
    else
      var v := if e.srtt == 0 then Quotient(sample, 2)
               else e.rttvar + Quotient(Magnitude(e.srtt - sample) - e.rttvar, 4);
      var m := if e.srtt == 0 then sample else e.srtt + Quotient(sample - e.srtt, 8);
      Rtt(m, v, Max(m + 4 * v, floor))
  }

  /** The estimate after a whole history of samples; before the first, the configured timeout. */
  function After(initial: int, floor: int, samples: seq<int>): Rtt {
    if samples == [] then Rtt(0, 0, initial)
    else Update(After(initial, floor, samples[..|samples| - 1]), floor, samples[|samples| - 1])
  }

  /** Usable samples lie between lo and hi; the others are ignored. */
  predicate Within(samples: seq<int>, lo: int, hi: int) {
    forall i :: 0 <= i < |samples| && samples[i] > 0 ==> lo <= samples[i] <= hi
  }

  predicate Sampled(samples: seq<int>) {
    exists i :: 0 <= i < |samples| && samples[i] > 0
  }

  function Spread(lo: int, hi: int): int {
    Max(Quotient(hi, 2), hi - lo)
  }

  /** A truncated quarter or eighth of the way from a to b lies between them. */
  lemma Toward(a: int, b: int, k: int)
    requires k == 4 || k == 8
    ensures a <= b ==> a <= a + Quotient(b - a, k) <= b
    ensures b <= a ==> b <= a + Quotient(b - a, k) <= a
  {
    if k == 4 {
      assert a <= b ==> Quotient(b - a, 4) == (b - a) / 4;
    } else {
      assert a <= b ==> Quotient(b - a, 8) == (b - a) / 8;
    }
  }

  lemma Half(a: int, b: int)
    requires a <= b
    ensures 0 < a ==> 0 <= Quotient(a, 2) <= Quotient(b, 2)
  {
  }

  lemma SampledSnoc(past: seq<int>, x: int)
    ensures Sampled(past + [x]) <==> Sampled(past) || x > 0
  {
    var all := past + [x];
    assert all[|past|] == x;
    if Sampled(past) {
      var i :| 0 <= i < |past| && past[i] > 0;
      assert all[i] > 0;
    }
    if Sampled(all) {
      var i :| 0 <= i < |all| && all[i] > 0;
      assert i < |past| ==> past[i] > 0;
    }
  }

  lemma WithinSnoc(past: seq<int>, x: int, lo: int, hi: int)
    requires Within(past + [x], lo, hi)
    ensures Within(past, lo, hi) && (x > 0 ==> lo <= x <= hi)
  {
    var all := past + [x];
    assert all[|past|] == x;
    assert forall i :: 0 <= i < |past| ==> past[i] == all[i];
  }

  /** Mean, variation and timeout all within their bounds. */
  predicate InBounds(e: Rtt, floor: int, lo: int, hi: int) {
    && lo <= e.srtt <= hi && 0 <= e.rttvar <= Spread(lo, hi)
    && floor <= e.rto <= Max(floor, hi + 4 * Spread(lo, hi))
  }

  lemma StepBounded(e: Rtt, floor: int, x: int, lo: int, hi: int)
    requires 0 < lo <= x <= hi && (e.srtt == 0 || InBounds(e, floor, lo, hi))
    ensures InBounds(Update(e, floor, x), floor, lo, hi)
  {
    hide Quotient;
    Half(x, hi);
    Toward(e.srtt, x, 8);
    Toward(e.rttvar, Magnitude(e.srtt - x), 4);
  }

  /**
   * Over every history the smoothed round trip stays within the range of the samples, so it
   * never returns to zero and is initialised exactly once; the variation and the timeout
   * are bounded accordingly.
   */
  lemma {:induction false} EstimateBounded(initial: int, floor: int, samples: seq<int>, lo: int, hi: int)
    requires 0 < lo <= hi && Within(samples, lo, hi)
    ensures var e := After(initial, floor, samples);
            if Sampled(samples)
            then lo <= e.srtt <= hi && 0 <= e.rttvar <= Spread(lo, hi) && floor <= e.rto <= Max(floor, hi + 4 * Spread(lo, hi))
            else e == Rtt(0, 0, initial)
  {
    hide Spread, Within, Sampled;
    if samples == [] {
      NoSamples();
    } else {
      var n := |samples| - 1;
      var past, x := samples[..n], samples[n];
      assert samples == past + [x];
      WithinSnoc(past, x, lo, hi);
      SampledSnoc(past, x);
      EstimateBounded(initial, floor, past, lo, hi);
      if x > 0 {
        hide Update;
        StepBounded(After(initial, floor, past), floor, x, lo, hi);
      }
    }
  }

  lemma NoSamples()
    ensures !Sampled([])
  {
  }

  /**
   * The first usable sample, whatever came before it, sets the mean to itself and the variation to half
   * of itself: until the next one the timeout is three round trips, up to rounding, or the floor.
   */
  lemma FirstSample(initial: int, floor: int, ignored: seq<int>, sample: int)
    requires !Sampled(ignored) && sample > 0
    ensures var e := After(initial, floor, ignored + [sample]);
            && e.srtt == sample && 2 * e.rttvar <= sample <= 2 * e.rttvar + 1
            && Max(floor, 3 * sample - 2) <= e.rto <= Max(floor, 3 * sample)
  {
    EstimateBounded(initial, floor, ignored, 1, 1);
    assert (ignored + [sample])[..|ignored|] == ignored;
  }

  /** b lies the k-th part of the way from a to c, rounded toward a. */
  predicate PartWay(a: int, b: int, c: int, k: int) {
    && (a <= c ==> a <= b) && (c <= a ==> b <= a)
    && k * Magnitude(b - a) <= Magnitude(c - a) < k * Magnitude(b - a) + k
  }

  /** Each later sample moves the mean an eighth of the way to it, and the variation a quarter of the way to its deviation. */
  lemma UpdateDamps(e: Rtt, floor: int, sample: int)
    requires sample > 0 && e.srtt != 0
    ensures var n := Update(e, floor, sample);
            && PartWay(e.srtt, n.srtt, sample, 8) && PartWay(e.rttvar, n.rttvar, Magnitude(e.srtt - sample), 4)
            && (n.rto == floor || n.rto == n.srtt + 4 * n.rttvar) && floor <= n.rto && n.srtt + 4 * n.rttvar <= n.rto
  {
    Truncates(sample - e.srtt);
    Truncates(Magnitude(e.srtt - sample) - e.rttvar);
    hide Quotient;
  }

  lemma Truncates(d: int)
    ensures var q := Quotient(d, 8); (d >= 0 ==> 8 * q <= d < 8 * q + 8) && (d <= 0 ==> 8 * q - 8 < d <= 8 * q)
    ensures var q := Quotient(d, 4); (d >= 0 ==> 4 * q <= d < 4 * q + 4) && (d <= 0 ==> 4 * q - 4 < d <= 4 * q)
  {
  }

  function Pow(b: nat, n: nat): nat {
    if n == 0 then 1 else b * Pow(b, n - 1)
  }

  /** One more factor of 3/4. */
  lemma DecayStep(v: int, w: int, rtt: int, p: nat, q: nat)
    requires 4 * (w - 3) <= 3 * (v - 3) && p * (v - 3) <= q * rtt
    ensures (4 * p) * (w - 3) <= (3 * q) * rtt
  {
    assert p * (4 * (w - 3)) <= p * (3 * (v - 3));
    assert (4 * p) * (w - 3) == p * (4 * (w - 3));
    assert p * (3 * (v - 3)) == 3 * (p * (v - 3));
    assert (3 * q) * rtt == 3 * (q * rtt);
  }

  /** A sample equal to the mean leaves it, and takes a quarter off the variation. */
  lemma SteadyStep(e: Rtt, floor: int, rtt: int)
    requires 0 < rtt == e.srtt && 0 <= e.rttvar
    ensures var n := Update(e, floor, rtt);
            && n.srtt == rtt && 0 <= n.rttvar && 4 * (n.rttvar - 3) <= 3 * (e.rttvar - 3)
            && n.rto == Max(rtt + 4 * n.rttvar, floor)
  {
    Truncates(0);
    Truncates(-e.rttvar);
    hide Quotient;
  }

  lemma FirstStep(initial: int, floor: int, rtt: int)
    requires rtt > 0
    ensures var n := Update(Rtt(0, 0, initial), floor, rtt);
            n.srtt == rtt && 0 <= n.rttvar <= rtt && n.rto == Max(rtt + 4 * n.rttvar, floor)
  {
  }

  /**
   * On a steady path the mean is the round trip, and what the variation has above 3 ns shrinks by
   * at least a quarter per sample: after n + 1 samples it is at most (3/4)^n of the round trip.
   */
  lemma {:induction false} SteadyPath(initial: int, floor: int, rtt: int, n: nat)
    requires rtt > 0
    ensures var e := After(initial, floor, seq(n + 1, _ => rtt));
            && e.srtt == rtt && 0 <= e.rttvar && e.rto == Max(rtt + 4 * e.rttvar, floor)
            && Pow(4, n) * (e.rttvar - 3) <= Pow(3, n) * rtt
  {
    hide Update;
    var s := seq(n + 1, _ => rtt);
    assert s[..n] == seq(n, _ => rtt);
    var e := After(initial, floor, s[..n]);
    assert After(initial, floor, s) == Update(e, floor, rtt);
    if n == 0 {
      FirstStep(initial, floor, rtt);
    } else {
      SteadyPath(initial, floor, rtt, n - 1);
      SteadyStep(e, floor, rtt);
      DecayStep(e.rttvar, Update(e, floor, rtt).rttvar, rtt, Pow(4, n - 1), Pow(3, n - 1));
    }
  }

  class Estimator {
    var srtt: int
    var rttvar: int
    var rto: int
    const floor: int

    ghost function View(): Rtt
      reads this
    {
      Rtt(srtt, rttvar, rto)
    }

    constructor (initial: int, floor: int)
      ensures View() == After(initial, floor, []) && this.floor == floor
    {
      this.floor := floor;
      srtt, rttvar, rto := 0, 0, initial;
    }

    method UpdateRTO(sample: int)
      modifies this
      ensures View() == Update(old(View()), floor, sample)
    {
      if sample <= 0 {
        return;
      }
      if srtt == 0 {
        srtt := sample;
        rttvar := Quotient(sample, 2);
      } else {
        var diff := srtt - sample;
        if diff < 0 {
          diff := -diff;
        }
        rttvar := rttvar + Quotient(diff - rttvar, 4);
        srtt := srtt + Quotient(sample - srtt, 8);
      }
      rto := srtt + 4 * rttvar;
      if rto < floor {
        rto := floor;
      }
    }
  }
}
