/**
 * The token bucket shared by the connections of one egress circuit.  Times are
 * nanoseconds; tokens and charges are wire bytes.
 */
module Pacing {
  import opened Bytes

  const SECOND := 1_000_000_000
  const DEFAULT_BURST := 2_000_000     // two milliseconds of rate

  datatype Accounting = Accounting(overhead: int, minimum: int)

  /** Carrier-counted bytes of one datagram: the least cost that covers both its size with overhead and the minimum. */
  function Cost(a: Accounting, udp: nat): (c: nat)
    ensures c >= udp + a.overhead && c >= udp && c >= a.minimum
    ensures c == udp + a.overhead || c == udp || c == a.minimum
  {
    Max(udp + Max(a.overhead, 0), Max(a.minimum, 0))
  }

  datatype Bucket = Bucket(rate: nat, burst: nat, tokens: int, last: int) {
    predicate Valid() {
      rate > 0 && burst > 0 && tokens <= burst
    }
  }

  /** A bucket starts full; a missing burst is two milliseconds of rate, and at least one byte. */
  function Open(rate: nat, burst: int, now: int): (p: Bucket)
    requires rate > 0
    ensures p.Valid() && p.tokens == p.burst && p.last == now && p.rate == rate
    ensures p.burst == if 0 < burst then burst else Max(rate / 500, 1)
  {
    var chosen := if burst <= 0 then rate * DEFAULT_BURST / SECOND else burst;
    var b := Max(chosen, 1);
    Bucket(rate, b, b, now)
  }

  /** Tokens earned since the last visit, whole ones only; less than one leaves the clock where it was. */
  function Refill(p: Bucket, now: int): Bucket {
    if now <= p.last then p
    else
      var space, earned := p.burst - p.tokens, (now - p.last) * p.rate;
      if space <= 0 || earned >= space * SECOND then p.(tokens := p.burst, last := now)
      else if earned >= SECOND then p.(tokens := p.tokens + earned / SECOND, last := now)
      else p
  }

  /** What the bucket must hold: critical batches may draw on one burst of debt, and no batch waits for more than a full bucket. */
  function Needed(p: Bucket, wire: nat, critical: bool): int {
    Min(if critical then wire - p.burst else wire, p.burst)
  }

  datatype Visit = Visit(wire: nat, critical: bool, now: int)

  datatype Verdict = Verdict(p: Bucket, granted: bool)

  function Attempt(p: Bucket, v: Visit): Verdict {
    var r := Refill(p, v.now);
    if r.tokens >= Needed(r, v.wire, v.critical) then Verdict(r.(tokens := r.tokens - v.wire), true) else Verdict(r, false)
  }

  // --- runs of visits ---

  function After(p: Bucket, vs: seq<Visit>): Bucket {
    if vs == [] then p else Attempt(After(p, vs[..|vs| - 1]), vs[|vs| - 1]).p
  }

  /** Wire bytes granted over a run of visits. */
  function Granted(p: Bucket, vs: seq<Visit>): nat {
    if vs == [] then 0
    else
      var n := |vs| - 1;
      Granted(p, vs[..n]) + if Attempt(After(p, vs[..n]), vs[n]).granted then vs[n].wire else 0
  }

  /** The clock is read under the bucket's lock, so it never runs backwards. */
  predicate Timed(from: int, vs: seq<Visit>) {
    && (forall i :: 0 <= i < |vs| ==> from <= vs[i].now)
    && (forall i, j :: 0 <= i < j < |vs| ==> vs[i].now <= vs[j].now)
  }

  predicate Bounded(vs: seq<Visit>, most: nat) {
    forall i :: 0 <= i < |vs| ==> vs[i].wire <= most
  }

  // --- credit ---

  /** Tokens in billionths of a byte, the part earned but not yet credited included. */
  function Credit(p: Bucket, now: int): int {
    p.tokens * SECOND + p.rate * (now - p.last)
  }

  lemma CreditLater(p: Bucket, now: int, later: int)
    ensures Credit(p, later) == Credit(p, now) + p.rate * (later - now)
  {
  }

  /** Refilling never creates credit, and afterwards there is never more than a full bucket's worth. */
  lemma RefillCredit(p: Bucket, now: int)
    requires p.Valid()
    ensures var r := Refill(p, now);
            && r.Valid() && r.rate == p.rate && r.burst == p.burst && r.tokens >= p.tokens
            && Credit(r, now) <= Credit(p, now) && Credit(r, now) <= p.burst * SECOND
            && (p.last <= now ==> r.last <= now)
  {
    var earned := (now - p.last) * p.rate;
    assert Credit(p, now) == p.tokens * SECOND + earned;
    if p.last < now {
      assert earned > 0;
      assert earned / SECOND * SECOND <= earned;
    } else {
      assert earned <= 0;
    }
  }

  /** A grant leaves the bucket no deeper in debt than one burst, or than an indivisible batch exceeds a full bucket. */
  lemma AttemptFloor(p: Bucket, v: Visit, cost: nat)
    requires p.Valid() && 0 < cost && v.wire <= p.burst - 1 + cost
    requires p.tokens >= -Max(p.burst, cost - 1)
    ensures Attempt(p, v).p.tokens >= -Max(p.burst, cost - 1)
  {
    RefillCredit(p, v.now);
  }

  lemma AttemptCredit(p: Bucket, v: Visit)
    requires p.Valid()
    ensures var a := Attempt(p, v);
            && a.p.Valid() && a.p.rate == p.rate && a.p.burst == p.burst
            && Credit(a.p, v.now) + (if a.granted then v.wire * SECOND else 0) <= Credit(p, v.now)
            && Credit(a.p, v.now) + (if a.granted then v.wire * SECOND else 0) <= p.burst * SECOND
            && (p.last <= v.now ==> a.p.last <= v.now)
  {
    RefillCredit(p, v.now);
    var r := Refill(p, v.now);
    assert (r.tokens - v.wire) * SECOND == r.tokens * SECOND - v.wire * SECOND;
  }

  /** After any run of bounded visits the debt is bounded. */
  lemma {:induction false} RunFloor(p: Bucket, vs: seq<Visit>, cost: nat)
    requires p.Valid() && 0 < cost && Bounded(vs, p.burst - 1 + cost) && p.tokens >= -Max(p.burst, cost - 1)
    ensures After(p, vs).Valid() && After(p, vs).burst == p.burst && After(p, vs).rate == p.rate
    ensures After(p, vs).tokens >= -Max(p.burst, cost - 1)
  {
    if vs != [] {
      var n := |vs| - 1;
      RunFloor(p, vs[..n], cost);
      AttemptCredit(After(p, vs[..n]), vs[n]);
      AttemptFloor(After(p, vs[..n]), vs[n], cost);
    }
  }

  lemma RunUnfold(p: Bucket, vs: seq<Visit>)
    requires vs != []
    ensures var n := |vs| - 1;
            var a := Attempt(After(p, vs[..n]), vs[n]);
            && After(p, vs) == a.p
            && Granted(p, vs) == Granted(p, vs[..n]) + (if a.granted then vs[n].wire else 0)
  {
    hide Attempt;
  }

  /** Granted bytes and remaining credit together never exceed a full bucket plus what the elapsed time earned. */
  lemma {:induction false} RunCredit(p: Bucket, vs: seq<Visit>, from: int)
    requires p.Valid() && vs != [] && Timed(from, vs) && p.last <= from
    ensures var q, t := After(p, vs), vs[|vs| - 1].now;
            && q.Valid() && q.rate == p.rate && q.burst == p.burst && q.last <= t
            && Granted(p, vs) * SECOND + Credit(q, t) <= p.burst * SECOND + p.rate * (t - vs[0].now)
  {
    hide After, Granted, Attempt, Credit;
    var n := |vs| - 1;
    var q := After(p, vs[..n]);
    RunUnfold(p, vs);
    if n == 0 {
      NothingGranted(p);
      assert vs[..n] == [];
      AttemptCredit(p, vs[0]);
    } else {
      RunCredit(p, vs[..n], from);
      AttemptCredit(q, vs[n]);
      CreditLater(q, vs[n - 1].now, vs[n].now);
      Spread(p.rate, vs[0].now, vs[n - 1].now, vs[n].now);
    }
  }

  lemma Spread(r: nat, a: int, b: int, c: int)
    ensures r * (b - a) + r * (c - b) == r * (c - a)
  {
  }

  lemma TimedTail(from: int, before: seq<Visit>, vs: seq<Visit>)
    requires Timed(from, before + vs) && vs != []
    ensures Timed(vs[0].now, vs)
  {
    assert forall i :: 0 <= i < |vs| ==> vs[i] == (before + vs)[|before| + i];
  }

  /** The bound for the visits from one state on. */
  lemma BoundFrom(q: Bucket, vs: seq<Visit>, cost: nat, span: int)
    requires q.Valid() && 0 < cost && q.tokens >= -Max(q.burst, cost - 1) && Bounded(vs, q.burst - 1 + cost)
    requires vs != [] && Timed(vs[0].now, vs) && q.last <= vs[0].now && vs[|vs| - 1].now - vs[0].now <= span
    ensures Granted(q, vs) * SECOND <= (q.burst + Max(q.burst, cost - 1)) * SECOND + q.rate * span
  {
    hide After, Granted, Credit, Bounded, Timed;
    var t := vs[|vs| - 1].now;
    RunCredit(q, vs, vs[0].now);
    RunFloor(q, vs, cost);
    CreditFloor(After(q, vs), t);
    Longer(q.rate, t - vs[0].now, span);
  }

  /**
   * The rate bound: after any history, the wire bytes granted by any run of visits that
   * falls in a window of length t is at most burst + rate * t + max(burst, cost - 1), when
   * no batch exceeds burst - 1 + cost.
   */
  lemma WindowBound(p: Bucket, before: seq<Visit>, vs: seq<Visit>, cost: nat, from: int, until: int)
    requires p.Valid() && 0 < cost && p.tokens >= -Max(p.burst, cost - 1)
    requires Bounded(before, p.burst - 1 + cost) && Bounded(vs, p.burst - 1 + cost)
    requires Timed(p.last, before + vs)
    requires forall v :: v in vs ==> from <= v.now <= until
    requires from <= until
    ensures Granted(After(p, before), vs) * SECOND <= (p.burst + Max(p.burst, cost - 1)) * SECOND + p.rate * (until - from)
  {
    hide After, Granted, Bounded, Timed;
    RunFloor(p, before, cost);
    var q := After(p, before);
    if vs == [] {
      Longer(p.rate, 0, until - from);
      NothingGranted(q);
    } else {
      assert vs[0] in vs && vs[|vs| - 1] in vs;
      LastBefore(p, before, vs);
      TimedTail(p.last, before, vs);
      BoundFrom(q, vs, cost, until - from);
    }
  }

  lemma CreditFloor(p: Bucket, now: int)
    requires p.last <= now
    ensures Credit(p, now) >= p.tokens * SECOND
  {
    assert p.rate * (now - p.last) >= 0;
  }

  lemma NothingGranted(p: Bucket)
    ensures Granted(p, []) == 0 && After(p, []) == p
  {
  }

  lemma Longer(r: nat, a: int, b: int)
    requires a <= b
    ensures r * a <= r * b
  {
  }

  lemma {:induction false} LastBefore(p: Bucket, before: seq<Visit>, vs: seq<Visit>)
    requires p.Valid() && vs != [] && Timed(p.last, before + vs)
    ensures After(p, before).Valid() && After(p, before).last <= vs[0].now
  {
    if before == [] {
      assert (before + vs)[0] == vs[0];
    } else {
      var n := |before| - 1;
      var tail := [before[n]] + vs;
      assert before[..n] + tail == before + vs;
      LastBefore(p, before[..n], tail);
      AttemptCredit(After(p, before[..n]), before[n]);
      assert (before + vs)[n] == before[n] && (before + vs)[n + 1] == vs[0];
    }
  }

  /** A batch short of tokens is granted exactly when the deficit has been earned in whole tokens. */
  lemma GrantedWhenEarned(p: Bucket, v: Visit)
    requires p.Valid() && p.last < v.now && p.tokens < Needed(p, v.wire, v.critical)
    ensures Attempt(p, v).granted <==> (v.now - p.last) * p.rate >= (Needed(p, v.wire, v.critical) - p.tokens) * SECOND
  {
    var need, earned := Needed(p, v.wire, v.critical), (v.now - p.last) * p.rate;
    assert earned >= 0;
    assert earned / SECOND >= need - p.tokens <==> earned >= (need - p.tokens) * SECOND;
  }

  // --- who may go, and when ---

  /** The balance at a time: what was left and what the whole nanoseconds since have earned, up to a full bucket. */
  function Balance(p: Bucket, now: int): int {
    Min(p.burst, p.tokens + Max(now - p.last, 0) * p.rate / SECOND)
  }

  lemma RefillIsBalance(p: Bucket, now: int)
    requires p.Valid()
    ensures Refill(p, now).tokens == Balance(p, now)
  {
    var earned, space := Max(now - p.last, 0) * p.rate, p.burst - p.tokens;
    assert earned >= 0;
    WholeTokens(earned, space);
    WholeTokens(earned, 1);
    if now <= p.last {
      assert earned == 0;
    }
  }

  lemma WholeTokens(earned: int, k: int)
    requires earned >= 0
    ensures earned / SECOND >= k <==> earned >= k * SECOND
  {
  }

  /**
   * Frequent visits do not starve the bucket: one that earns no whole token leaves the clock where it
   * was, and any other credits more than half of what the time since was worth, unless it fills the bucket.
   */
  lemma RefillLosesLittle(p: Bucket, now: int)
    requires p.Valid()
    ensures var r := Refill(p, now);
            r == p || r.tokens == r.burst || (r.tokens > p.tokens && 2 * (r.tokens - p.tokens) * SECOND > p.rate * (r.last - p.last))
  {
    if p.last < now {
      var earned := (now - p.last) * p.rate;
      assert earned >= SECOND ==> earned / SECOND >= 1;
      assert earned < (earned / SECOND + 1) * SECOND;
    }
  }

  /**
   * What each class needs.  Ordinary batches are granted exactly if the balance covers them, critical
   * ones exactly if the charge leaves no more than one burst of debt; a batch too large for
   * that is granted exactly from a full bucket.  A granted batch is charged in full, another not at all.
   */
  lemma GrantedIff(p: Bucket, v: Visit)
    requires p.Valid()
    ensures var a, have := Attempt(p, v), Balance(p, v.now);
            && (!v.critical && v.wire <= p.burst ==> (a.granted <==> v.wire <= have))
            && (v.critical && v.wire <= 2 * p.burst ==> (a.granted <==> v.wire <= have + p.burst))
            && ((if v.critical then 2 * p.burst else p.burst) < v.wire ==> (a.granted <==> have == p.burst))
            && a.p.tokens == (if a.granted then have - v.wire else have)
  {
    RefillIsBalance(p, v.now);
    hide Refill;
    RefillKeepsShape(p, v.now);
  }

  lemma RefillKeepsShape(p: Bucket, now: int)
    ensures Refill(p, now).burst == p.burst && Refill(p, now).rate == p.rate
  {
  }

  predicate Ordinary(vs: seq<Visit>) {
    forall v :: v in vs ==> !v.critical
  }

  lemma OrdinaryStep(p: Bucket, v: Visit, cost: nat)
    requires p.Valid() && 0 < cost && !v.critical && v.wire <= p.burst - 1 + cost && p.tokens >= -(cost - 1)
    ensures Attempt(p, v).p.Valid() && Attempt(p, v).p.burst == p.burst && Attempt(p, v).p.tokens >= -(cost - 1)
  {
    GrantedIff(p, v);
    AttemptCredit(p, v);
    assert Balance(p, v.now) >= p.tokens by { RefillIsBalance(p, v.now); RefillCredit(p, v.now); }
  }

  /** Ordinary traffic alone takes no debt but for the excess of one indivisible batch. */
  lemma {:induction false} OrdinaryFloor(p: Bucket, vs: seq<Visit>, cost: nat)
    requires p.Valid() && 0 < cost && p.tokens >= -(cost - 1) && Ordinary(vs) && Bounded(vs, p.burst - 1 + cost)
    ensures After(p, vs).Valid() && After(p, vs).burst == p.burst && After(p, vs).tokens >= -(cost - 1)
  {
    hide Attempt;
    if vs != [] {
      var n := |vs| - 1;
      assert vs[n] in vs;
      OrdinaryFloor(p, vs[..n], cost);
      OrdinaryStep(After(p, vs[..n]), vs[n], cost);
    }
  }

  /**
   * The reserve: after any run of ordinary traffic, however heavy, a critical batch that leaves
   * room for that excess is granted at its first visit.
   */
  lemma CriticalIsNotDelayed(p: Bucket, vs: seq<Visit>, cost: nat, v: Visit)
    requires p.Valid() && 0 < cost && p.tokens >= -(cost - 1) && Ordinary(vs) && Bounded(vs, p.burst - 1 + cost)
    requires v.critical && v.wire + cost - 1 <= p.burst
    ensures Attempt(After(p, vs), v).granted
  {
    hide After, Attempt, Ordinary, Bounded;
    OrdinaryFloor(p, vs, cost);
    var q := After(p, vs);
    GrantedIff(q, v);
    assert Balance(q, v.now) >= q.tokens by { RefillIsBalance(q, v.now); RefillCredit(q, v.now); }
  }

  // --- the shared object ---

  class WirePacer {
    const rate: nat
    const burst: nat
    var tokens: int
    var last: int

    ghost function View(): Bucket
      reads this
    {
      Bucket(rate, burst, tokens, last)
    }

    constructor (rate: nat, burst: int, now: int)
      requires rate > 0
      ensures View() == Open(rate, burst, now)
    {
      var b := burst;
      if b <= 0 {
        b := rate * DEFAULT_BURST / SECOND;
      }
      if b < 1 {
        b := 1;
      }
      this.rate, this.burst, tokens, last := rate, b, b, now;
    }

    method RefillLocked(now: int)
      modifies this
      ensures View() == Refill(old(View()), now)
    {
      if now <= last {
        return;
      }
      var space := burst - tokens;
      if space <= 0 {
        tokens, last := burst, now;
        return;
      }
      var earned := (now - last) * rate;
      if earned >= space * SECOND {
        tokens, last := burst, now;
      } else if earned >= SECOND {
        tokens, last := tokens + earned / SECOND, now;
      }
    }

    /**
     * One turn per round of the loop until granted: the bucket is visited unless a batch of a class
     * with precedence is waiting.  False if the connection closes before that.
     */
    method WaitBatch(wire: nat, critical: bool, turns: seq<Turn>) returns (ok: bool, taken: nat)
      modifies this
      ensures wire == 0 ==> ok && taken == 0
      ensures taken <= |turns| && (!ok ==> taken == |turns|)
      ensures var vs := Tries(wire, critical, turns[..taken]);
              View() == After(old(View()), vs) && Granted(old(View()), vs) == if ok then wire else 0
    {
      taken := 0;
      if wire == 0 {
        return true, 0;
      }
      while taken < |turns|
        invariant taken <= |turns|
        invariant View() == After(old(View()), Tries(wire, critical, turns[..taken]))
        invariant Granted(old(View()), Tries(wire, critical, turns[..taken])) == 0
      {
        TriesSnoc(wire, critical, turns, taken);
        var turn := turns[taken];
        taken := taken + 1;
        if turn.At? {
          RefillLocked(turn.now);
          var needed := if critical then wire - burst else wire;
          if needed > burst {
            needed := burst;
          }
          if tokens >= needed {
            tokens := tokens - wire;
            return true, taken;
          }
        }
      }
      ok := false;
    }
  }

  /** A round of the waiting loop: yield to a class with precedence, or visit the bucket at this time. */
  datatype Turn = Yield | At(now: int)

  function Tries(wire: nat, critical: bool, turns: seq<Turn>): seq<Visit> {
    if turns == [] then []
    else
      var n := |turns| - 1;
      var t := Tries(wire, critical, turns[..n]);
      if turns[n].At? then t + [Visit(wire, critical, turns[n].now)] else t
  }

  lemma TriesSnoc(wire: nat, critical: bool, turns: seq<Turn>, n: nat)
    requires n < |turns|
    ensures var t, u := Tries(wire, critical, turns[..n]), Tries(wire, critical, turns[..n + 1]);
            if turns[n].At? then u == t + [Visit(wire, critical, turns[n].now)] && u[..|t|] == t else u == t
  {
    assert turns[..n + 1][..n] == turns[..n];
  }
}
