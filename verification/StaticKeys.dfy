/**
 * The receiver keys parity groups by closed formulas over the sequence number.
 * They agree with the counting lanes of `Geometry` on every input.
 */
module StaticKeys {
  import opened Geometry

  lemma MulMono(a: nat, b: nat, d: nat)
    requires a <= b
    ensures a * d <= b * d
  {
  }

  lemma MulSplit(a: int, b: int, d: int)
    ensures (a + b) * d == a * d + b * d
  {
  }

  lemma DivModUnique(n: nat, d: nat, q: nat, r: nat)
    requires d > 0 && n == q * d + r && r < d
    ensures n / d == q && n % d == r
  {
    var e := n / d;
    if e < q {
      MulMono(e + 1, q, d);
      MulSplit(e, 1, d);
      assert false;
    } else if e > q {
      MulMono(q + 1, e, d);
      MulSplit(q, 1, d);
      assert false;
    }
  }

  /** n has block q, index i and lane r in a stream laid out G*G at a time. */
  predicate At(g: nat, n: nat, q: nat, i: nat, r: nat) {
    n == (q * g + i) * g + r && i < g && r < g
  }

  lemma AtDivisions(g: nat, h: nat, n: nat, q: nat, i: nat, r: nat)
    requires h == g * g && At(g, n, q, i, r)
    ensures n / g == q * g + i && n % g == r
    ensures n / g % g == i
    ensures n / h == q && n % h == i * g + r
    ensures n == q * h + i * g + r
  {
    DivModUnique(n, g, q * g + i, r);
    DivModUnique(q * g + i, g, q, i);
    MulSplit(q * g, i, g);
    assert q * g * g == q * h;
    MulMono(i + 1, g, g);
    MulSplit(i, 1, g);
    DivModUnique(n, h, q, i * g + r);
  }

  lemma AtExists(g: nat, h: nat, n: nat)
    requires g > 0 && h == g * g
    ensures At(g, n, n / h, n / g % g, n % g)
  {
    assert At(g, n, n / g / g, n / g % g, n % g);
    AtDivisions(g, h, n, n / g / g, n / g % g, n % g);
  }

  lemma NextInLane(g: nat, h: nat, s: nat, q: nat, i: nat, r: nat)
    requires h == g * g && At(g, s, q, i, r)
    ensures i + 1 < g ==> At(g, s + g, q, i + 1, r)
    ensures i + 1 == g ==> At(g, s + g, q + 1, 0, r)
  {
    MulSplit(q * g + i, 1, g);
    MulSplit(q, 1, g);
  }

  /** The receiver's formulas, evaluated at sn, give lane l, index i and column base b. */
  predicate Formulas(g: nat, sn: nat, l: nat, i: nat, b: nat) {
    g > 0 && g * g > 0 && sn % g == l && sn / g % g == i && sn / (g * g) * (g * g) + sn % g == b
  }

  lemma QuotientIsNat(n: nat, h: nat) returns (q: nat)
    requires h > 0
    ensures q == n / h
  {
    q := n / h;
  }

  lemma FormulasAt(g: nat, h: nat, s: nat, l: nat, i: nat, b: nat) returns (q: nat)
    requires h == g * g && h > 0 && Formulas(g, s, l, i, b)
    ensures At(g, s, q, i, l) && b == q * h + l
  {
    hide At;
    q := QuotientIsNat(s, h);
    AtExists(g, h, s);
  }

  lemma AtFormulas(g: nat, n: nat, q: nat, i: nat, r: nat)
    requires At(g, n, q, i, r)
    ensures Formulas(g, n, r, i, q * (g * g) + r)
    ensures i == 0 ==> n == q * (g * g) + r
  {
    AtDivisions(g, g * g, n, q, i, r);
  }

  lemma FormulaStep(g: nat, s: nat, l: nat, i: nat, b: nat)
    requires Formulas(g, s, l, i, b)
    ensures i + 1 == g ==> Formulas(g, s + g, l, 0, s + g)
    ensures i + 1 < g ==> Formulas(g, s + g, l, i + 1, b)
  {
    var q := FormulasAt(g, g * g, s, l, i, b);
    hide Formulas;
    NextInLane(g, g * g, s, q, i, l);
    hide At;
    if i + 1 < g {
      AtFormulas(g, s + g, q, i + 1, l);
    } else if i + 1 == g {
      AtFormulas(g, s + g, q + 1, 0, l);
    }
  }

  /** The closed formulas are the lanes' own counting. */
  lemma {:induction false} FormulasCount(c: Config, sn: nat)
    requires c.group > 0
    ensures Formulas(c.group, sn, c.Lane(sn), c.ColIdx(sn), c.ColBase(sn))
  {
    if sn < c.group {
      SmallSeq(c.group, c.group * c.group, sn);
    } else {
      hide Formulas;
      FormulasCount(c, sn - c.group);
      var s := sn - c.group;
      FormulaStep(c.group, s, c.Lane(s), c.ColIdx(s), c.ColBase(s));
    }
  }

  lemma SmallSeq(g: nat, h: nat, sn: nat)
    requires sn < g && h == g * g
    ensures sn % g == sn && sn / g % g == 0 && sn / h * h + sn % g == sn
  {
    DivModUnique(sn, g, 0, sn);
    assert g <= h;
    DivModUnique(sn, h, 0, sn);
    DivModUnique(0, g, 0, 0);
  }

  /** The row formula, likewise. */
  lemma RowFormula(c: Config, sn: nat)
    requires c.group > 0
    ensures sn / c.group * c.group == sn - c.Lane(sn)
    ensures sn % c.group == c.Lane(sn)
  {
    hide Formulas;
    FormulasCount(c, sn);
    FormulaLane(c.group, sn, c.Lane(sn), c.ColIdx(sn), c.ColBase(sn));
    WholePart(c.group, sn);
  }

  /** The members of a group, in closed form: its base and then every stride. */
  lemma {:induction false} MemberFormula(c: Config, row: bool, base: nat, i: nat)
    ensures c.Member(row, base, i) == base + i * c.Stride(row)
  {
    if i > 0 {
      MemberFormula(c, row, base, i - 1);
      MulSplit(i - 1, 1, c.Stride(row));
    }
  }

  /** The last possible member of a group. */
  lemma LastMember(c: Config, row: bool, base: nat)
    requires c.group > 0
    ensures c.Member(row, base, c.group - 1) == if row then base + c.group - 1 else base + c.group * c.group - c.group
  {
    MemberFormula(c, row, base, c.group - 1);
    MulSplit(c.group - 1, 1, c.Stride(row));
  }

  lemma FormulaLane(g: nat, sn: nat, l: nat, i: nat, b: nat)
    requires Formulas(g, sn, l, i, b)
    ensures g > 0 && sn % g == l
  {
  }

  lemma WholePart(g: nat, n: nat)
    requires g > 0
    ensures n / g * g == n - n % g
  {
  }

  lemma BlockResidue(g: nat, n: nat, q: nat, i: nat, r: nat)
    requires At(g, n, q, i, r)
    ensures n % (g * g) < g <==> i == 0
  {
    AtDivisions(g, g * g, n, q, i, r);
    if i > 0 {
      MulMono(1, i, g);
    }
  }

  /** The tests that refuse a parity off the lane geometry accept exactly the group bases. */
  lemma BaseTests(c: Config, base: nat)
    requires c.group > 0
    ensures base % c.group == 0 <==> c.IsBase(true, base)
    ensures base % (c.group * c.group) < c.group <==> c.IsBase(false, base)
  {
    FormulasCount(c, base);
    var q := FormulasAt(c.group, c.group * c.group, base, c.Lane(base), c.ColIdx(base), c.ColBase(base));
    BlockResidue(c.group, base, q, c.ColIdx(base), c.Lane(base));
  }
}
