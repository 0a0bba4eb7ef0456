/**
 * Sums of stat lines and the batting metrics derived from them, shared by the
 * per-player rollup (api/app/routers/players.py) and the filtered aggregate
 * (api/app/routers/stats.py). Rates are exact rationals.
 */
module Metrics {
  import opened Models

  /** `_safe_div`: the quotient, or 0 when the denominator is 0. */
  function SafeDiv(n: int, d: int): real {
    if d == 0 then 0.0 else (n as real) / (d as real)
  }

  /** The safe quotient is 0 exactly on a zero denominator and a true quotient otherwise. */
  lemma SafeDivMeaning(n: int, d: int)
    ensures d == 0 ==> SafeDiv(n, d) == 0.0
    ensures d != 0 ==> SafeDiv(n, d) * (d as real) == n as real
  {
  }

  /** The quotient of non-negative numbers is non-negative, and at most 1 when n <= d. */
  lemma SafeDivBounds(n: nat, d: nat)
    ensures SafeDiv(n, d) >= 0.0
    ensures n <= d ==> SafeDiv(n, d) <= 1.0
  {
    if d != 0 {
      assert SafeDiv(n, d) == (n as real) / (d as real);
    }
  }

  /** For a fixed denominator the safe quotient grows with the numerator. */
  lemma SafeDivMonotone(a: nat, b: nat, d: nat)
    requires a <= b
    ensures SafeDiv(a, d) <= SafeDiv(b, d)
  {
    if d != 0 {
      var qa, qb := SafeDiv(a, d), SafeDiv(b, d);
      SafeDivMeaning(a, d);
      SafeDivMeaning(b, d);
      assert (qb - qa) * (d as real) == (b - a) as real;
      if qb < qa {
        assert (qb - qa) * (d as real) < 0.0;
      }
    }
  }

  function Add(a: Counts, b: Counts): Counts {
    Counts(
      a.atBats + b.atBats, a.hits + b.hits, a.singles + b.singles, a.doubles + b.doubles,
      a.triples + b.triples, a.homeRuns + b.homeRuns, a.rbis + b.rbis, a.walks + b.walks,
      a.strikeouts + b.strikeouts, a.sacFlies + b.sacFlies, a.sacBunts + b.sacBunts,
      a.hitByPitches + b.hitByPitches, a.errors + b.errors)
  }

  /** `coalesce(sum(column), 0)` for every count column at once. */
  function SumLines(ls: seq<StatLine>): Counts {
    if ls == [] then ZeroCounts() else Add(ls[0].counts, SumLines(ls[1..]))
  }

  /** The sum of one column over the lines. */
  function ColumnSum(ls: seq<StatLine>, f: StatField): nat {
    if ls == [] then 0 else Get(ls[0].counts, f) + ColumnSum(ls[1..], f)
  }

  /** Each total is the sum of its column, and 0 over no lines. */
  lemma {:induction false} SumLinesColumns(ls: seq<StatLine>)
    ensures forall f :: Get(SumLines(ls), f) == ColumnSum(ls, f)
    ensures ls == [] ==> SumLines(ls) == ZeroCounts()
  {
    if ls != [] {
      SumLinesColumns(ls[1..]);
      AddColumns(ls[0].counts, SumLines(ls[1..]));
    }
  }

  /** Adding count records adds them column by column. */
  lemma AddColumns(a: Counts, b: Counts)
    ensures forall f :: Get(Add(a, b), f) == Get(a, f) + Get(b, f)
  {
  }

  lemma AddZero(a: Counts)
    ensures Add(ZeroCounts(), a) == a
  {
  }

  lemma AddAssociative(a: Counts, b: Counts, c: Counts)
    ensures Add(a, Add(b, c)) == Add(Add(a, b), c)
  {
  }

  lemma AddSwap(a: Counts, b: Counts, c: Counts)
    ensures Add(a, Add(b, c)) == Add(b, Add(a, c))
  {
  }

  lemma {:induction false} SumAppend(a: seq<StatLine>, b: seq<StatLine>)
    ensures SumLines(a + b) == Add(SumLines(a), SumLines(b))
  {
    if a == [] {
      assert a + b == b;
      AddZero(SumLines(b));
    } else {
      assert (a + b)[0] == a[0] && (a + b)[1..] == a[1..] + b;
      SumAppend(a[1..], b);
      AddAssociative(a[0].counts, SumLines(a[1..]), SumLines(b));
    }
  }

  /** Taking one line out of a sequence takes its counts out of the sum. */
  lemma {:induction false} SumWithout(b: seq<StatLine>, k: nat)
    requires k < |b|
    ensures SumLines(b) == Add(b[k].counts, SumLines(b[..k] + b[k + 1..]))
  {
    if k == 0 {
      assert b[..0] + b[1..] == b[1..];
    } else {
      var t := b[1..];
      SumWithout(t, k - 1);
      var rest := t[..k - 1] + t[k..];
      assert b[..k] + b[k + 1..] == [b[0]] + rest;
      assert ([b[0]] + rest)[0] == b[0] && ([b[0]] + rest)[1..] == rest;
      AddSwap(b[0].counts, b[k].counts, SumLines(rest));
    }
  }

  /** The totals do not depend on the order in which the store returns the lines. */
  lemma {:induction false} SumPermutation(a: seq<StatLine>, b: seq<StatLine>)
    requires multiset(a) == multiset(b)
    ensures SumLines(a) == SumLines(b)
    decreases |a|
  {
    if a == [] {
      assert b == [] by { assert |multiset(b)| == 0; }
    } else {
      assert a[0] in multiset(b);
      var k :| 0 <= k < |b| && b[k] == a[0];
      var rest := b[..k] + b[k + 1..];
      assert multiset(a[1..]) == multiset(rest) by {
        assert b == b[..k] + [b[k]] + b[k + 1..];
        assert a == [a[0]] + a[1..];
        assert multiset(b) == multiset(b[..k]) + multiset{b[k]} + multiset(b[k + 1..]);
        assert multiset(rest) == multiset(b[..k]) + multiset(b[k + 1..]);
        assert multiset(a) == multiset{a[0]} + multiset(a[1..]);
        assert multiset(a[1..]) == multiset(a) - multiset{a[0]};
        assert multiset(rest) == multiset(b) - multiset{b[k]};
      }
      SumPermutation(a[1..], rest);
      SumWithout(b, k);
    }
  }

  /** Summing lines that each satisfy the box-score rules gives totals that satisfy them. */
  lemma {:induction false} SumKeepsRules(ls: seq<StatLine>)
    requires forall l :: l in ls ==>
      l.counts.hits == l.counts.singles + l.counts.doubles + l.counts.triples + l.counts.homeRuns
    requires forall l :: l in ls ==>
      l.counts.hits <= l.counts.atBats + l.counts.hitByPitches + l.counts.walks + l.counts.sacFlies
    ensures var t := SumLines(ls);
      t.hits == t.singles + t.doubles + t.triples + t.homeRuns
      && t.hits <= t.atBats + t.hitByPitches + t.walks + t.sacFlies
  {
    if ls != [] {
      assert ls[0] in ls;
      assert forall l :: l in ls[1..] ==> l in ls;
      SumKeepsRules(ls[1..]);
    }
  }

  // ---------- Derived metrics ----------

  /** The derived values reported beside the totals. */
  datatype Derived = Derived(
    plateAppearances: nat, totalBases: nat,
    average: real, slugging: real, onBasePercent: real, ops: real)

  function PlateAppearances(t: Counts): nat {
    t.atBats + t.walks + t.hitByPitches + t.sacFlies
  }

  function TotalBases(t: Counts): nat {
    t.singles + 2 * t.doubles + 3 * t.triples + 4 * t.homeRuns
  }

  /**
   * AVG = H/AB, SLG = TB/AB, OBP = (H+BB+HBP)/PA, each 0 on a zero denominator,
   * and OPS = OBP + SLG.
   */
  function Derive(t: Counts): Derived {
    var pa := PlateAppearances(t);
    var tb := TotalBases(t);
    var avg := SafeDiv(t.hits, t.atBats);
    var slg := SafeDiv(tb, t.atBats);
    var obp := SafeDiv(t.hits + t.walks + t.hitByPitches, pa);
    Derived(pa, tb, avg, slg, obp, obp + slg)
  }

  /**
   * What the derived values mean: each rate times its denominator gives its
   * numerator, each is 0 on a zero denominator, and OPS is OBP plus SLG.
   */
  lemma DeriveMeaning(t: Counts)
    ensures var m := Derive(t);
      && m.plateAppearances == t.atBats + t.walks + t.hitByPitches + t.sacFlies
      && m.totalBases == t.singles + 2 * t.doubles + 3 * t.triples + 4 * t.homeRuns
      && (t.atBats == 0 ==> m.average == 0.0 && m.slugging == 0.0)
      && (t.atBats != 0 ==>
            m.average * (t.atBats as real) == t.hits as real
            && m.slugging * (t.atBats as real) == m.totalBases as real)
      && (m.plateAppearances == 0 ==> m.onBasePercent == 0.0)
      && (m.plateAppearances != 0 ==>
            m.onBasePercent * (m.plateAppearances as real) == (t.hits + t.walks + t.hitByPitches) as real)
      && m.ops == m.onBasePercent + m.slugging
  {
    SafeDivMeaning(t.hits, t.atBats);
    SafeDivMeaning(TotalBases(t), t.atBats);
    SafeDivMeaning(t.hits + t.walks + t.hitByPitches, PlateAppearances(t));
  }

  /** No lines, no metrics: every derived value of the empty totals is 0. */
  lemma ZeroDerived()
    ensures Derive(ZeroCounts()) == Derived(0, 0, 0.0, 0.0, 0.0, 0.0)
  {
  }

  /** When hits decompose into hit types, total bases cover the hits and SLG >= AVG. */
  lemma SluggingAtLeastAverage(t: Counts)
    requires t.hits == t.singles + t.doubles + t.triples + t.homeRuns
    ensures TotalBases(t) >= t.hits
    ensures Derive(t).slugging >= Derive(t).average
  {
    SafeDivMonotone(t.hits, TotalBases(t), t.atBats);
  }

  /** No rate is negative. */
  lemma RatesNonNegative(t: Counts)
    ensures Derive(t).average >= 0.0 && Derive(t).slugging >= 0.0
    ensures Derive(t).onBasePercent >= 0.0 && Derive(t).ops >= 0.0
  {
    SafeDivBounds(t.hits, t.atBats);
    SafeDivBounds(TotalBases(t), t.atBats);
    SafeDivBounds(t.hits + t.walks + t.hitByPitches, PlateAppearances(t));
  }

  /** The seeded line AB=4, H=2, 1B=1, 2B=1, BB=1 and its metrics. */
  lemma SeededLineMetrics()
    ensures Derive(Counts(4, 2, 1, 1, 0, 0, 2, 1, 1, 0, 0, 0, 0)) == Derived(5, 3, 0.5, 0.75, 0.6, 1.35)
  {
  }
}
