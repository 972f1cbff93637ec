/** Periods of words. */
module Periods {
  ghost predicate HasPeriod(w: string, p: nat) {
    p >= 1 && forall i :: 0 <= i && i + p < |w| ==> w[i] == w[i + p]
  }

  function Gcd(a: nat, b: nat): (g: nat)
    requires a > 0 && b > 0
    ensures g > 0
    decreases a + b
  {
    if a == b then a else if a < b then Gcd(a, b - a) else Gcd(a - b, b)
  }

  ghost predicate Divides(d: nat, n: nat) {
    exists k: nat :: n == d * k
  }

  lemma {:induction false} DividesSum(d: nat, a: nat, b: nat)
    requires Divides(d, a) && Divides(d, b)
    ensures Divides(d, a + b)
  {
    var j: nat :| a == d * j;
    var k: nat :| b == d * k;
    assert a + b == d * (j + k);
  }

  lemma {:induction false} GcdDivides(a: nat, b: nat)
    requires a > 0 && b > 0
    ensures Divides(Gcd(a, b), a) && Divides(Gcd(a, b), b)
    decreases a + b
  {
    if a == b {
      assert a == a * 1;
    } else if a < b {
      GcdDivides(a, b - a);
      DividesSum(Gcd(a, b), a, b - a);
    } else {
      GcdDivides(a - b, b);
      DividesSum(Gcd(a, b), a - b, b);
    }
  }

  lemma {:induction false} DividesLe(d: nat, n: nat)
    requires n > 0 && Divides(d, n)
    ensures d <= n
  {
    var k: nat :| n == d * k;
    assert k >= 1 ==> d * k >= d * 1;
  }

  /** Multiples of a period are periods. */
  lemma {:induction false} PeriodMultiple(w: string, p: nat, k: nat)
    requires HasPeriod(w, p) && k >= 1
    ensures HasPeriod(w, p * k)
    decreases k
  {
    if k > 1 {
      PeriodMultiple(w, p, k - 1);
      assert p * k == p * (k - 1) + p;
      forall i | 0 <= i && i + p * k < |w|
        ensures w[i] == w[i + p * k]
      {
        assert w[i] == w[i + p * (k - 1)];
      }
    }
  }

  /** Positions a multiple of the period apart carry the same letter. */
  lemma {:induction false} SameClass(w: string, p: nat, i: nat, k: nat)
    requires HasPeriod(w, p) && i + p * k < |w|
    ensures w[i] == w[i + p * k]
  {
    if k >= 1 { PeriodMultiple(w, p, k); }
  }

  /** The fewest steps of p that cover a distance. */
  lemma {:induction false} Steps(dist: nat, p: nat) returns (k: nat)
    requires p >= 1
    ensures dist <= p * k < dist + p
  {
    k := (dist + p - 1) / p;
    assert dist + p - 1 == p * k + (dist + p - 1) % p;
  }

  /** A position moved by whole periods into the window [a, a + p). */
  lemma {:induction false} IntoWindow(w: string, p: nat, a: nat, j: nat) returns (x: nat, k: int)
    requires HasPeriod(w, p) && j < |w| && a + p <= |w|
    ensures a <= x < a + p && x == j + p * k && w[x] == w[j]
  {
    if j < a {
      k := Steps(a - j, p);
      x := j + p * k;
      SameClass(w, p, j, k);
    } else {
      var n := (j - a) / p;
      assert j - a == p * n + (j - a) % p;
      x, k := a + (j - a) % p, -n;
      assert p * k == -(p * n);
      SameClass(w, p, x, n);
    }
  }

  lemma {:induction false} SameLetter(v: string, g: nat, i: nat, j: nat, d: int)
    requires HasPeriod(v, g) && i < |v| && j < |v| && j - i == g * d
    ensures v[i] == v[j]
  {
    if d >= 0 {
      SameClass(v, g, i, d);
    } else {
      assert i == j + g * (-d);
      SameClass(v, g, j, -d);
    }
  }

  lemma {:induction false} Residues(p: nat, g: nat, f: nat, k: int, l: int)
    requires p == g * f
    ensures g + p * l - p * k == g * (f * (l - k) + 1)
  {
    assert p * l == g * (f * l) && p * k == g * (f * k);
    assert f * (l - k) == f * l - f * k;
    assert g * (f * l - f * k) == g * (f * l) - g * (f * k);
  }

  /** A word with period p inherits a divisor g of p as period from any factor that is at least p long. */
  lemma {:induction false} FactorPeriod(w: string, p: nat, a: nat, n: nat, g: nat)
    requires HasPeriod(w, p) && a + n <= |w| && n >= p && g >= 1 && Divides(g, p)
    requires HasPeriod(w[a..a + n], g)
    ensures HasPeriod(w, g)
  {
    var f: nat :| p == g * f;
    var v := w[a..a + n];
    forall j | 0 <= j && j + g < |w|
      ensures w[j] == w[j + g]
    {
      var x, k := IntoWindow(w, p, a, j);
      var y, l := IntoWindow(w, p, a, j + g);
      Residues(p, g, f, k, l);
      SameLetter(v, g, x - a, y - a, f * (l - k) + 1);
    }
  }

  lemma {:induction false} PositiveMultiple(g: nat, m: int)
    requires g * m > 0
    ensures g * m >= g
  {
    if m >= 1 { assert g * m == g + g * (m - 1); }
  }

  lemma {:induction false} LessDivides(g: nat, p: nat, q: nat)
    requires Divides(g, p) && Divides(g, q) && p < q
    ensures p + g <= q
  {
    var j: nat :| p == g * j;
    var k: nat :| q == g * k;
    assert q - p == g * (k - j);
    PositiveMultiple(g, k - j);
  }

  /** Cut by the smaller period, a word with two periods has their difference as a period. */
  lemma {:induction false} PeriodDifference(w: string, p: nat, q: nat)
    requires HasPeriod(w, p) && HasPeriod(w, q) && p < q && |w| >= p
    ensures HasPeriod(w[..|w| - p], q - p) && HasPeriod(w[..|w| - p], p)
  {
    var v := w[..|w| - p];
    forall i | 0 <= i && i + (q - p) < |v|
      ensures v[i] == v[i + (q - p)]
    {
      assert w[i] == w[i + q] && w[i + (q - p)] == w[i + (q - p) + p];
    }
  }

  lemma {:induction false} GcdTurns(p: nat, q: nat)
    requires 0 < p < q
    ensures Gcd(p, q) == Gcd(p, q - p) && Gcd(q, p) == Gcd(q - p, p)
  {
  }

  /** Fine and Wilf, in the sharp form: a word with periods p and q and length at least
      p + q - gcd(p, q) has period gcd(p, q). */
  lemma {:induction false} FineWilf(w: string, p: nat, q: nat)
    requires HasPeriod(w, p) && HasPeriod(w, q) && |w| >= p + q - Gcd(p, q)
    ensures HasPeriod(w, Gcd(p, q))
    decreases p + q
  {
    GcdDivides(p, q);
    if p < q {
      FineWilfStep(w, p, q, Gcd(p, q));
      GcdTurns(p, q);
      FineWilf(w[..|w| - p], p, q - p);
      FactorPeriod(w, p, 0, |w| - p, Gcd(p, q));
    } else if q < p {
      FineWilfStep(w, q, p, Gcd(p, q));
      GcdTurns(q, p);
      FineWilf(w[..|w| - q], p - q, q);
      FactorPeriod(w, q, 0, |w| - q, Gcd(p, q));
    }
  }

  /** What is left after cutting the smaller period is long enough. */
  lemma {:induction false} FineWilfStep(w: string, p: nat, q: nat, g: nat)
    requires HasPeriod(w, p) && HasPeriod(w, q) && p < q && |w| >= p + q - g
    requires Divides(g, p) && Divides(g, q)
    ensures p <= |w| - p && w[0..0 + (|w| - p)] == w[..|w| - p]
    ensures HasPeriod(w[..|w| - p], q - p) && HasPeriod(w[..|w| - p], p)
  {
    LessDivides(g, p, q);
    PeriodDifference(w, p, q);
  }

  ghost predicate LeastPeriod(w: string, p: nat) {
    HasPeriod(w, p) && forall q: nat :: 1 <= q < p ==> !HasPeriod(w, q)
  }

  /** In a word of least period p, a factor of period q and length at least p + q - gcd(p, q) forces p to
      divide q. */
  lemma {:induction false} LeastPeriodDivides(w: string, p: nat, a: nat, n: nat, q: nat)
    requires LeastPeriod(w, p) && a + n <= |w| && q >= 1 && n >= p + q - Gcd(p, q)
    requires HasPeriod(w[a..a + n], q)
    ensures Divides(p, q)
  {
    var v, g := w[a..a + n], Gcd(p, q);
    assert HasPeriod(v, p) by {
      forall i | 0 <= i && i + p < |v|
        ensures v[i] == v[i + p]
      {
        assert w[a + i] == w[a + i + p];
      }
    }
    FineWilf(v, p, q);
    GcdDivides(p, q);
    DividesLe(g, p);
    DividesLe(g, q);
    FactorPeriod(w, p, a, n, g);
    assert g == p;
  }
}
