/** The string under the index fingerprint. */
module KvFingerprint {
  import KvRestore

  predicate BarFree(s: string) {
    forall i :: 0 <= i < |s| ==> s[i] != '|'
  }

  function Bars(s: string): nat {
    if s == "" then 0 else Bars(s[1..]) + if s[0] == '|' then 1 else 0
  }

  /** `"|".join(parts)` */
  function Join(parts: seq<string>): string
    requires |parts| > 0
  {
    if |parts| == 1 then parts[0] else parts[0] + "|" + Join(parts[1..])
  }

  lemma {:induction false} BarsConcat(a: string, b: string)
    ensures Bars(a + b) == Bars(a) + Bars(b)
  {
    if a == "" {
      assert a + b == b;
    } else {
      assert (a + b)[1..] == a[1..] + b;
      BarsConcat(a[1..], b);
    }
  }

  lemma {:induction false} BarsZero(s: string)
    ensures Bars(s) == 0 <==> BarFree(s)
  {
    if s != "" {
      BarsZero(s[1..]);
      assert forall i :: 0 < i < |s| ==> s[i] == s[1..][i - 1];
    }
  }

  lemma {:induction false} BarsOfJoin(parts: seq<string>)
    requires |parts| > 0
    ensures Bars(Join(parts)) >= |parts| - 1
    ensures Bars(Join(parts)) == |parts| - 1 <==> forall i :: 0 <= i < |parts| ==> BarFree(parts[i])
  {
    BarsZero(parts[0]);
    if |parts| > 1 {
      BarsConcat(parts[0] + "|", Join(parts[1..]));
      BarsConcat(parts[0], "|");
      assert Bars("|") == 1 by { assert "|"[1..] == ""; }
      BarsOfJoin(parts[1..]);
      assert forall i :: 0 < i < |parts| ==> parts[i] == parts[1..][i - 1];
    }
  }

  /** The first separator marks the end of the first part, when that part has no bar of its own. */
  lemma {:induction false} FirstPart(a: string, x: string, b: string, y: string)
    requires BarFree(a) && BarFree(b) && a + "|" + x == b + "|" + y
    ensures a == b && x == y
  {
    var z := a + "|" + x;
    assert z[|a|] == '|' && z[|b|] == '|';
    assert forall i :: 0 <= i < |a| ==> z[i] == a[i];
    assert forall i :: 0 <= i < |b| ==> z[i] == b[i];
    assert |a| == |b|;
    assert a == (a + "|" + x)[..|a|] && b == (b + "|" + y)[..|b|];
    assert x == (a + "|" + x)[|a| + 1..] && y == (b + "|" + y)[|b| + 1..];
  }

  lemma {:induction false} JoinInjective(a: seq<string>, b: seq<string>)
    requires |a| == |b| > 0 && Join(a) == Join(b)
    requires forall i :: 0 <= i < |a| ==> BarFree(a[i])
    requires forall i :: 0 <= i < |b| ==> BarFree(b[i])
    ensures a == b
  {
    if |a| == 1 {
      assert a == [a[0]] && b == [b[0]];
    } else {
      FirstPart(a[0], Join(a[1..]), b[0], Join(b[1..]));
      JoinInjective(a[1..], b[1..]);
      assert a == [a[0]] + a[1..] && b == [b[0]] + b[1..];
    }
  }

  /** Moving text across one separator: x|y , z  and  x , y|z  join to the same string. */
  lemma {:induction false} JoinShift(a: seq<string>, i: nat, p: string, q: string, r: string)
    requires i + 1 < |a|
    ensures Join(a[i := p + "|" + q][i + 1 := r]) == Join(a[i := p][i + 1 := q + "|" + r])
  {
    var l, m := a[i := p + "|" + q][i + 1 := r], a[i := p][i + 1 := q + "|" + r];
    if i > 0 {
      JoinShift(a[1..], i - 1, p, q, r);
      assert l[1..] == a[1..][i - 1 := p + "|" + q][i := r];
      assert m[1..] == a[1..][i - 1 := p][i := q + "|" + r];
    } else {
      var rest := a[2..];
      assert l[1..] == [r] + rest && m[1..] == [q + "|" + r] + rest;
      if rest == [] {
        assert Join(l) == (p + "|" + q) + "|" + r;
        assert Join(m) == p + "|" + (q + "|" + r);
      } else {
        assert ([r] + rest)[1..] == rest && ([q + "|" + r] + rest)[1..] == rest;
        assert Join(l) == (p + "|" + q) + "|" + (r + "|" + Join(rest));
        assert Join(m) == p + "|" + ((q + "|" + r) + "|" + Join(rest));
      }
    }
  }

  /** The eight parts as `_fingerprint` builds them: the constant first, then three texts - the user's
      tag, model name and data type - and four printed integers. */
  predicate Parts(a: seq<string>) {
    && |a| == 8
    && a[0] == KvRestore.MAGIC
    && BarFree(a[4]) && BarFree(a[5]) && BarFree(a[6]) && BarFree(a[7])
  }

  /** The joined string, written out. */
  lemma {:induction false} JoinOfEight(a: seq<string>)
    requires |a| == 8
    ensures Join(a) == a[0] + "|" + a[1] + "|" + a[2] + "|" + a[3] + "|" + a[4] + "|" + a[5] + "|" + a[6] + "|" + a[7]
  {
    var b, c, d := a[1..], a[2..], a[3..];
    assert b[1..] == c && c[1..] == d;
    var e, f, g, h := a[4..], a[5..], a[6..], a[7..];
    assert d[1..] == e && e[1..] == f && f[1..] == g && g[1..] == h;
    assert Join(h) == a[7] && Join(g) == a[6] + "|" + Join(h) && Join(f) == a[5] + "|" + Join(g);
    assert Join(e) == a[4] + "|" + Join(f) && Join(d) == a[3] + "|" + Join(e) && Join(c) == a[2] + "|" + Join(d);
  }

  ghost predicate Identifies(a: seq<string>)
    requires Parts(a)
  {
    forall b: seq<string> :: Parts(b) && Join(b) == Join(a) ==> b == a
  }

  /** A part with a bar can be cut there and its halves dealt out differently over the neighbours `lo`
      and `lo + 1`, one of which it is. */
  lemma {:induction false} Ambiguous(a: seq<string>, i: nat, j: nat, lo: nat) returns (b: seq<string>)
    requires lo <= i <= lo + 1 < |a| && j < |a[i]| && a[i][j] == '|'
    ensures |b| == |a| && Join(b) == Join(a) && b != a
    ensures forall k :: 0 <= k < |a| && k != lo && k != lo + 1 ==> b[k] == a[k]
  {
    var x, y := a[i][..j], a[i][j + 1..];
    assert a[i] == x + "|" + y;
    if i == lo {
      JoinShift(a, i, x, y, a[i + 1]);
      assert a == a[i := x + "|" + y][i + 1 := a[i + 1]];
      b := a[i := x][i + 1 := y + "|" + a[i + 1]];
    } else {
      JoinShift(a, lo, a[lo], x, y);
      assert a == a[lo := a[lo]][i := x + "|" + y];
      b := a[lo := a[lo] + "|" + x][i := y];
    }
    assert |b[i]| < |a[i]|;
  }

  /** The joined string identifies a configuration exactly when none of the three texts has a bar. */
  lemma {:induction false} FingerprintIdentifiesIff(a: seq<string>)
    requires Parts(a)
    ensures Identifies(a) <==> BarFree(a[1]) && BarFree(a[2]) && BarFree(a[3])
  {
    if BarFree(a[1]) && BarFree(a[2]) && BarFree(a[3]) {
      assert BarFree(a[0]);
      forall b: seq<string> | Parts(b) && Join(b) == Join(a)
        ensures b == a
      {
        BarsOfJoin(a);
        BarsOfJoin(b);
        JoinInjective(b, a);
      }
    } else {
      var i := if !BarFree(a[1]) then 1 else if !BarFree(a[2]) then 2 else 3;
      assert !BarFree(a[i]);
      var j :| 0 <= j < |a[i]| && a[i][j] == '|';
      var b := Ambiguous(a, i, j, if i == 3 then 2 else i);
    }
  }

  /** Two configurations with one fingerprint: the tag "a|b" with model "c", the tag "a" with model
      "b|c". */
  lemma {:induction false} TagSpillsIntoModel(dtype: string, tail: seq<string>)
    requires |tail| == 4 && forall i :: 0 <= i < 4 ==> BarFree(tail[i])
    ensures var x, y := [KvRestore.MAGIC, "a|b", "c", dtype] + tail, [KvRestore.MAGIC, "a", "b|c", dtype] + tail;
            Parts(x) && Parts(y) && x != y && Join(x) == Join(y)
  {
    var x, y := [KvRestore.MAGIC, "a|b", "c", dtype] + tail, [KvRestore.MAGIC, "a", "b|c", dtype] + tail;
    JoinShift(x, 1, "a", "b", "c");
    assert "a" + "|" + "b" == "a|b" && "b" + "|" + "c" == "b|c";
    assert x[1 := "a|b"][2 := "c"] == x && x[1 := "a"][2 := "b|c"] == y;
    assert |x[1]| == 3 && |y[1]| == 1;
  }
}
