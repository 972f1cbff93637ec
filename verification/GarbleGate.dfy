/** The automatic verdict on one generated text. */
module GarbleGate {
  import opened Common
  import opened Periods

  // ---------------------------------------------------------------- the loop-fragment pattern

  predicate Line(s: string) {
    forall i :: 0 <= i < |s| ==> s[i] != '\n'
  }

  /** The group `t[i..i + n]` stands again at `pos`. */
  predicate BlockAt(t: string, i: nat, n: nat, pos: nat)
    requires i + n <= |t|
  {
    pos + n <= |t| && t[pos..pos + n] == t[i..i + n]
  }

  /** Copies of the group `t[i..i + n]` that follow at `pos`: what `\1{3,}` can take. */
  function Copies(t: string, i: nat, n: nat, pos: nat): nat
    requires n > 0 && i + n <= |t|
    decreases |t| - pos
  {
    if BlockAt(t, i, n, pos) then 1 + Copies(t, i, n, pos + n) else 0
  }

  /** The lazy group `(.{12,}?)` at position i, grown one character at a time from length n. */
  function Grow(t: string, i: nat, n: nat): (r: Option<nat>)
    requires n > 0
    decreases |t| + 1 - i - n
  {
    if i + n > |t| || !Line(t[i..i + n]) then None
    else if Copies(t, i, n, i + n) >= 3 then Some(n)
    else Grow(t, i, n + 1)
  }

  /** `re.search`: start positions from left to right. */
  function SearchFrom(t: string, i: nat): Option<(nat, nat)>
    decreases |t| - i
  {
    match Grow(t, i, 12)
    case Some(n) => Some((i, n))
    case None => if i < |t| then SearchFrom(t, i + 1) else None
  }

  /** A newline-free block of at least 12 characters, four times in a row. */
  ghost predicate FourInARow(t: string, i: nat, n: nat) {
    n >= 12 && i + 4 * n <= |t| && Line(t[i..i + n]) && HasPeriod(t[i..i + 4 * n], n)
  }

  ghost predicate HasLoop(t: string) {
    exists i: nat, n: nat :: FourInARow(t, i, n)
  }

  predicate FourBlocks(t: string, i: nat, n: nat)
    requires i + n <= |t|
  {
    BlockAt(t, i, n, i + n) && BlockAt(t, i, n, i + n + n) && BlockAt(t, i, n, i + n + n + n)
  }

  lemma {:induction false} OneMoreCopy(t: string, i: nat, n: nat, pos: nat, k: nat)
    requires n > 0 && i + n <= |t|
    ensures Copies(t, i, n, pos) >= k + 1 <==> BlockAt(t, i, n, pos) && Copies(t, i, n, pos + n) >= k
  {
  }

  lemma {:induction false} ThreeCopies(t: string, i: nat, n: nat)
    requires n > 0 && i + n <= |t|
    ensures Copies(t, i, n, i + n) >= 3 <==> FourBlocks(t, i, n)
  {
    OneMoreCopy(t, i, n, i + n, 2);
    OneMoreCopy(t, i, n, i + n + n, 1);
    OneMoreCopy(t, i, n, i + n + n + n, 0);
  }

  lemma {:induction false} BlocksGivePeriod(t: string, i: nat, n: nat)
    requires n > 0 && i + 4 * n <= |t| && FourBlocks(t, i, n)
    ensures HasPeriod(t[i..i + 4 * n], n)
  {
    var v := t[i..i + 4 * n];
    forall j | 0 <= j && j + n < |v|
      ensures v[j] == v[j + n]
    {
      BlockLetter(t, i, n, j);
      BlockLetter(t, i, n, j + n);
    }
  }

  lemma {:induction false} PeriodGivesBlock(t: string, i: nat, n: nat, k: nat)
    requires n > 0 && i + 4 * n <= |t| && HasPeriod(t[i..i + 4 * n], n) && 1 <= k <= 3
    ensures BlockAt(t, i, n, i + n * k)
  {
    var v, pos := t[i..i + 4 * n], i + n * k;
    assert n * k <= n * 3;
    var block, first := t[pos..pos + n], t[i..i + n];
    forall j | 0 <= j < n
      ensures block[j] == first[j]
    {
      SameClass(v, n, j, k);
      assert v[j + n * k] == t[i + (j + n * k)];
    }
    assert block == first;
  }

  lemma {:induction false} CopiesIff(t: string, i: nat, n: nat)
    requires n > 0 && i + n <= |t|
    ensures Copies(t, i, n, i + n) >= 3 <==> i + 4 * n <= |t| && HasPeriod(t[i..i + 4 * n], n)
  {
    ThreeCopies(t, i, n);
    if FourBlocks(t, i, n) {
      BlocksGivePeriod(t, i, n);
    } else if i + 4 * n <= |t| && HasPeriod(t[i..i + 4 * n], n) {
      PeriodGivesBlock(t, i, n, 1);
      PeriodGivesBlock(t, i, n, 2);
      PeriodGivesBlock(t, i, n, 3);
      assert false;
    }
  }

  lemma {:induction false} LetterAt(t: string, i: nat, n: nat, pos: nat, r: nat)
    requires i + n <= |t| && r < n && BlockAt(t, i, n, pos)
    ensures t[pos + r] == t[i + r]
  {
    assert t[pos..pos + n][r] == t[i..i + n][r];
  }

  /** With four equal blocks, letter j of the stretch is letter j mod n of the block. */
  lemma {:induction false} BlockLetter(t: string, i: nat, n: nat, j: nat)
    requires n > 0 && i + n <= |t| && FourBlocks(t, i, n) && j < 4 * n
    ensures var r := if j < n then j else if j < 2 * n then j - n else if j < 3 * n then j - 2 * n else j - 3 * n;
            t[i + j] == t[i + r]
  {
    if n <= j < 2 * n {
      LetterAt(t, i, n, i + n, j - n);
    } else if 2 * n <= j < 3 * n {
      LetterAt(t, i, n, i + n + n, j - 2 * n);
    } else if 3 * n <= j {
      LetterAt(t, i, n, i + n + n + n, j - 3 * n);
    }
  }

  lemma {:induction false} GrowIff(t: string, i: nat, n: nat)
    requires n >= 12
    ensures Grow(t, i, n).Some? ==> Grow(t, i, n).value >= n && FourInARow(t, i, Grow(t, i, n).value)
    ensures forall m :: m >= n && FourInARow(t, i, m) ==> Grow(t, i, n).Some? && Grow(t, i, n).value <= m
    decreases |t| + 1 - i - n
  {
    if i + n <= |t| {
      CopiesIff(t, i, n);
      forall m | m >= n && FourInARow(t, i, m)
        ensures Line(t[i..i + n])
      {
        LinePrefix(t[i..i + m], n);
        assert t[i..i + m][..n] == t[i..i + n];
      }
      if Line(t[i..i + n]) && Copies(t, i, n, i + n) < 3 { GrowIff(t, i, n + 1); }
    }
  }

  lemma {:induction false} LinePrefix(s: string, n: nat)
    requires Line(s) && n <= |s|
    ensures Line(s[..n])
  {
  }

  /** The pattern matches exactly the texts with a loop, and reports the leftmost start with the
      shortest block there. */
  lemma {:induction false} SearchIff(t: string, i: nat)
    ensures SearchFrom(t, i).Some? ==>
              SearchFrom(t, i).value.0 >= i && FourInARow(t, SearchFrom(t, i).value.0, SearchFrom(t, i).value.1)
    ensures forall j, n :: j >= i && FourInARow(t, j, n) ==>
              SearchFrom(t, i).Some? && SearchFrom(t, i).value.0 <= j
              && (SearchFrom(t, i).value.0 == j ==> SearchFrom(t, i).value.1 <= n)
    decreases |t| - i
  {
    GrowIff(t, i, 12);
    if Grow(t, i, 12).None? && i < |t| { SearchIff(t, i + 1); }
  }

  // ---------------------------------------------------------------- which runs are caught

  function Blocks(p: nat): nat
    requires p >= 1
  {
    (12 + p - 1) / p
  }

  /** A newline-free stretch of period p, long enough for four blocks of whole periods, is a loop
      wherever it stands. */
  lemma {:induction false} LongRunIsLoop(t: string, a: nat, n: nat, p: nat)
    requires p >= 1 && a + n <= |t| && Line(t[a..a + n]) && HasPeriod(t[a..a + n], p)
    requires n >= 4 * (p * Blocks(p))
    ensures HasLoop(t)
  {
    var k := Blocks(p);
    var m := p * k;
    BlocksBound(p);
    PeriodMultiple(t[a..a + n], p, k);
    var v, w := t[a..a + 4 * m], t[a..a + n];
    forall i | 0 <= i && i + m < |v|
      ensures v[i] == v[i + m]
    {
      assert v[i] == w[i] && v[i + m] == w[i + m];
    }
    assert HasPeriod(v, m);
    LinePrefix(w, m);
    assert t[a..a + m] == w[..m];
    assert FourInARow(t, a, m);
  }

  lemma {:induction false} BlocksBound(p: nat)
    requires p >= 1
    ensures Blocks(p) >= 1 && 12 <= p * Blocks(p) < 12 + p
  {
    assert 12 + p - 1 == p * Blocks(p) + (12 + p - 1) % p;
  }

  /** No smaller multiple of p reaches 12. */
  lemma {:induction false} BlocksLeast(p: nat, k: nat)
    requires p >= 1 && p * k >= 12
    ensures p * k >= p * Blocks(p)
  {
    BlocksBound(p);
    var d := Blocks(p) - k;
    assert p * Blocks(p) - p * k == p * d < p;
    NoPositiveFactor(p, d);
    assert p * d <= 0;
  }

  lemma {:induction false} NoPositiveFactor(p: nat, d: int)
    requires p * d < p
    ensures d <= 0
  {
    assert d >= 1 ==> p * d >= p * 1;
  }

  /** Four blocks of length n cover what the sharp Fine-Wilf bound needs, for least periods up to 40. */
  lemma {:induction false} FourBlocksSuffice(p: nat, n: nat)
    requires 1 <= p <= 40 && n >= 12
    ensures 4 * n >= p + n - Gcd(p, n)
  {
    if n == 12 && p > 36 {
      assert Gcd(37, 12) == 1 && Gcd(38, 12) == 2 && Gcd(39, 12) == 3 && Gcd(40, 12) == 4;
      assert p == 37 || p == 38 || p == 39 || p == 40;
    }
  }

  /** For a one-line text whose least period is at most 40 the bound is sharp: it is caught exactly
      when it is that long. */
  lemma {:induction false} CaughtIffLong(w: string, p: nat)
    requires Line(w) && LeastPeriod(w, p) && p <= 40
    ensures HasLoop(w) <==> |w| >= 4 * (p * Blocks(p))
  {
    if HasLoop(w) {
      var i: nat, n: nat :| FourInARow(w, i, n);
      FourBlocksSuffice(p, n);
      LeastPeriodDivides(w, p, i, 4 * n, n);
      var k: nat :| n == p * k;
      BlocksLeast(p, k);
    }
    if |w| >= 4 * (p * Blocks(p)) {
      assert w[0..0 + |w|] == w;
      LongRunIsLoop(w, 0, |w|, p);
    }
  }

  /** Where the letter b stands in the witness below. */
  predicate Marked(i: int) {
    || i == 4 || i == 9 || i == 16 || i == 21 || i == 28 || i == 33 || i == 40
    || i == 45 || i == 50 || i == 57 || i == 62 || i == 69 || i == 74 || i == 81
  }

  /** Two equal halves of 41 letters, the first 48 letters of period 12. */
  function Witness41(): (w: string)
    ensures |w| == 82 && forall i :: 0 <= i < 82 ==> w[i] == if Marked(i) then 'b' else 'a'
  {
    seq(82, i => if Marked(i) then 'b' else 'a')
  }

  /** A place where the witness breaks a period below 41. */
  function Break(q: nat): (i: nat)
    requires 1 <= q < 41
    ensures i + q < 82 && Marked(i) != Marked(i + q)
  {
    if q == 7 then 69 else if q == 12 || q == 24 || q == 36 then 40
    else if q == 19 then 57 else if q == 31 then 45
    else 81 - q
  }

  /** The bound cannot be raised: a text of least period 41 is caught at half that length. */
  lemma {:induction false} LongPeriodCanBeCaught()
    ensures var w := Witness41();
            Line(w) && LeastPeriod(w, 41) && HasLoop(w) && |w| < 4 * (41 * Blocks(41))
  {
    var w := Witness41();
    forall q: nat | 1 <= q < 41
      ensures !HasPeriod(w, q)
    {
      assert w[Break(q)] != w[Break(q) + q];
    }
    assert forall i :: 0 <= i < 41 ==> (Marked(i) <==> Marked(i + 41));
    assert HasPeriod(w, 41);
    assert forall i :: 0 <= i < 36 ==> (Marked(i) <==> Marked(i + 12));
    assert HasPeriod(w[0..0 + 4 * 12], 12);
    assert FourInARow(w, 0, 12);
  }

  // ---------------------------------------------------------------- garble_reason

  datatype Verdict = Empty | Cjk(count: nat) | Repeat(word: string, count: nat) | LoopFragment | Clean

  predicate IsCjk(c: char) {
    0x4e00 <= c as int <= 0x9fff
  }

  function CjkCount(t: string): (n: nat)
    ensures n <= |t|
  {
    if t == "" then 0 else CjkCount(Init(t)) + if IsCjk(Last(t)) then 1 else 0
  }

  /** Whitespace of `str.split()`. */
  predicate IsSpace(c: char) {
    var n := c as int;
    || 0x09 <= n <= 0x0d || 0x1c <= n <= 0x20 || n == 0x85 || n == 0xa0 || n == 0x1680
    || 0x2000 <= n <= 0x200a || n == 0x2028 || n == 0x2029 || n == 0x202f || n == 0x205f || n == 0x3000
  }

  function Split(t: string, word: string): seq<string> {
    if t == "" then if word == "" then [] else [word]
    else if IsSpace(t[0]) then (if word == "" then [] else [word]) + Split(t[1..], "")
    else Split(t[1..], word + [t[0]])
  }

  function Count(words: seq<string>, w: string): (n: nat)
    ensures n <= |words|
  {
    if words == [] then 0 else Count(Init(words), w) + if Last(words) == w then 1 else 0
  }

  /** The most frequent word of `all` among its first n positions, the first one on a tie. */
  function MostCommon(all: seq<string>, n: nat): (r: (string, nat))
    requires 0 < n <= |all|
    ensures r.0 in all && r.1 == Count(all, r.0)
    ensures forall i :: 0 <= i < n ==> Count(all, all[i]) <= r.1
    ensures exists i :: 0 <= i < n && all[i] == r.0 && forall j :: 0 <= j < i ==> Count(all, all[j]) < r.1
  {
    var w := all[n - 1];
    if n == 1 then (w, Count(all, w))
    else
      var best := MostCommon(all, n - 1);
      if Count(all, w) > best.1 then (w, Count(all, w)) else best
  }

  function GarbleReason(t: string): Verdict {
    if t == "" then Empty
    else if 10 * CjkCount(t) > |t| then Cjk(CjkCount(t))
    else
      var words := Split(t, "");
      if |words| > 12 && 10 * MostCommon(words, |words|).1 > 4 * |words|
      then Repeat(MostCommon(words, |words|).0, MostCommon(words, |words|).1)
      else if SearchFrom(t, 0).Some? then LoopFragment
      else Clean
  }

  // ---------------------------------------------------------------- what the words of a text are

  /** A longest stretch of t without whitespace. */
  predicate Stretch(t: string, i: nat, j: nat) {
    && i < j <= |t|
    && (forall k :: i <= k < j ==> !IsSpace(t[k]))
    && (i == 0 || IsSpace(t[i - 1]))
    && (j == |t| || IsSpace(t[j]))
  }

  /** The words are the texts of stretches of t that start at q or later. */
  ghost predicate WordTexts(t: string, q: nat, words: seq<string>, ps: seq<(nat, nat)>) {
    && |words| == |ps|
    && forall n :: 0 <= n < |ps| ==>
         q <= ps[n].0 && Stretch(t, ps[n].0, ps[n].1) && words[n] == t[ps[n].0..ps[n].1]
  }

  ghost predicate InOrder(ps: seq<(nat, nat)>) {
    forall m, n :: 0 <= m < n < |ps| ==> ps[m].1 < ps[n].0
  }

  ghost predicate AllStretches(t: string, q: nat, ps: seq<(nat, nat)>) {
    forall i: nat, j: nat :: q <= i && Stretch(t, i, j) ==> (i, j) in ps
  }

  /** `ps` are all the stretches of t that start at q or later, in order, and `words` are their texts. */
  ghost predicate WordsFrom(t: string, q: nat, words: seq<string>, ps: seq<(nat, nat)>) {
    WordTexts(t, q, words, ps) && InOrder(ps) && AllStretches(t, q, ps)
  }

  lemma {:induction false} PrependComplete(t: string, q: nat, p: nat, ps: seq<(nat, nat)>)
    requires Stretch(t, q, p) && p < |t| && AllStretches(t, p + 1, ps)
    ensures AllStretches(t, q, [(q, p)] + ps)
  {
    forall i: nat, j: nat | q <= i && Stretch(t, i, j)
      ensures (i, j) in [(q, p)] + ps
    {
      if i == q {
        assert j == p;
      } else {
        assert IsSpace(t[i - 1]) && i != p;
        assert (i, j) in ps;
      }
    }
  }

  lemma {:induction false} PrependTexts(t: string, q: nat, p: nat, words: seq<string>, ps: seq<(nat, nat)>)
    requires Stretch(t, q, p) && p < |t| && WordTexts(t, p + 1, words, ps)
    ensures WordTexts(t, q, [t[q..p]] + words, [(q, p)] + ps)
  {
    var ws, all := [t[q..p]] + words, [(q, p)] + ps;
    forall n | 0 <= n < |all|
      ensures q <= all[n].0 && Stretch(t, all[n].0, all[n].1) && ws[n] == t[all[n].0..all[n].1]
    {
      if n == 0 {
        assert all[n] == (q, p) && ws[n] == t[q..p];
      } else {
        assert all[n] == ps[n - 1] && ws[n] == words[n - 1];
      }
    }
  }

  lemma {:induction false} PrependInOrder(q: nat, p: nat, ps: seq<(nat, nat)>)
    requires InOrder(ps) && forall n :: 0 <= n < |ps| ==> p < ps[n].0
    ensures InOrder([(q, p)] + ps)
  {
    var all := [(q, p)] + ps;
    assert all[0] == (q, p) && forall n :: 1 <= n < |all| ==> all[n] == ps[n - 1];
  }

  lemma {:induction false} PrependWord(t: string, q: nat, p: nat, words: seq<string>, ps: seq<(nat, nat)>)
    requires Stretch(t, q, p) && p < |t| && WordsFrom(t, p + 1, words, ps)
    ensures WordsFrom(t, q, [t[q..p]] + words, [(q, p)] + ps)
  {
    PrependComplete(t, q, p, ps);
    PrependTexts(t, q, p, words, ps);
    PrependInOrder(q, p, ps);
  }

  lemma {:induction false} SkipSpace(t: string, p: nat, words: seq<string>, ps: seq<(nat, nat)>)
    requires p < |t| && IsSpace(t[p]) && WordsFrom(t, p + 1, words, ps)
    ensures WordsFrom(t, p, words, ps)
  {
    forall i: nat, j: nat | p <= i && Stretch(t, i, j)
      ensures (i, j) in ps
    {
      assert i != p;
    }
  }

  lemma {:induction false} LastWord(t: string, q: nat)
    requires q <= |t| && (q == 0 || IsSpace(t[q - 1])) && forall k :: q <= k < |t| ==> !IsSpace(t[k])
    ensures var ps := if q == |t| then [] else [(q, |t|)];
            WordsFrom(t, q, if q == |t| then [] else [t[q..]], ps)
  {
    if q < |t| {
      assert t[q..] == t[q..|t|];
      forall i: nat, j: nat | q <= i && Stretch(t, i, j)
        ensures (i, j) in [(q, |t|)]
      {
        assert i == q && j == |t|;
      }
    }
  }

  /** The splitting loop at position p, with the word that began at q under way. */
  lemma {:induction false} SplitFrom(t: string, q: nat, p: nat) returns (ps: seq<(nat, nat)>)
    requires q <= p <= |t| && (q == 0 || IsSpace(t[q - 1])) && forall k :: q <= k < p ==> !IsSpace(t[k])
    ensures WordsFrom(t, q, Split(t[p..], t[q..p]), ps)
    decreases |t| - p
  {
    if p == |t| {
      LastWord(t, q);
      assert t[q..p] == t[q..];
      ps := if q == |t| then [] else [(q, |t|)];
    } else {
      assert t[p..][0] == t[p] && t[p..][1..] == t[p + 1..];
      if IsSpace(t[p]) {
        assert t[p + 1..p + 1] == "";
        var rest := SplitFrom(t, p + 1, p + 1);
        if q < p {
          PrependWord(t, q, p, Split(t[p + 1..], ""), rest);
          ps := [(q, p)] + rest;
        } else {
          SkipSpace(t, p, Split(t[p + 1..], ""), rest);
          assert [] + Split(t[p + 1..], "") == Split(t[p + 1..], "");
          ps := rest;
        }
      } else {
        assert t[q..p] + [t[p]] == t[q..p + 1];
        ps := SplitFrom(t, q, p + 1);
      }
    }
  }

  /** The words are the longest stretches without whitespace: all of them, each once, in order. */
  lemma {:induction false} SplitIsStretches(t: string) returns (ps: seq<(nat, nat)>)
    ensures WordsFrom(t, 0, Split(t, ""), ps)
  {
    assert t[0..] == t && t[0..0] == "";
    ps := SplitFrom(t, 0, 0);
  }

  // ---------------------------------------------------------------- counted on the text itself

  function CjkAt(t: string): set<nat> {
    set i: nat | i < |t| && 0x4e00 <= t[i] as int <= 0x9fff
  }

  /** Where the words of t start, and where the word w stands. */
  predicate WordStart(t: string, i: nat) {
    i < |t| && !IsSpace(t[i]) && (i == 0 || IsSpace(t[i - 1]))
  }

  predicate OccursAt(t: string, w: string, i: nat) {
    Stretch(t, i, i + |w|) && t[i..i + |w|] == w
  }

  function WordsAt(t: string): set<nat> {
    set i: nat | i < |t| && WordStart(t, i)
  }

  function Occurs(t: string, w: string): set<nat> {
    set i: nat | i < |t| && OccursAt(t, w, i)
  }

  lemma {:induction false} CjkCountIs(t: string)
    ensures CjkCount(t) == |CjkAt(t)|
  {
    if t == "" {
      assert CjkAt(t) == {};
    } else {
      CjkCountIs(Init(t));
      var last: nat := |t| - 1;
      assert CjkAt(t) == CjkAt(Init(t)) + if IsCjk(Last(t)) then {last} else {};
    }
  }

  /** The starts among the first n words that are the word w. */
  ghost function StartsOf(words: seq<string>, ps: seq<(nat, nat)>, w: string): set<nat>
    requires |words| == |ps|
  {
    set n | 0 <= n < |ps| && words[n] == w :: ps[n].0
  }

  lemma {:induction false} CountIn(words: seq<string>, w: string)
    ensures Count(words, w) > 0 <==> w in words
  {
    if words != [] {
      CountIn(Init(words), w);
      assert words == Init(words) + [Last(words)];
    }
  }

  lemma {:induction false} CountIsStarts(words: seq<string>, ps: seq<(nat, nat)>, w: string)
    requires |words| == |ps| && Increasing(Firsts(ps))
    ensures Count(words, w) == |StartsOf(words, ps, w)|
  {
    if words == [] {
      assert StartsOf(words, ps, w) == {};
    } else {
      assert Firsts(Init(ps)) == Init(Firsts(ps));
      assert forall n :: 0 <= n < |ps| - 1 ==> Init(ps)[n].0 == Firsts(ps)[n] < Firsts(ps)[|ps| - 1];
      CountIsStarts(Init(words), Init(ps), w);
      StartsLast(words, ps, w);
    }
  }

  lemma {:induction false} StartsLast(words: seq<string>, ps: seq<(nat, nat)>, w: string)
    requires |words| == |ps| > 0
    ensures StartsOf(words, ps, w) ==
            StartsOf(Init(words), Init(ps), w) + if Last(words) == w then {Last(ps).0} else {}
  {
    var l, r := StartsOf(words, ps, w), StartsOf(Init(words), Init(ps), w);
    forall x | x in l
      ensures x in r || (Last(words) == w && x == Last(ps).0)
    {
      var n :| 0 <= n < |ps| && words[n] == w && ps[n].0 == x;
      if n < |ps| - 1 { assert Init(words)[n] == w && Init(ps)[n].0 == x; }
    }
    forall x | x in r
      ensures x in l
    {
      var n :| 0 <= n < |ps| - 1 && Init(words)[n] == w && Init(ps)[n].0 == x;
      assert words[n] == w && ps[n].0 == x;
    }
    if Last(words) == w { assert words[|ps| - 1] == w && ps[|ps| - 1].0 == Last(ps).0; }
  }

  lemma {:induction false} StartOccurs(t: string, words: seq<string>, ps: seq<(nat, nat)>, n: nat)
    requires WordsFrom(t, 0, words, ps) && n < |ps|
    ensures ps[n].1 == ps[n].0 + |words[n]| && OccursAt(t, words[n], ps[n].0)
  {
  }

  lemma {:induction false} OccurrenceStarts(t: string, words: seq<string>, ps: seq<(nat, nat)>, w: string, x: nat)
    returns (n: nat)
    requires WordsFrom(t, 0, words, ps) && OccursAt(t, w, x)
    ensures n < |ps| && ps[n].0 == x && words[n] == w
  {
    assert (x, x + |w|) in ps;
    n :| 0 <= n < |ps| && ps[n] == (x, x + |w|);
  }

  lemma {:induction false} StartsAreOccurrences(t: string, words: seq<string>, ps: seq<(nat, nat)>, w: string)
    requires WordsFrom(t, 0, words, ps)
    ensures StartsOf(words, ps, w) == Occurs(t, w)
  {
    forall x | x in StartsOf(words, ps, w)
      ensures x in Occurs(t, w)
    {
      var n :| 0 <= n < |ps| && words[n] == w && ps[n].0 == x;
      StartOccurs(t, words, ps, n);
    }
    forall x | x in Occurs(t, w)
      ensures x in StartsOf(words, ps, w)
    {
      var n := OccurrenceStarts(t, words, ps, w, x);
    }
  }

  lemma {:induction false} StretchAt(t: string, i: nat, j: nat) returns (e: nat)
    requires i < j <= |t| && (i == 0 || IsSpace(t[i - 1])) && forall k :: i <= k < j ==> !IsSpace(t[k])
    ensures Stretch(t, i, e)
    decreases |t| - j
  {
    if j == |t| || IsSpace(t[j]) { e := j; } else { e := StretchAt(t, i, j + 1); }
  }

  function Elems(xs: seq<nat>): set<nat> {
    set x | x in xs
  }

  ghost predicate Increasing(xs: seq<nat>) {
    forall m, n :: 0 <= m < n < |xs| ==> xs[m] < xs[n]
  }

  lemma {:induction false} IncreasingSize(xs: seq<nat>)
    requires Increasing(xs)
    ensures |Elems(xs)| == |xs|
  {
    if xs == [] {
      assert Elems(xs) == {};
    } else {
      var p, x := Init(xs), Last(xs);
      IncreasingSize(p);
      assert xs == p + [x];
      assert forall m :: 0 <= m < |p| ==> p[m] == xs[m] && p[m] < x;
      assert Elems(xs) == Elems(p) + {x} && x !in Elems(p);
    }
  }

  function Firsts(ps: seq<(nat, nat)>): (r: seq<nat>)
    ensures |r| == |ps| && forall n :: 0 <= n < |r| ==> r[n] == ps[n].0
  {
    seq(|ps|, n requires 0 <= n < |ps| => ps[n].0)
  }

  lemma {:induction false} FirstsIncrease(t: string, words: seq<string>, ps: seq<(nat, nat)>)
    requires WordsFrom(t, 0, words, ps)
    ensures Increasing(Firsts(ps))
  {
    forall m, n | 0 <= m < n < |ps|
      ensures Firsts(ps)[m] < Firsts(ps)[n]
    {
      assert ps[m].0 < ps[m].1 < ps[n].0;
    }
  }

  /** As many words as starts. */
  lemma {:induction false} WordCountIs(t: string, words: seq<string>, ps: seq<(nat, nat)>)
    requires WordsFrom(t, 0, words, ps)
    ensures |words| == |WordsAt(t)|
  {
    FirstsIncrease(t, words, ps);
    IncreasingSize(Firsts(ps));
    forall i | i in WordsAt(t)
      ensures i in Elems(Firsts(ps))
    {
      var j := StretchAt(t, i, i + 1);
      assert (i, j) in ps;
      var n :| 0 <= n < |ps| && ps[n] == (i, j);
      assert Firsts(ps)[n] == i;
    }
    forall i | i in Elems(Firsts(ps))
      ensures i in WordsAt(t)
    {
      var n :| 0 <= n < |ps| && Firsts(ps)[n] == i;
      StartOccurs(t, words, ps, n);
    }
    assert WordsAt(t) == Elems(Firsts(ps));
  }

  /** The verdict's counts are the text's own. */
  lemma {:induction false} CountsAre(t: string, w: string)
    ensures |Split(t, "")| == |WordsAt(t)|
    ensures Count(Split(t, ""), w) == |Occurs(t, w)|
    ensures w in Split(t, "") <==> |Occurs(t, w)| > 0
  {
    var ps := SplitIsStretches(t);
    var words := Split(t, "");
    WordCountIs(t, words, ps);
    FirstsIncrease(t, words, ps);
    CountIsStarts(words, ps, w);
    StartsAreOccurrences(t, words, ps, w);
    CountIn(words, w);
  }

  // ---------------------------------------------------------------- the verdicts

  /** More than a tenth of the characters are CJK ideographs. */
  ghost predicate TooMuchCjk(t: string) {
    10 * |CjkAt(t)| > |t|
  }

  /** More than two fifths of more than twelve words are the word w. */
  ghost predicate TooOften(t: string, w: string) {
    |WordsAt(t)| > 12 && 10 * |Occurs(t, w)| > 4 * |WordsAt(t)|
  }

  lemma {:induction false} EmptyIff(t: string)
    ensures GarbleReason(t) == Empty <==> t == ""
  {
  }

  lemma {:induction false} CjkIff(t: string, n: nat)
    ensures GarbleReason(t) == Cjk(n) <==> t != "" && TooMuchCjk(t) && n == |CjkAt(t)|
  {
    CjkCountIs(t);
  }

  lemma {:induction false} MostCommonIs(t: string) returns (best: (string, nat))
    requires |Split(t, "")| > 12
    ensures best == MostCommon(Split(t, ""), |Split(t, "")|)
    ensures best.1 == |Occurs(t, best.0)| && forall w :: |Occurs(t, w)| <= best.1
    ensures |Split(t, "")| == |WordsAt(t)|
  {
    var words := Split(t, "");
    best := MostCommon(words, |words|);
    CountsAre(t, best.0);
    forall w
      ensures |Occurs(t, w)| <= best.1
    {
      CountsAre(t, w);
      if w in words {
        var i :| 0 <= i < |words| && words[i] == w;
      }
    }
  }

  /** The repeated word is a most frequent one, with its count. */
  lemma {:induction false} RepeatIff(t: string)
    ensures GarbleReason(t).Repeat? <==> t != "" && !TooMuchCjk(t) && exists w :: TooOften(t, w)
    ensures GarbleReason(t).Repeat? ==>
              && TooOften(t, GarbleReason(t).word)
              && GarbleReason(t).count == |Occurs(t, GarbleReason(t).word)|
              && forall w :: |Occurs(t, w)| <= GarbleReason(t).count
  {
    CjkCountIs(t);
    CountsAre(t, "");
    if |Split(t, "")| > 12 {
      var best := MostCommonIs(t);
      assert TooOften(t, best.0) <==> 10 * best.1 > 4 * |Split(t, "")|;
      forall w | TooOften(t, w)
        ensures TooOften(t, best.0)
      {
        assert |Occurs(t, w)| <= best.1;
      }
    }
  }

  lemma {:induction false} RepeatSays(t: string)
    requires GarbleReason(t).Repeat?
    ensures Split(t, "") != []
    ensures (GarbleReason(t).word, GarbleReason(t).count) == MostCommon(Split(t, ""), |Split(t, "")|)
  {
  }

  /** The position of the first of the most frequent words. */
  lemma {:induction false} FirstMostCommon(words: seq<string>) returns (n: nat)
    requires words != []
    ensures var best := MostCommon(words, |words|);
            n < |words| && words[n] == best.0 && forall m :: 0 <= m < n ==> Count(words, words[m]) < best.1
  {
    var best := MostCommon(words, |words|);
    n :| 0 <= n < |words| && words[n] == best.0 && forall m :: 0 <= m < n ==> Count(words, words[m]) < best.1;
  }

  /** Words that start earlier in the text come earlier in the list. */
  lemma {:induction false} EarlierWord(t: string, words: seq<string>, ps: seq<(nat, nat)>, n: nat, w: string, j: nat)
    returns (m: nat)
    requires WordsFrom(t, 0, words, ps) && n < |ps| && j < ps[n].0 && OccursAt(t, w, j)
    ensures m < n && words[m] == w
  {
    m := OccurrenceStarts(t, words, ps, w, j);
    FirstsIncrease(t, words, ps);
    assert Firsts(ps)[m] < Firsts(ps)[n];
  }

  lemma {:induction false} FirstOfMostCommon(t: string) returns (i: nat)
    requires Split(t, "") != []
    ensures var best := MostCommon(Split(t, ""), |Split(t, "")|);
            && OccursAt(t, best.0, i)
            && forall w, j: nat :: j < i && OccursAt(t, w, j) ==> |Occurs(t, w)| < best.1
  {
    var words := Split(t, "");
    var count := MostCommon(words, |words|).1;
    var ps := SplitIsStretches(t);
    var n := FirstMostCommon(words);
    StartOccurs(t, words, ps, n);
    i := ps[n].0;
    forall w, j: nat | j < i && OccursAt(t, w, j)
      ensures |Occurs(t, w)| < count
    {
      var m := EarlierWord(t, words, ps, n, w, j);
      CountsAre(t, w);
    }
  }

  /** On a tie it is the word that occurs first. */
  lemma {:induction false} RepeatIsFirst(t: string) returns (i: nat)
    requires GarbleReason(t).Repeat?
    ensures OccursAt(t, GarbleReason(t).word, i)
    ensures forall w, j: nat :: j < i && OccursAt(t, w, j) ==> |Occurs(t, w)| < GarbleReason(t).count
  {
    RepeatSays(t);
    i := FirstOfMostCommon(t);
  }

  lemma {:induction false} LoopIff(t: string)
    ensures GarbleReason(t) == LoopFragment <==>
            t != "" && !TooMuchCjk(t) && !(exists w :: TooOften(t, w)) && HasLoop(t)
  {
    CjkCountIs(t);
    RepeatIff(t);
    SearchIff(t, 0);
  }

  /** A text passes exactly when it is not empty, at most a tenth of it is CJK, no word makes up more
      than two fifths of more than twelve words, and it has no loop. */
  lemma {:induction false} CleanIff(t: string)
    ensures GarbleReason(t) == Clean <==>
            t != "" && !TooMuchCjk(t) && !(exists w :: TooOften(t, w)) && !HasLoop(t)
  {
    CjkCountIs(t);
    RepeatIff(t);
    SearchIff(t, 0);
  }

  /** No text containing a long enough newline-free run of any period passes. */
  lemma {:induction false} LongRunNeverClean(t: string, a: nat, n: nat, p: nat)
    requires p >= 1 && a + n <= |t| && Line(t[a..a + n]) && HasPeriod(t[a..a + n], p)
    requires n >= 4 * (p * Blocks(p))
    ensures GarbleReason(t) != Clean
  {
    LongRunIsLoop(t, a, n, p);
    CleanIff(t);
  }
}
