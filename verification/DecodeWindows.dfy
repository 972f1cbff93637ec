/** The four reporting windows of the decode benchmark, over real time. */
module DecodeWindows {
  import opened Common

  /** A streamed chunk: arrival time, whether it carries text, and its number of logprob entries
      (0 when the server sent none). */
  datatype Chunk = Chunk(now: real, text: bool, logprobs: nat)

  /** Elapsed time and cumulative tokens. */
  datatype Mark = Mark(time: real, tokens: int)

  datatype Window = Window(k: nat, tokens: int, seconds: real, tps: Option<real>)

  function TokensOf(c: Chunk): (n: nat)
    ensures n >= 1 && (c.logprobs > 0 ==> n == c.logprobs)
  {
    if c.logprobs > 0 then c.logprobs else 1
  }

  function Tokens(cs: seq<Chunk>): nat {
    if cs == [] then 0 else Tokens(Init(cs)) + if Last(cs).text then TokensOf(Last(cs)) else 0
  }

  function Marks(cs: seq<Chunk>): seq<Mark> {
    if cs == [] then []
    else Marks(Init(cs)) + if Last(cs).text then [Mark(Last(cs).now, Tokens(cs))] else []
  }

  /** The streaming loop. */
  method Record(cs: seq<Chunk>) returns (marks: seq<Mark>, tokens: nat, ttft: Option<real>)
    ensures marks == Marks(cs) && tokens == Tokens(cs)
    ensures ttft == if marks == [] then None else Some(marks[0].time)
  {
    marks, tokens, ttft := [], 0, None;
    var i := 0;
    while i < |cs|
      invariant 0 <= i <= |cs|
      invariant marks == Marks(cs[..i]) && tokens == Tokens(cs[..i])
      invariant ttft == if marks == [] then None else Some(marks[0].time)
    {
      PrefixStep(cs, i);
      if cs[i].text {
        if ttft.None? { ttft := Some(cs[i].now); }
        tokens := tokens + TokensOf(cs[i]);
        marks := marks + [Mark(cs[i].now, tokens)];
      }
      i := i + 1;
    }
    assert cs[..i] == cs;
  }

  /** A stream's tokens and marks are those of its chunks, one after the other: a chunk with text counts one
      token, or its logprob entries, and leaves a mark with its own time and the running count. */
  lemma {:induction false} OneMoreChunk(cs: seq<Chunk>, c: Chunk)
    ensures !c.text ==> Tokens(cs + [c]) == Tokens(cs) && Marks(cs + [c]) == Marks(cs)
    ensures c.text ==> Tokens(cs + [c]) == Tokens(cs) + if c.logprobs == 0 then 1 else c.logprobs
    ensures c.text ==> Marks(cs + [c]) == Marks(cs) + [Mark(c.now, Tokens(cs + [c]))]
  {
    assert Init(cs + [c]) == cs;
  }

  lemma {:induction false} TokensAddUp(a: seq<Chunk>, b: seq<Chunk>)
    ensures Tokens(a + b) == Tokens(a) + Tokens(b)
  {
    if b == [] {
      assert a + b == a;
    } else {
      TokensAddUp(a, Init(b));
      assert a + b == a + Init(b) + [Last(b)] && b == Init(b) + [Last(b)];
      OneMoreChunk(a + Init(b), Last(b));
      OneMoreChunk(Init(b), Last(b));
    }
  }

  /** The mark of chunk i comes after one mark for each earlier chunk with text. */
  lemma {:induction false} MarkOfChunk(cs: seq<Chunk>, i: nat)
    requires i < |cs| && cs[i].text
    ensures |Marks(cs)| == |set j | 0 <= j < |cs| && cs[j].text|
    ensures |set j | 0 <= j < i && cs[j].text| < |Marks(cs)|
    ensures Marks(cs)[|set j | 0 <= j < i && cs[j].text|] == Mark(cs[i].now, Tokens(cs[..i + 1]))
  {
    MarkCount(cs);
    MarkCount(cs[..i]);
    MarkCount(cs[..i + 1]);
    SameTexts(cs, i);
    OneMoreChunk(cs[..i], cs[i]);
    assert cs[..i] + [cs[i]] == cs[..i + 1];
    MarksPrefix(cs, i + 1);
  }

  lemma {:induction false} SameTexts(cs: seq<Chunk>, i: nat)
    requires i <= |cs|
    ensures (set j | 0 <= j < |cs[..i]| && cs[..i][j].text) == (set j | 0 <= j < i && cs[j].text)
  {
  }

  lemma {:induction false} MarkCount(cs: seq<Chunk>)
    ensures |Marks(cs)| == |set j | 0 <= j < |cs| && cs[j].text|
  {
    var all := set j | 0 <= j < |cs| && cs[j].text;
    if cs == [] {
      assert all == {};
    } else {
      MarkCount(Init(cs));
      var before := set j | 0 <= j < |Init(cs)| && Init(cs)[j].text;
      assert all == before + if Last(cs).text then {|cs| - 1} else {};
    }
  }

  lemma {:induction false} MarksPrefix(cs: seq<Chunk>, n: nat)
    requires n <= |cs|
    ensures Marks(cs[..n]) <= Marks(cs)
  {
    if n == |cs| {
      assert cs[..n] == cs;
    } else {
      MarksPrefix(Init(cs), n);
      assert Init(cs)[..n] == cs[..n];
    }
  }

  ghost predicate Clocked(cs: seq<Chunk>) {
    forall i, j :: 0 <= i < j < |cs| ==> cs[i].now <= cs[j].now
  }

  ghost predicate Ordered(marks: seq<Mark>) {
    forall i, j :: 0 <= i < j < |marks| ==> marks[i].time <= marks[j].time && marks[i].tokens < marks[j].tokens
  }

  /** A monotone clock gives marks ordered by time and strictly by tokens. */
  lemma {:induction false} MarksOrdered(cs: seq<Chunk>)
    requires Clocked(cs)
    ensures Ordered(Marks(cs))
    ensures forall m :: m in Marks(cs) ==> m.tokens <= Tokens(cs) && exists i :: 0 <= i < |cs| && m.time == cs[i].now
  {
    if cs != [] {
      MarksOrdered(Init(cs));
      forall m | m in Marks(cs)
        ensures m.tokens <= Tokens(cs) && exists i :: 0 <= i < |cs| && m.time == cs[i].now
      {
        if m in Marks(Init(cs)) {
          var i :| 0 <= i < |cs| - 1 && m.time == Init(cs)[i].now;
          assert m.time == cs[i].now;
        } else {
          assert m.time == cs[|cs| - 1].now;
        }
      }
      var p := Marks(Init(cs));
      forall i | 0 <= i < |p|
        ensures p[i].time <= Last(cs).now && p[i].tokens <= Tokens(Init(cs))
      {
        assert p[i] in p;
        var j :| 0 <= j < |cs| - 1 && p[i].time == Init(cs)[j].now;
        assert cs[j].now <= cs[|cs| - 1].now;
      }
    }
  }

  // ---------------------------------------------------------------- windows

  function Edge(marks: seq<Mark>, k: nat): real
    requires marks != []
  {
    marks[0].time + (Last(marks).time - marks[0].time) * k as real / 4.0
  }

  /** The edges cut the span between first and last mark into four equal parts. */
  lemma {:induction false} EvenEdges(marks: seq<Mark>, k: nat)
    requires marks != [] && k < 4
    ensures Edge(marks, 0) == marks[0].time && Edge(marks, 4) == Last(marks).time
    ensures 4.0 * (Edge(marks, k + 1) - Edge(marks, k)) == Last(marks).time - marks[0].time
  {
  }

  function Within(marks: seq<Mark>, lo: real, hi: real): seq<Mark> {
    if marks == [] then []
    else Within(Init(marks), lo, hi) + if lo <= Last(marks).time < hi then [Last(marks)] else []
  }

  function Report(k: nat, inwin: seq<Mark>): seq<Window> {
    if |inwin| < 2 then []
    else
      var dt, dn := Last(inwin).time - inwin[0].time, Last(inwin).tokens - inwin[0].tokens;
      [Window(k, dn, dt, if dt > 0.0 then Some(dn as real / dt) else None)]
  }

  /** A window with fewer than two marks is not reported. One that is reports what lies between its first and
      its last mark, and the rate unless no time passed. */
  lemma {:induction false} ReportSays(k: nat, inwin: seq<Mark>)
    ensures Report(k, inwin) == [] <==> |inwin| < 2
    ensures |inwin| >= 2 ==>
              var w := Report(k, inwin)[0];
              && |Report(k, inwin)| == 1 && w.k == k
              && inwin[0].tokens + w.tokens == inwin[|inwin| - 1].tokens
              && inwin[0].time + w.seconds == inwin[|inwin| - 1].time
              && (w.tps.None? <==> w.seconds <= 0.0)
              && (w.tps.Some? ==> w.tps.value * w.seconds == w.tokens as real)
  {
    if |inwin| >= 2 {
      var w := Report(k, inwin)[0];
      if w.seconds > 0.0 { Rate(w.tokens as real, w.seconds, w.tps.value); }
    }
  }

  lemma {:induction false} Rate(n: real, t: real, q: real)
    requires t > 0.0 && q == n / t
    ensures q * t == n
  {
  }

  /** The marks of a window are those at or after its lower edge and before its upper one, in order. */
  lemma {:induction false} WithinInOrder(a: seq<Mark>, b: seq<Mark>, lo: real, hi: real)
    ensures Within(a + b, lo, hi) == Within(a, lo, hi) + Within(b, lo, hi)
    ensures |b| == 1 ==> Within(b, lo, hi) == if lo <= b[0].time && b[0].time < hi then b else []
  {
    if b == [] {
      assert a + b == a;
    } else {
      WithinInOrder(a, Init(b), lo, hi);
      assert Init(a + b) == a + Init(b);
    }
  }

  function Reports(marks: seq<Mark>, n: nat): seq<Window>
    requires marks != []
  {
    if n == 0 then []
    else Reports(marks, n - 1) + Report(n - 1, Within(marks, Edge(marks, n - 1), Edge(marks, n)))
  }

  lemma {:induction false} FourReports(marks: seq<Mark>)
    requires marks != []
    ensures Reports(marks, 4) ==
            Report(0, Within(marks, Edge(marks, 0), Edge(marks, 1)))
            + Report(1, Within(marks, Edge(marks, 1), Edge(marks, 2)))
            + Report(2, Within(marks, Edge(marks, 2), Edge(marks, 3)))
            + Report(3, Within(marks, Edge(marks, 3), Edge(marks, 4)))
  {
    assert Reports(marks, 0) == [];
    assert Reports(marks, 1) == Report(0, Within(marks, Edge(marks, 0), Edge(marks, 1)));
    assert Reports(marks, 2) == Reports(marks, 1) + Report(1, Within(marks, Edge(marks, 1), Edge(marks, 2)));
    assert Reports(marks, 3) == Reports(marks, 2) + Report(2, Within(marks, Edge(marks, 2), Edge(marks, 3)));
  }

  method Filter(marks: seq<Mark>, lo: real, hi: real) returns (r: seq<Mark>)
    ensures r == Within(marks, lo, hi)
  {
    r := [];
    var i := 0;
    while i < |marks|
      invariant 0 <= i <= |marks| && r == Within(marks[..i], lo, hi)
    {
      PrefixStep(marks, i);
      if lo <= marks[i].time < hi { r := r + [marks[i]]; }
      i := i + 1;
    }
    assert marks[..i] == marks;
  }

  /** No windows for short runs, or when the first token came at time zero or never. */
  method Windows(marks: seq<Mark>, ttft: Option<real>) returns (windows: seq<Window>)
    ensures |marks| < 8 || ttft.GetOr(0.0) == 0.0 ==> windows == []
    ensures |marks| >= 8 && ttft.GetOr(0.0) != 0.0 ==> windows == Reports(marks, 4)
    ensures |marks| >= 8 && ttft.GetOr(0.0) != 0.0 ==>
              windows == Report(0, Within(marks, Edge(marks, 0), Edge(marks, 1)))
                       + Report(1, Within(marks, Edge(marks, 1), Edge(marks, 2)))
                       + Report(2, Within(marks, Edge(marks, 2), Edge(marks, 3)))
                       + Report(3, Within(marks, Edge(marks, 3), Edge(marks, 4)))
  {
    windows := [];
    if |marks| >= 8 && ttft.GetOr(0.0) != 0.0 {
      var k := 0;
      while k < 4
        invariant 0 <= k <= 4 && windows == Reports(marks, k)
      {
        var inwin := Filter(marks, Edge(marks, k), Edge(marks, k + 1));
        windows := windows + Report(k, inwin);
        k := k + 1;
      }
      FourReports(marks);
    }
  }

  // ---------------------------------------------------------------- what the windows account for

  ghost predicate InQuarter(marks: seq<Mark>, t: real, k: nat)
    requires marks != []
  {
    k < 4 && Edge(marks, k) <= t < Edge(marks, k + 1)
  }

  lemma {:induction false} Edges(marks: seq<Mark>)
    requires marks != [] && marks[0].time <= Last(marks).time
    ensures Edge(marks, 0) == marks[0].time && Edge(marks, 4) == Last(marks).time
    ensures Edge(marks, 0) <= Edge(marks, 1) <= Edge(marks, 2) <= Edge(marks, 3) <= Edge(marks, 4)
  {
  }

  /** Every moment before the last mark lies in exactly one quarter, and the last moment in none. */
  lemma {:induction false} ExactlyOneQuarter(marks: seq<Mark>, t: real)
    requires marks != [] && marks[0].time <= t <= Last(marks).time
    ensures t < Last(marks).time <==> exists k :: InQuarter(marks, t, k)
    ensures forall j, k :: InQuarter(marks, t, j) && InQuarter(marks, t, k) ==> j == k
  {
    Edges(marks);
    if t < Last(marks).time {
      if t < Edge(marks, 1) { assert InQuarter(marks, t, 0); }
      else if t < Edge(marks, 2) { assert InQuarter(marks, t, 1); }
      else if t < Edge(marks, 3) { assert InQuarter(marks, t, 2); }
      else { assert InQuarter(marks, t, 3); }
    }
    forall j, k | InQuarter(marks, t, j) && InQuarter(marks, t, k)
      ensures j == k && t < Last(marks).time
    {
      assert j == 0 || j == 1 || j == 2 || j == 3;
      assert k == 0 || k == 1 || k == 2 || k == 3;
    }
  }

  /** How many marks come before time x. */
  function Cut(marks: seq<Mark>, x: real): (n: nat)
    ensures n <= |marks|
  {
    if marks == [] then 0
    else if Last(marks).time < x then |marks| else Cut(Init(marks), x)
  }

  lemma {:induction false} CutSplits(marks: seq<Mark>, x: real)
    requires Ordered(marks)
    ensures forall i :: 0 <= i < |marks| ==> (i < Cut(marks, x) <==> marks[i].time < x)
  {
    if marks != [] {
      CutSplits(Init(marks), x);
      assert forall i :: 0 <= i < |marks| - 1 ==> Init(marks)[i] == marks[i];
    }
  }

  /** What the last mark does to a cut and to a window. */
  lemma {:induction false} LastMark(marks: seq<Mark>, x: real)
    requires marks != []
    ensures Cut(marks, x) == if Last(marks).time < x then |marks| else Cut(Init(marks), x)
  {
  }

  lemma {:induction false} LastMarkWithin(marks: seq<Mark>, lo: real, hi: real)
    requires marks != []
    ensures Within(marks, lo, hi) ==
            Within(Init(marks), lo, hi) + if lo <= Last(marks).time < hi then [Last(marks)] else []
  {
  }

  lemma {:induction false} PrefixOrdered(marks: seq<Mark>, x: real)
    requires Ordered(marks) && marks != []
    ensures Ordered(Init(marks))
    ensures Last(marks).time < x ==> Cut(Init(marks), x) == |Init(marks)|
  {
    var p := Init(marks);
    assert forall i :: 0 <= i < |p| ==> p[i] == marks[i];
    if Last(marks).time < x { AllBefore(p, x); }
  }

  lemma {:induction false} SliceOfPrefix(marks: seq<Mark>, a: nat, b: nat)
    requires marks != [] && a <= b < |marks|
    ensures marks[a..b] == Init(marks)[a..b]
    ensures b == |marks| - 1 ==> marks[a..|marks|] == Init(marks)[a..b] + [Last(marks)]
  {
    var p := Init(marks);
    assert marks == p + [Last(marks)];
    assert forall i :: a <= i < b ==> marks[i] == p[i];
    assert marks[a..b] == p[a..b];
    if b == |marks| - 1 { assert marks[a..|marks|] == marks[a..b] + [marks[b]]; }
  }

  /** A window's marks are one contiguous stretch. */
  lemma {:induction false} WithinIsSlice(marks: seq<Mark>, lo: real, hi: real)
    requires Ordered(marks) && lo <= hi
    ensures Cut(marks, lo) <= Cut(marks, hi)
    ensures Within(marks, lo, hi) == marks[Cut(marks, lo)..Cut(marks, hi)]
  {
    if marks != [] {
      PrefixOrdered(marks, lo);
      PrefixOrdered(marks, hi);
      WithinIsSlice(Init(marks), lo, hi);
      LastMark(marks, lo);
      LastMark(marks, hi);
      LastMarkWithin(marks, lo, hi);
      SliceOfPrefix(marks, Cut(Init(marks), lo), Cut(Init(marks), hi));
    }
  }

  lemma {:induction false} AllBefore(marks: seq<Mark>, x: real)
    requires forall i :: 0 <= i < |marks| ==> marks[i].time < x
    ensures Cut(marks, x) == |marks|
  {
  }

  function SumTokens(ws: seq<Window>): int {
    if ws == [] then 0 else SumTokens(Init(ws)) + Last(ws).tokens
  }

  lemma {:induction false} ReportTokens(k: nat, inwin: seq<Mark>)
    ensures SumTokens(Report(k, inwin)) == if |inwin| < 2 then 0 else Last(inwin).tokens - inwin[0].tokens
  {
    var w := Report(k, inwin);
    if w != [] { assert Init(w) == []; }
  }

  /** One window reports at most the tokens between its first mark and the first mark after it. */
  lemma {:induction false} WindowBound(marks: seq<Mark>, k: nat, lo: real, hi: real)
    requires Ordered(marks) && marks != [] && lo <= hi <= Last(marks).time
    ensures Cut(marks, lo) <= Cut(marks, hi) < |marks|
    ensures 0 <= SumTokens(Report(k, Within(marks, lo, hi)))
              <= marks[Cut(marks, hi)].tokens - marks[Cut(marks, lo)].tokens
  {
    WithinIsSlice(marks, lo, hi);
    CutSplits(marks, hi);
    var a, b := Cut(marks, lo), Cut(marks, hi);
    assert marks[|marks| - 1].time >= hi;
    var inwin := marks[a..b];
    ReportTokens(k, inwin);
    if |inwin| >= 2 {
      assert Last(inwin) == marks[b - 1] && inwin[0] == marks[a];
      assert marks[a].tokens < marks[b - 1].tokens < marks[b].tokens;
    } else if a < b {
      assert marks[a].tokens < marks[b].tokens;
    }
  }

  lemma {:induction false} SumConcat(a: seq<Window>, b: seq<Window>)
    ensures SumTokens(a + b) == SumTokens(a) + SumTokens(b)
  {
    if b == [] {
      assert a + b == a;
    } else {
      assert Init(a + b) == a + Init(b);
      SumConcat(a, Init(b));
    }
  }

  /** One more quarter adds its own report. */
  lemma {:induction false} OneMoreReport(marks: seq<Mark>, n: nat, lo: real, hi: real)
    requires marks != [] && lo == Edge(marks, n) && hi == Edge(marks, n + 1)
    ensures SumTokens(Reports(marks, n + 1)) ==
            SumTokens(Reports(marks, n)) + SumTokens(Report(n, Within(marks, lo, hi)))
  {
    SumConcat(Reports(marks, n), Report(n, Within(marks, lo, hi)));
  }

  lemma {:induction false} EdgeStep(marks: seq<Mark>, n: nat)
    requires marks != [] && n < 4 && marks[0].time <= Last(marks).time
    ensures Edge(marks, n) <= Edge(marks, n + 1) <= Last(marks).time
  {
    Edges(marks);
    assert n == 0 || n == 1 || n == 2 || n == 3;
  }

  lemma {:induction false} NoneBeforeFirst(marks: seq<Mark>)
    requires Ordered(marks) && marks != []
    ensures Cut(marks, Edge(marks, 0)) == 0
  {
    assert Edge(marks, 0) == marks[0].time;
    CutSplits(marks, marks[0].time);
  }

  /** The first n windows report at most the tokens between the first mark and the first one from x on. */
  ghost predicate Bounded(marks: seq<Mark>, n: nat, x: real)
    requires marks != []
  {
    && Cut(marks, x) < |marks|
    && 0 <= SumTokens(Reports(marks, n)) <= marks[Cut(marks, x)].tokens - marks[0].tokens
  }

  lemma {:induction false} OneMoreBounded(marks: seq<Mark>, n: nat, lo: real, hi: real)
    requires Ordered(marks) && marks != [] && lo <= hi <= Last(marks).time
    requires lo == Edge(marks, n) && hi == Edge(marks, n + 1) && Bounded(marks, n, lo)
    ensures Bounded(marks, n + 1, hi)
  {
    WindowBound(marks, n, lo, hi);
    OneMoreReport(marks, n, lo, hi);
  }

  lemma {:induction false} PrefixBound(marks: seq<Mark>, n: nat)
    requires Ordered(marks) && marks != [] && n <= 4 && marks[0].time <= Last(marks).time
    ensures Bounded(marks, n, Edge(marks, n))
  {
    if n == 0 {
      NoneBeforeFirst(marks);
    } else {
      var k: nat := n - 1;
      PrefixBound(marks, k);
      EdgeStep(marks, k);
      OneMoreBounded(marks, k, Edge(marks, k), Edge(marks, k + 1));
    }
  }

  /** The windows never report more tokens than were generated between the first and the last mark. */
  lemma {:induction false} WindowsNeverOvercount(cs: seq<Chunk>)
    requires Clocked(cs) && Marks(cs) != []
    ensures 0 <= SumTokens(Reports(Marks(cs), 4)) <= Last(Marks(cs)).tokens - Marks(cs)[0].tokens
    ensures Last(Marks(cs)).tokens <= Tokens(cs)
  {
    MarksOrdered(cs);
    var marks := Marks(cs);
    assert Last(marks) in marks;
    assert |marks| > 1 ==> marks[0].time <= marks[|marks| - 1].time;
    PrefixBound(marks, 4);
    var c := Cut(marks, Edge(marks, 4));
    assert c < |marks| - 1 ==> marks[c].tokens < marks[|marks| - 1].tokens;
  }
}
