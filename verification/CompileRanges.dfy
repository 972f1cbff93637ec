/** Which batch sizes are warmed up before graph capture. */
module CompileRanges {
  import opened Common

  /** A requested compile size: a number, or a symbolic name. */
  datatype Size = Int(n: int) | Named(s: string)

  /** A compile range, both ends inclusive. */
  datatype Range = Range(start: int, end: int) {
    predicate Contains(x: int) { start <= x <= end }
  }

  function Kept(sizes: seq<Size>, captured: seq<int>): seq<Size> {
    if sizes == [] then []
    else
      var s := Last(sizes);
      Kept(Init(sizes), captured) + if s.Int? && s.n in captured then [] else [s]
  }

  function Numbers(sizes: seq<Size>): set<int> {
    set s | s in sizes && s.Int? :: s.n
  }

  predicate Hit(r: Range, sizes: set<int>) {
    exists x :: x in sizes && r.Contains(x)
  }

  /** The ends of the ranges no known size falls into, in order. */
  function Ends(ranges: seq<Range>, sizes: set<int>): seq<Size> {
    if ranges == [] then []
    else Ends(Init(ranges), sizes) + if Hit(Last(ranges), sizes) then [] else [Int(Last(ranges).end)]
  }

  function Captured(cudagraphs: bool, captureSizes: Option<seq<int>>): seq<int> {
    if cudagraphs then captureSizes.GetOr([]) else []
  }

  function Plan(requested: seq<Size>, captured: seq<int>, ranges: seq<Range>): seq<Size> {
    var kept := Kept(requested, captured);
    kept + Ends(ranges, (set x | x in captured) + Numbers(kept))
  }

  method WarmupSizes(compileMode: bool, compileSizes: Option<seq<Size>>, cudagraphs: bool,
                     captureSizes: Option<seq<int>>, ranges: seq<Range>)
    returns (warmup: seq<Size>)
    ensures !compileMode ==> warmup == []
    ensures compileMode ==> warmup == Plan(compileSizes.GetOr([]), Captured(cudagraphs, captureSizes), ranges)
    ensures compileMode && compileSizes.Some? ==> forall s :: s in compileSizes.value ==>
              s in warmup || (cudagraphs && captureSizes.Some? && s.Int? && s.n in captureSizes.value)
    ensures compileMode && compileSizes.Some? && (!cudagraphs || captureSizes.None?) ==>
              compileSizes.value <= warmup
  {
    warmup := [];
    if compileMode {
      var requested := compileSizes.GetOr([]);
      var captured := Captured(cudagraphs, captureSizes);
      var i := 0;
      while i < |requested|
        invariant 0 <= i <= |requested| && warmup == Kept(requested[..i], captured)
      {
        PrefixStep(requested, i);
        if !(requested[i].Int? && requested[i].n in captured) { warmup := warmup + [requested[i]]; }
        i := i + 1;
      }
      assert requested[..i] == requested;
      var all := (set x | x in captured) + Numbers(warmup);
      ghost var kept := warmup;
      i := 0;
      while i < |ranges|
        invariant 0 <= i <= |ranges| && warmup == kept + Ends(ranges[..i], all)
      {
        PrefixStep(ranges, i);
        if !(exists x :: x in all && ranges[i].Contains(x)) { warmup := warmup + [Int(ranges[i].end)]; }
        i := i + 1;
      }
      assert ranges[..i] == ranges;
      forall s | s in requested
        ensures s in warmup || (s.Int? && s.n in captured)
      {
        KeptIff(requested, captured, s);
      }
      if captured == [] { NothingCaptured(requested, captured); }
    }
  }

  lemma {:induction false} KeptLast(sizes: seq<Size>, captured: seq<int>)
    requires sizes != []
    ensures Kept(sizes, captured) ==
            Kept(Init(sizes), captured)
            + if Last(sizes).Int? && Last(sizes).n in captured then [] else [Last(sizes)]
    ensures sizes == Init(sizes) + [Last(sizes)]
  {
  }

  lemma {:induction false} NothingCaptured(sizes: seq<Size>, captured: seq<int>)
    requires captured == []
    ensures Kept(sizes, captured) == sizes
  {
    if sizes != [] {
      NothingCaptured(Init(sizes), captured);
      KeptLast(sizes, captured);
    }
  }

  /** The kept sizes are the requested ones that are not captured, in their order and multiplicity. */
  lemma {:induction false} KeptInOrder(a: seq<Size>, b: seq<Size>, captured: seq<int>)
    ensures Kept(a + b, captured) == Kept(a, captured) + Kept(b, captured)
    ensures |b| == 1 ==> Kept(b, captured) == if b[0].Int? && b[0].n in captured then [] else b
  {
    if b == [] {
      assert a + b == a;
    } else {
      KeptInOrder(a, Init(b), captured);
      assert Init(a + b) == a + Init(b);
    }
  }

  /** One end is added, in their order, for every range without a known size - two for two equal ranges,
      because the added ends do not join the known sizes. */
  lemma {:induction false} EndsInOrder(a: seq<Range>, b: seq<Range>, sizes: set<int>)
    ensures Ends(a + b, sizes) == Ends(a, sizes) + Ends(b, sizes)
  {
    if b == [] {
      assert a + b == a;
    } else {
      EndsInOrder(a, Init(b), sizes);
      assert Init(a + b) == a + Init(b);
    }
  }

  lemma {:induction false} EndOf(r: Range, sizes: set<int>)
    ensures Ends([r], sizes) == if forall x :: r.start <= x <= r.end ==> x !in sizes then [Int(r.end)] else []
  {
    assert Init([r]) == [] && Ends([], sizes) == [];
    assert Hit(r, sizes) <==> exists x :: x in sizes && r.start <= x <= r.end;
  }

  lemma {:induction false} KeptIff(sizes: seq<Size>, captured: seq<int>, s: Size)
    ensures s in Kept(sizes, captured) <==> s in sizes && !(s.Int? && s.n in captured)
  {
    if sizes != [] {
      KeptIff(Init(sizes), captured, s);
      assert sizes == Init(sizes) + [Last(sizes)];
    }
  }

  lemma {:induction false} EndsIff(ranges: seq<Range>, sizes: set<int>, s: Size)
    ensures s in Ends(ranges, sizes) <==> exists r :: r in ranges && !Hit(r, sizes) && s == Int(r.end)
  {
    if ranges != [] {
      EndsIff(Init(ranges), sizes, s);
      assert ranges == Init(ranges) + [Last(ranges)];
    }
  }

  /** The plan: the requested sizes that are not captured, then one end for every range that holds neither
      a captured nor a requested size. */
  lemma {:induction false} PlanIs(requested: seq<Size>, captured: seq<int>, ranges: seq<Range>, known: set<int>)
    requires forall x :: x in known <==> x in captured || Int(x) in requested
    ensures Plan(requested, captured, ranges) == Kept(requested, captured) + Ends(ranges, known)
  {
    var kept := Kept(requested, captured);
    var all := (set x | x in captured) + Numbers(kept);
    forall x
      ensures x in all <==> x in known
    {
      KeptIff(requested, captured, Int(x));
      assert x in Numbers(kept) <==> Int(x) in kept by {
        if x in Numbers(kept) {
          var s :| s in kept && s.Int? && s.n == x;
          assert s == Int(x);
        }
      }
    }
    assert all == known;
  }

  ghost predicate Ready(x: int, captured: seq<int>, plan: seq<Size>) {
    x in captured || Int(x) in plan
  }

  /** Every requested size is captured or warmed up, and nothing captured is warmed up again except
      the end of an empty range. */
  lemma {:induction false} RequestedReady(requested: seq<Size>, captured: seq<int>, ranges: seq<Range>, s: Size)
    ensures s in requested ==> s in Plan(requested, captured, ranges) || (s.Int? && s.n in captured)
    ensures s in Plan(requested, captured, ranges) && s.Int? && s.n in captured ==>
              exists r :: r in ranges && r.end == s.n && r.start > r.end
    ensures s in Plan(requested, captured, ranges) ==>
              s in requested || exists r :: r in ranges && s == Int(r.end)
  {
    var kept := Kept(requested, captured);
    var all := (set x | x in captured) + Numbers(kept);
    KeptIff(requested, captured, s);
    EndsIff(ranges, all, s);
    if s in Ends(ranges, all) && s.Int? && s.n in captured {
      var r :| r in ranges && !Hit(r, all) && s == Int(r.end);
      assert s.n in all;
    }
  }

  /** However the ranges overlap, a range ends up with a captured or warmed-up size in it exactly when
      it is not empty. */
  lemma {:induction false} RangeCoveredIff(requested: seq<Size>, captured: seq<int>, ranges: seq<Range>, r: Range)
    requires r in ranges
    ensures (exists x :: r.Contains(x) && Ready(x, captured, Plan(requested, captured, ranges))) <==> r.start <= r.end
  {
    var kept := Kept(requested, captured);
    var all := (set x | x in captured) + Numbers(kept);
    if r.start <= r.end {
      if x :| x in all && r.Contains(x) {
        assert Ready(x, captured, Plan(requested, captured, ranges));
      } else {
        EndsIff(ranges, all, Int(r.end));
        assert Ready(r.end, captured, Plan(requested, captured, ranges));
      }
    }
  }
}
