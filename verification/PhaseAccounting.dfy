/** Per-phase work counters of the trace annotation. */
module PhaseAccounting {
  import opened Common

  type Id = string

  /** One scheduler output: newly scheduled requests, cached ones with their computed-token list, the
      cached ones still in their context phase, and the tokens scheduled now. */
  datatype Schedule = Schedule(
    newReqs: seq<(Id, nat)>,
    cachedIds: seq<Id>,
    cachedComputed: seq<nat>,
    contextPhase: set<Id>,
    items: seq<(Id, nat)>)

  /** The three counters of a phase. */
  datatype Sums = Sums(seqLen: int, qq: int, qk: int) {
    function Add(o: Sums): Sums {
      Sums(seqLen + o.seqLen, qq + o.qq, qk + o.qk)
    }
  }

  function Zero(): Sums {
    Sums(0, 0, 0)
  }

  function Assign(m: map<Id, nat>, ps: seq<(Id, nat)>): map<Id, nat> {
    if ps == [] then m else Assign(m, Init(ps))[Last(ps).0 := Last(ps).1]
  }

  /** zip stops at the shorter list. */
  function Zip(ids: seq<Id>, ns: seq<nat>): seq<(Id, nat)> {
    if ids == [] || ns == [] then [] else [(ids[0], ns[0])] + Zip(ids[1..], ns[1..])
  }

  /** Computed tokens by request: cached entries override new ones. */
  function Computed(s: Schedule): map<Id, nat> {
    Assign(Assign(map[], s.newReqs), Zip(s.cachedIds, s.cachedComputed))
  }

  function ComputedOf(c: map<Id, nat>, id: Id): nat {
    if id in c then c[id] else 0
  }

  /** Position i is the last of the first n that names the request. */
  ghost predicate LastOf(ids: seq<Id>, n: nat, i: nat, id: Id) {
    i < n <= |ids| && ids[i] == id && forall j :: i < j < n ==> ids[j] != id
  }

  function Ids(ps: seq<(Id, nat)>): (r: seq<Id>)
    ensures |r| == |ps| && forall i :: 0 <= i < |r| ==> r[i] == ps[i].0
  {
    seq(|ps|, i requires 0 <= i < |ps| => ps[i].0)
  }

  /** The tokens computed before for a request: from its last entry among the cached ones that has a count,
      else from its last entry among the new ones, else none. */
  lemma {:induction false} ComputedIs(s: Schedule, id: Id)
    ensures var c, n := ComputedOf(Computed(s), id), Min(|s.cachedIds|, |s.cachedComputed|);
            && (forall i: nat :: LastOf(s.cachedIds, n, i, id) ==> c == s.cachedComputed[i])
            && (id !in s.cachedIds[..n] ==>
                  && (forall i: nat :: LastOf(Ids(s.newReqs), |s.newReqs|, i, id) ==> c == s.newReqs[i].1)
                  && (id !in Ids(s.newReqs) ==> c == 0))
  {
    var base, cached := Assign(map[], s.newReqs), Zip(s.cachedIds, s.cachedComputed);
    ZipIs(s.cachedIds, s.cachedComputed);
    AssignIs(map[], s.newReqs, id);
    AssignIs(base, cached, id);
    var n := Min(|s.cachedIds|, |s.cachedComputed|);
    assert Ids(cached) == s.cachedIds[..n];
    forall i: nat | LastOf(s.cachedIds, n, i, id)
      ensures LastOf(Ids(cached), |cached|, i, id)
    {
    }
  }

  function Min(a: nat, b: nat): nat {
    if a < b then a else b
  }

  lemma {:induction false} ZipIs(ids: seq<Id>, ns: seq<nat>)
    ensures |Zip(ids, ns)| == Min(|ids|, |ns|)
    ensures forall i :: 0 <= i < |Zip(ids, ns)| ==> Zip(ids, ns)[i] == (ids[i], ns[i])
  {
    if ids != [] && ns != [] { ZipIs(ids[1..], ns[1..]); }
  }

  lemma {:induction false} AssignIs(m: map<Id, nat>, ps: seq<(Id, nat)>, id: Id)
    ensures id !in Ids(ps) ==> (id in Assign(m, ps) <==> id in m) && (id in m ==> Assign(m, ps)[id] == m[id])
    ensures forall i: nat :: LastOf(Ids(ps), |ps|, i, id) ==> id in Assign(m, ps) && Assign(m, ps)[id] == ps[i].1
  {
    if ps != [] {
      AssignIs(m, Init(ps), id);
      assert Ids(ps) == Ids(Init(ps)) + [Last(ps).0];
      forall i: nat | LastOf(Ids(ps), |ps|, i, id)
        ensures id in Assign(m, ps) && Assign(m, ps)[id] == ps[i].1
      {
        if i < |ps| - 1 {
          assert Ids(ps)[|ps| - 1] == Last(ps).0 != id;
          assert LastOf(Ids(Init(ps)), |ps| - 1, i, id);
          assert Init(ps)[i] == ps[i];
        }
      }
    }
  }

  datatype Phase = Context | Generation

  function PhaseOf(s: Schedule, id: Id): Phase {
    if id in s.contextPhase || exists i :: 0 <= i < |s.newReqs| && s.newReqs[i].0 == id then Context else Generation
  }

  /** What one request adds to its phase. */
  function Share(c: map<Id, nat>, item: (Id, nat)): Sums {
    var seqLen := ComputedOf(c, item.0) + item.1;
    Sums(seqLen, item.1 * item.1, item.1 * seqLen)
  }

  function Shares(s: Schedule, c: map<Id, nat>, items: seq<(Id, nat)>): (r: seq<(Phase, Sums)>)
    ensures |r| == |items|
    ensures forall i :: 0 <= i < |r| ==> r[i] == (PhaseOf(s, items[i].0), Share(c, items[i]))
  {
    seq(|items|, i requires 0 <= i < |items| => (PhaseOf(s, items[i].0), Share(c, items[i])))
  }

  function Total(phase: Phase, xs: seq<(Phase, Sums)>): Sums {
    if xs == [] then Zero()
    else if Last(xs).0 == phase then Total(phase, Init(xs)).Add(Last(xs).1)
    else Total(phase, Init(xs))
  }

  /** Tokens scheduled now, over all requests. */
  function Tokens(items: seq<(Id, nat)>): nat {
    if items == [] then 0 else Tokens(Init(items)) + Last(items).1
  }

  /** The accumulation loop: one pass, two sets of counters and a grand total. */
  method Annotate(s: Schedule) returns (ctx: Sums, gen: Sums, total: int)
    ensures ctx == Total(Context, Shares(s, Computed(s), s.items))
    ensures gen == Total(Generation, Shares(s, Computed(s), s.items))
    ensures total == Tokens(s.items)
  {
    var c := Computed(s);
    ghost var shares := Shares(s, c, s.items);
    ctx, gen, total := Zero(), Zero(), 0;
    var i := 0;
    while i < |s.items|
      invariant 0 <= i <= |s.items|
      invariant ctx == Total(Context, shares[..i])
      invariant gen == Total(Generation, shares[..i])
      invariant total == Tokens(s.items[..i])
    {
      PrefixStep(shares, i);
      PrefixStep(s.items, i);
      var share := Share(c, s.items[i]);
      total := total + s.items[i].1;
      if PhaseOf(s, s.items[i].0) == Context {
        ctx := ctx.Add(share);
      } else {
        gen := gen.Add(share);
      }
      i := i + 1;
    }
    assert shares[..i] == shares && s.items[..i] == s.items;
  }

  function Whole(xs: seq<(Phase, Sums)>): Sums {
    if xs == [] then Zero() else Whole(Init(xs)).Add(Last(xs).1)
  }

  /** Each request counts in exactly one phase: the two phases add up to the whole, field by field. */
  lemma {:induction false} PhasesPartition(xs: seq<(Phase, Sums)>)
    ensures var c, g, w := Total(Context, xs), Total(Generation, xs), Whole(xs);
            && c.seqLen + g.seqLen == w.seqLen
            && c.qq + g.qq == w.qq
            && c.qk + g.qk == w.qk
  {
    if xs != [] { PhasesPartition(Init(xs)); }
  }

  function PastOf(c: map<Id, nat>, item: (Id, nat)): nat {
    item.1 * ComputedOf(c, item.0)
  }

  /** Query tokens times tokens computed before, over one phase. */
  function Past(s: Schedule, c: map<Id, nat>, phase: Phase, items: seq<(Id, nat)>): nat {
    if items == [] then 0
    else
      Past(s, c, phase, Init(items)) + if PhaseOf(s, Last(items).0) == phase then PastOf(c, Last(items)) else 0
  }

  lemma {:induction false} ShareWork(c: map<Id, nat>, item: (Id, nat))
    ensures Share(c, item).qk == Share(c, item).qq + PastOf(c, item)
  {
    var q, p := item.1, ComputedOf(c, item.0);
    assert q * (p + q) == q * p + q * q;
  }

  /** In every phase qk exceeds qq by exactly the work against tokens already computed. */
  lemma {:induction false} WorkAgainstThePast(s: Schedule, c: map<Id, nat>, phase: Phase, items: seq<(Id, nat)>)
    ensures Total(phase, Shares(s, c, items)).qk == Total(phase, Shares(s, c, items)).qq + Past(s, c, phase, items)
  {
    if items != [] {
      var xs := Shares(s, c, items);
      assert Init(xs) == Shares(s, c, Init(items));
      WorkAgainstThePast(s, c, phase, Init(items));
      ShareWork(c, Last(items));
    }
  }

  /** Taking one out of a list of shares lowers the counters of its phase by it, and no others. */
  lemma {:induction false} TotalWithout(phase: Phase, p: seq<(Phase, Sums)>, x: (Phase, Sums), q: seq<(Phase, Sums)>)
    ensures Total(phase, p + [x] + q) ==
            if x.0 == phase then Total(phase, p + q).Add(x.1) else Total(phase, p + q)
  {
    var all := p + [x] + q;
    if q == [] {
      assert Init(all) == p && Last(all) == x && p + q == p;
    } else {
      TotalWithout(phase, p, x, Init(q));
      assert Init(all) == p + [x] + Init(q) && Last(all) == Last(q);
      assert Init(p + q) == p + Init(q) && Last(p + q) == Last(q);
    }
  }

  /** The totals do not depend on the order the requests come in. */
  lemma {:induction false} OrderIrrelevant(phase: Phase, a: seq<(Phase, Sums)>, b: seq<(Phase, Sums)>)
    requires multiset(a) == multiset(b)
    ensures Total(phase, a) == Total(phase, b)
    decreases |a|
  {
    if a == [] {
      assert |multiset(b)| == 0;
    } else {
      var i := TakeOut(a, b);
      var p, q := b[..i], b[i + 1..];
      assert b == p + [Last(a)] + q;
      OrderIrrelevant(phase, Init(a), p + q);
      TotalWithout(phase, p, Last(a), q);
    }
  }

  /** Each scheduled request counts in exactly one phase: taking one out lowers its own phase's
      counters by its share, and leaves the other phase's alone. */
  lemma {:induction false} EveryRequestCounted(s: Schedule, c: map<Id, nat>, items: seq<(Id, nat)>, i: nat,
                                               phase: Phase)
    requires i < |items|
    ensures var rest, all := Total(phase, Shares(s, c, items[..i] + items[i + 1..])), Total(phase, Shares(s, c, items));
            var (id, q) := items[i];
            var ctx := id in s.contextPhase || exists j :: 0 <= j < |s.newReqs| && s.newReqs[j].0 == id;
            if (phase == Context) != ctx then all == rest
            else
              && all.seqLen == rest.seqLen + ComputedOf(c, id) + q
              && all.qq == rest.qq + q * q
              && all.qk == rest.qk + q * (ComputedOf(c, id) + q)
  {
    var p, q := Shares(s, c, items[..i]), Shares(s, c, items[i + 1..]);
    var x := (PhaseOf(s, items[i].0), Share(c, items[i]));
    assert Shares(s, c, items) == p + [x] + q;
    SharesConcat(s, c, items[..i], items[i + 1..]);
    TotalWithout(phase, p, x, q);
  }

  lemma {:induction false} SharesConcat(s: Schedule, c: map<Id, nat>, a: seq<(Id, nat)>, b: seq<(Id, nat)>)
    ensures Shares(s, c, a + b) == Shares(s, c, a) + Shares(s, c, b)
  {
  }

  lemma {:induction false} SharesBag(s: Schedule, c: map<Id, nat>, a: seq<(Id, nat)>, b: seq<(Id, nat)>)
    requires multiset(a) == multiset(b)
    ensures multiset(Shares(s, c, a)) == multiset(Shares(s, c, b))
    decreases |a|
  {
    if a == [] {
      assert |multiset(b)| == 0;
    } else {
      var i := TakeOut(a, b);
      var p, x, q := b[..i], b[i], b[i + 1..];
      assert a == Init(a) + [x] && b == p + ([x] + q);
      SharesBag(s, c, Init(a), p + q);
      SharesConcat(s, c, Init(a), [x]);
      SharesConcat(s, c, p, [x] + q);
      SharesConcat(s, c, [x], q);
      SharesConcat(s, c, p, q);
    }
  }

  lemma {:induction false} TokensWithout(p: seq<(Id, nat)>, x: (Id, nat), q: seq<(Id, nat)>)
    ensures Tokens(p + [x] + q) == Tokens(p + q) + x.1
  {
    var all := p + [x] + q;
    if q == [] {
      assert Init(all) == p && Last(all) == x && p + q == p;
    } else {
      TokensWithout(p, x, Init(q));
      assert Init(all) == p + [x] + Init(q) && Last(all) == Last(q);
      assert Init(p + q) == p + Init(q) && Last(p + q) == Last(q);
    }
  }

  lemma {:induction false} TokensBag(a: seq<(Id, nat)>, b: seq<(Id, nat)>)
    requires multiset(a) == multiset(b)
    ensures Tokens(a) == Tokens(b)
    decreases |a|
  {
    if a == [] {
      assert |multiset(b)| == 0;
    } else {
      var i := TakeOut(a, b);
      assert b == b[..i] + [Last(a)] + b[i + 1..];
      TokensBag(Init(a), b[..i] + b[i + 1..]);
      TokensWithout(b[..i], Last(a), b[i + 1..]);
    }
  }

  /** The counters do not depend on the order the dictionary of scheduled tokens is walked in. */
  lemma {:induction false} IterationOrderIrrelevant(s: Schedule, items: seq<(Id, nat)>, phase: Phase)
    requires multiset(items) == multiset(s.items)
    ensures Total(phase, Shares(s, Computed(s), items)) == Total(phase, Shares(s, Computed(s), s.items))
    ensures Tokens(items) == Tokens(s.items)
  {
    TokensBag(items, s.items);
    SharesBag(s, Computed(s), items, s.items);
    OrderIrrelevant(phase, Shares(s, Computed(s), items), Shares(s, Computed(s), s.items));
  }
}
