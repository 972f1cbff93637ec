/** What a restart makes of the file, and when the allocator it builds is alias-free. */
module KvRestart {
  import opened Common
  import opened KvIndex
  import opened KvManager
  import opened KvRestore
  import opened KvMachine
  import opened KvSafety

  // ---------------------------------------------------------------- rebuilding from a capture

  /** Every captured slot was below the captured bump counter. */
  ghost predicate InRange(c: Capture) {
    && (forall p :: p in c.entries ==> p.1 < c.numAllocated)
    && (forall x :: x in c.free ==> x in SlotsOf(c.entries) || x < c.numAllocated)
  }

  lemma {:induction false} PairBag(es: seq<(Key, int)>, s: int)
    requires DistinctPairSlots(es)
    ensures SlotBag(AsEntries(es))[s] == if s in SlotsOf(es) then 1 else 0
  {
    if es != [] {
      assert Init(AsEntries(es)) == AsEntries(Init(es));
      PairBag(Init(es), s);
      assert es == Init(es) + [Last(es)];
      assert s in SlotsOf(es) <==> s in SlotsOf(Init(es)) || s == Last(es).1 by {
        assert forall p :: p in es <==> p in Init(es) || p == Last(es);
      }
      assert forall p :: p in Init(es) ==> p.1 != Last(es).1;
    }
  }

  lemma {:induction false} DistinctBag(xs: seq<int>, x: int)
    requires Distinct(xs)
    ensures multiset(xs)[x] == if x in xs then 1 else 0
  {
    if xs != [] {
      assert xs == Init(xs) + [Last(xs)];
      DistinctBag(Init(xs), x);
      assert Last(xs) !in Init(xs);
    }
  }

  lemma {:induction false} FilterBag(xs: seq<int>, drop: set<int>, x: int)
    requires Distinct(xs)
    ensures multiset(Filter(xs, drop))[x] == if x in xs && x !in drop then 1 else 0
  {
    DistinctBag(xs, x);
    assert x in Filter(xs, drop) <==> x in multiset(Filter(xs, drop));
  }

  /** Where each slot ends up after a rebuild, counted. */
  lemma {:induction false} RebuiltPool(c: Capture, s: int)
    requires CapOk(c)
    ensures Pool(Rebuilt(c), [])[s] ==
            (if s in SlotsOf(c.entries) then 1 else if s in c.free then 1 else 0)
            + (if c.numAllocated <= s < c.numBlocks then 1 else 0)
  {
    PairBag(c.entries, s);
    FilterBag(c.free, SlotsOf(c.entries), s);
    UnusedRange(c.numAllocated, c.numBlocks);
  }

  /** The allocator rebuilt from a capture is alias-free exactly when the capture is in range: the
      filter against live slots absorbs every other race between the reads. */
  lemma {:induction false} RebuiltAliasFreeIff(c: Capture)
    requires CapOk(c)
    ensures AliasFree(Rebuilt(c), []) <==> InRange(c)
  {
    var m := Rebuilt(c);
    if InRange(c) {
      forall s | s in Pool(m, [])
        ensures Pool(m, [])[s] == 1 && 0 <= s < m.numBlocks
      {
        RebuiltPool(c, s);
      }
    } else {
      var s := OutOfRange(c);
      RebuiltPool(c, s);
      assert s in Pool(m, []);
    }
  }

  lemma {:induction false} OutOfRange(c: Capture) returns (s: int)
    requires CapOk(c) && !InRange(c)
    ensures s in SlotsOf(c.entries) || s in c.free
    ensures c.numAllocated <= s < c.numBlocks
  {
    if p :| p in c.entries && p.1 >= c.numAllocated {
      s := p.1;
    } else {
      s :| s in c.free && s !in SlotsOf(c.entries) && s >= c.numAllocated;
    }
  }

  lemma {:induction false} RebuiltRest(c: Capture)
    requires CapOk(c)
    ensures Counted(Rebuilt(c)) && DistinctKeys(Rebuilt(c).blocks)
    ensures forall e :: e in Rebuilt(c).blocks ==> e.ref == 0
  {
    AsEntriesReady(c.entries);
  }

  lemma {:induction false} RebuiltOkIff(c: Capture)
    requires CapOk(c)
    ensures MgrOk(Rebuilt(c), []) <==> InRange(c)
  {
    RebuiltRest(c);
    RebuiltAliasFreeIff(c);
  }

  // ---------------------------------------------------------------- restarts

  /** The file on disk is one this configuration accepts. */
  ghost predicate Warm(w: World, cfg: Config) {
    && w.durable.Some?
    && w.durable.value.cap.fingerprint == cfg.fingerprint
    && w.durable.value.cap.numBlocks == cfg.numBlocks
  }

  /** The named path is absent or holds one capture with distinct keys. */
  ghost predicate FileWhole(w: World) {
    match w.durable
    case None => w.file == Missing
    case Some(sn) => w.file == Json(PayloadOf(sn.cap)) && DistinctPairKeys(sn.cap.entries)
  }

  /** A restart from such a file never raises: it is cold with nothing touched, or it is the rebuild
      of the one complete capture the file holds. */
  lemma {:induction false} RestartOutcome(w: World, cfg: Config)
    requires FileWhole(w)
    ensures Restore(cfg, Fresh(cfg.numBlocks), w.file) ==
            if Warm(w, cfg) then (Returned(|w.durable.value.cap.entries|), Rebuilt(w.durable.value.cap))
            else (Returned(0), Fresh(cfg.numBlocks))
  {
    if w.durable.Some? { RestoreOfSaved(cfg, w.durable.value.cap); }
  }

  lemma {:induction false} RestoredPairs(es: seq<(Key, int)>)
    requires DistinctPairKeys(es)
    ensures PairsOk(es, AsEntries(es)) && DistinctKeys(AsEntries(es))
    ensures forall e :: e in AsEntries(es) ==> e.Ready() && Has(AsEntries(es), e.key)
  {
    var b := AsEntries(es);
    forall p | p in es
      ensures exists e :: e in b && p == (e.key, e.slot)
    {
      var i :| 0 <= i < |es| && es[i] == p;
      assert b[i] in b;
    }
    forall e | e in b
      ensures (e.key, e.slot) in es && Has(b, e.key)
    {
      var i :| 0 <= i < |b| && b[i] == e;
      assert es[i] in es;
    }
  }
}
