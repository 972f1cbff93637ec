/** What a restart preserves and what it costs, when a save reads one manager state. */
module KvContinuity {
  import opened Common
  import opened KvIndex
  import opened KvManager
  import opened KvRestore
  import opened KvRestart

  /** What a save reads when no manager step falls between its reads. */
  function SavedNow(fingerprint: string, m: Mgr): Capture {
    Capture(fingerprint, m.numBlocks, m.numAllocated, m.free, ReadyPairs(m.blocks))
  }

  /** The index without stores in flight, all loads finished. */
  function Settle(b: seq<Entry>): seq<Entry> {
    if b == [] then []
    else Settle(Init(b)) + if Last(b).Ready() then [Last(b).(ref := 0)] else []
  }

  function Settled(m: Mgr): Mgr {
    m.(blocks := Settle(m.blocks), evictable := |Settle(m.blocks)|, pending := 0)
  }

  lemma {:induction false} SettleIsRebuild(b: seq<Entry>)
    ensures AsEntries(ReadyPairs(b)) == Settle(b)
  {
    if b != [] {
      SettleIsRebuild(Init(b));
      var p := ReadyPairs(Init(b));
      if Last(b).Ready() {
        assert AsEntries(p + [(Last(b).key, Last(b).slot)]) == AsEntries(p) + [Entry(Last(b).key, Last(b).slot, 0)];
      }
    }
  }

  lemma {:induction false} FilterNothing(xs: seq<int>, drop: set<int>)
    requires forall x :: x in xs ==> x !in drop
    ensures Filter(xs, drop) == xs
  {
    if xs != [] {
      var front, x := Init(xs), Last(xs);
      assert xs == front + [x];
      FilterNothing(front, drop);
      assert x !in drop;
      assert Filter(xs, drop) == Filter(front, drop) + [x];
    }
  }

  lemma {:induction false} ReadyPairsDistinct(b: seq<Entry>)
    requires DistinctKeys(b)
    ensures DistinctPairKeys(ReadyPairs(b))
  {
    if b != [] {
      ReadyPairsDistinct(Init(b));
      var r := ReadyPairs(Init(b));
      forall i | 0 <= i < |r|
        ensures r[i].0 != Last(b).key
      {
        ReadyPairsMember(Init(b), r[i]);
        assert r[i] in r;
      }
    }
  }

  /** Save, encode, decode and restore, for every manager state: the restarted manager is the old one
      with its stores in flight dropped and its loads released - same order of keys, same slots, same
      free list in the same order, same bump counter, exact counters. */
  lemma {:induction false} RestartSettles(cfg: Config, m: Mgr, held: seq<int>)
    requires MgrOk(m, held) && m.numBlocks == cfg.numBlocks
    ensures Restore(cfg, Fresh(cfg.numBlocks), Json(PayloadOf(SavedNow(cfg.fingerprint, m)))) ==
            (Returned(|Settle(m.blocks)|), Settled(m))
  {
    var es := ReadyPairs(m.blocks);
    ReadyPairsDistinct(m.blocks);
    RestoreOfSaved(cfg, SavedNow(cfg.fingerprint, m));
    SettleIsRebuild(m.blocks);
    forall x | x in m.free
      ensures x !in SlotsOf(es)
    {
      forall p | p in es
        ensures p.1 != x
      {
        ReadyPairsMember(m.blocks, p);
        var i :| 0 <= i < |m.blocks| && m.blocks[i].Ready() && p == (m.blocks[i].key, m.blocks[i].slot);
        LiveSlotsOwned(m, held, i);
      }
    }
    FilterNothing(m.free, SlotsOf(es));
  }

  ghost predicate Quiet(b: seq<Entry>) {
    forall i :: 0 <= i < |b| ==> b[i].ref == 0
  }

  lemma {:induction false} QuietSplit(b: seq<Entry>)
    requires b != []
    ensures Quiet(b) <==> Quiet(Init(b)) && Last(b).ref == 0
  {
    assert forall i :: 0 <= i < |b| - 1 ==> Init(b)[i] == b[i];
  }

  lemma {:induction false} SettleShort(b: seq<Entry>)
    ensures |Settle(b)| <= |b|
  {
    if b != [] { SettleShort(Init(b)); }
  }

  lemma {:induction false} SettleLast(b: seq<Entry>)
    requires b != []
    ensures Settle(b) == Settle(Init(b)) + if Last(b).Ready() then [Last(b).(ref := 0)] else []
    ensures b == Init(b) + [Last(b)]
  {
  }

  lemma {:induction false} SettleSame(b: seq<Entry>)
    ensures Settle(b) == b <==> Quiet(b)
  {
    if b != [] {
      var s, x, y := Settle(Init(b)), Last(b).(ref := 0), Last(b);
      SettleSame(Init(b));
      SettleShort(Init(b));
      QuietSplit(b);
      SettleLast(b);
      AppendSame(s, x, Init(b), y);
      assert x == y <==> y.ref == 0;
    }
  }

  lemma {:induction false} AppendSame(a: seq<Entry>, x: Entry, b: seq<Entry>, y: Entry)
    ensures a + [x] == b + [y] <==> a == b && x == y
  {
    if a + [x] == b + [y] {
      assert Init(a + [x]) == a && Init(b + [y]) == b;
      assert Last(a + [x]) == x && Last(b + [y]) == y;
    }
  }

  lemma {:induction false} QuietCounts(b: seq<Entry>)
    requires Quiet(b)
    ensures CountRef(b, 0) == |b| && CountRef(b, -1) == 0
  {
    if b != [] {
      QuietSplit(b);
      QuietCounts(Init(b));
    }
  }

  /** The restart is exact precisely when nothing was being stored or loaded. */
  lemma {:induction false} RestartExactIff(cfg: Config, m: Mgr, held: seq<int>)
    requires MgrOk(m, held) && m.numBlocks == cfg.numBlocks
    ensures Restore(cfg, Fresh(cfg.numBlocks), Json(PayloadOf(SavedNow(cfg.fingerprint, m)))).1 == m <==>
            m.pending == 0 && forall e :: e in m.blocks ==> e.ref <= 0
  {
    RestartSettles(cfg, m, held);
    SettleSame(m.blocks);
    var quiet := Quiet(m.blocks);
    if quiet { QuietCounts(m.blocks); }
    if m.pending == 0 {
      NonePending(m.blocks);
      assert (forall e :: e in m.blocks ==> e.ref <= 0) <==> quiet;
    } else {
      assert !quiet;
    }
  }

  lemma {:induction false} NonePending(b: seq<Entry>)
    requires forall e :: e in b ==> e.ref >= -1
    ensures CountRef(b, -1) == 0 <==> forall i :: 0 <= i < |b| ==> b[i].ref >= 0
  {
    if b != [] {
      assert Last(b) in b;
      assert forall e :: e in Init(b) ==> e in b;
      NonePending(Init(b));
      assert forall i :: 0 <= i < |b| - 1 ==> Init(b)[i] == b[i];
    }
  }

  // ---------------------------------------------------------------- requests

  /** What the scheduler asks of the tier; `Fail` ends a store that did not complete. */
  datatype Request =
    | Lookup(key: Key) | Store(key: Key) | Finish(key: Key) | Fail(key: Key)
    | Load(key: Key) | Unload(key: Key) | Touched(key: Key)

  datatype Reply = Hit(slot: int) | Miss | Stored(slot: int, victim: Option<Key>) | Refused | Known | Ok

  /** The least recently used item that no load holds. */
  function Victim(b: seq<Entry>): (r: Option<nat>)
    ensures r.Some? ==> r.value < |b| && b[r.value].ref == 0 && forall i :: 0 <= i < r.value ==> b[i].ref != 0
    ensures r.None? ==> forall i :: 0 <= i < |b| ==> b[i].ref != 0
  {
    if b == [] then None
    else
      match Victim(Init(b))
      case Some(i) => Some(i)
      case None => if Last(b).ref == 0 then Some(|b| - 1) else None
  }

  /** A slot for a new store: fresh, then free, then evicted. */
  function Allocate(m: Mgr): (r: Option<(Mgr, int)>)
    ensures r.Some? ==> r.value.0.blocks == m.blocks
  {
    if Enabled(m, [], Bump) then Some((NextM(m, [], Bump), NextHeld(m, [], Bump)[0]))
    else if Enabled(m, [], Reuse) then Some((NextM(m, [], Reuse), NextHeld(m, [], Reuse)[0]))
    else None
  }

  /** The manager step of a request about one item. */
  function ItemStep(r: Request, i: nat): MAct
    requires r.Finish? || r.Load? || r.Unload? || r.Touched?
  {
    match r
    case Finish(_) => Complete(i)
    case Load(_) => Pin(i)
    case Unload(_) => Unpin(i)
    case Touched(_) => Touch(i)
  }

  function Serve(m: Mgr, r: Request): (Mgr, Reply) {
    var i := Find(m.blocks, r.key);
    match r
    case Lookup(_) => (m, if i >= 0 && m.blocks[i].Ready() then Hit(m.blocks[i].slot) else Miss)
    case Store(k) => if i >= 0 then (m, Known) else StoreNew(m, k)
    case Fail(_) =>
      if i >= 0 && Enabled(m, [], Abort(i))
      then (NextM(NextM(m, [], Abort(i)), NextHeld(m, [], Abort(i)), Release(0)), Ok) else (m, Ok)
    case _ =>
      if i >= 0 && Enabled(m, [], ItemStep(r, i)) then (NextM(m, [], ItemStep(r, i)), Ok) else (m, Ok)
  }

  function StoreNew(m: Mgr, k: Key): (Mgr, Reply)
    requires !Has(m.blocks, k)
  {
    match (Allocate(m), Victim(m.blocks))
    case (Some((m1, s)), _) => (NextM(m1, [s], Insert(k, 0)), Stored(s, None))
    case (None, None) => (m, Refused)
    case (None, Some(v)) =>
      var s := m.blocks[v].slot;
      var m1 := NextM(m, [], Evict(v));
      assert Find(m1.blocks, k) < 0;
      (NextM(m1, [s], Insert(k, 0)), Stored(s, Some(m.blocks[v].key)))
  }

  /** A store's slot is fresh, free or the victim's: no other live key has it. */
  lemma {:induction false} StoreKeeps(m: Mgr, k: Key)
    requires MgrOk(m, []) && !Has(m.blocks, k)
    ensures MgrOk(StoreNew(m, k).0, [])
    ensures StoreNew(m, k).1.Stored? ==>
              forall i :: 0 <= i < |m.blocks| && m.blocks[i].slot == StoreNew(m, k).1.slot ==>
                StoreNew(m, k).1.victim == Some(m.blocks[i].key)
  {
    forall i | 0 <= i < |m.blocks|
      ensures m.blocks[i].slot < m.numAllocated && m.blocks[i].slot !in m.free
    {
      LiveSlotsOwned(m, [], i);
    }
    var a := if Enabled(m, [], Bump) then Bump else Reuse;
    if Enabled(m, [], a) {
      AllocatedThenInserted(m, k, a);
    } else if Victim(m.blocks).Some? {
      var v := Victim(m.blocks).value;
      AllocatedThenInserted(m, k, Evict(v));
      LiveSlotsOwned(m, [], v);
    }
  }

  lemma {:induction false} AllocatedThenInserted(m: Mgr, k: Key, a: MAct)
    requires MgrOk(m, []) && !Has(m.blocks, k) && Enabled(m, [], a) && (a.Bump? || a.Reuse? || a.Evict?)
    ensures |NextHeld(m, [], a)| == 1 && !Has(NextM(m, [], a).blocks, k)
    ensures MgrOk(NextM(NextM(m, [], a), NextHeld(m, [], a), Insert(k, 0)), [])
  {
    MgrOkKept(m, [], a);
    var m1, h := NextM(m, [], a), NextHeld(m, [], a);
    assert forall i :: 0 <= i < |m1.blocks| ==> m1.blocks[i] in m.blocks;
    MgrOkKept(m1, h, Insert(k, 0));
    assert NextHeld(m1, h, Insert(k, 0)) == [];
  }

  lemma {:induction false} FailKeeps(m: Mgr, i: nat)
    requires MgrOk(m, []) && Enabled(m, [], Abort(i))
    ensures MgrOk(NextM(NextM(m, [], Abort(i)), NextHeld(m, [], Abort(i)), Release(0)), [])
  {
    MgrOkKept(m, [], Abort(i));
    var m1, h := NextM(m, [], Abort(i)), NextHeld(m, [], Abort(i));
    MgrOkKept(m1, h, Release(0));
    assert NextHeld(m1, h, Release(0)) == [];
  }

  lemma {:induction false} ItemKeeps(m: Mgr, r: Request, i: nat)
    requires r.Finish? || r.Load? || r.Unload? || r.Touched?
    requires MgrOk(m, []) && Enabled(m, [], ItemStep(r, i))
    ensures MgrOk(NextM(m, [], ItemStep(r, i)), [])
  {
    MgrOkKept(m, [], ItemStep(r, i));
  }

  lemma {:induction false} ServesStore(m: Mgr, k: Key)
    ensures Serve(m, Store(k)).0 == if Find(m.blocks, k) >= 0 then m else StoreNew(m, k).0
  {
  }

  lemma {:induction false} ServesFail(m: Mgr, k: Key)
    ensures var i := Find(m.blocks, k);
            Serve(m, Fail(k)).0 ==
            if i >= 0 && Enabled(m, [], Abort(i))
            then NextM(NextM(m, [], Abort(i)), NextHeld(m, [], Abort(i)), Release(0)) else m
  {
  }

  lemma {:induction false} ServesItem(m: Mgr, r: Request)
    requires r.Finish? || r.Load? || r.Unload? || r.Touched?
    ensures var i := Find(m.blocks, r.key);
            Serve(m, r).0 == if i >= 0 && Enabled(m, [], ItemStep(r, i)) then NextM(m, [], ItemStep(r, i)) else m
  {
  }

  /** Every request keeps the manager's invariant, with no slot left in between. */
  lemma {:induction false} ServeKeeps(m: Mgr, r: Request)
    requires MgrOk(m, [])
    ensures MgrOk(Serve(m, r).0, [])
  {
    var i := Find(m.blocks, r.key);
    match r
    case Lookup(_) =>
      assert Serve(m, r).0 == m;
    case Store(k) =>
      ServesStore(m, k);
      if i < 0 { StoreKeeps(m, k); }
    case Fail(k) =>
      ServesFail(m, k);
      if i >= 0 && Enabled(m, [], Abort(i)) { FailKeeps(m, i); }
    case _ =>
      ServesItem(m, r);
      if i >= 0 && Enabled(m, [], ItemStep(r, i)) { ItemKeeps(m, r, i); }
  }

  /** The manager after a list of requests, and the replies to them. */
  function ServeAll(m: Mgr, rs: seq<Request>): Mgr {
    if rs == [] then m else Serve(ServeAll(m, Init(rs)), Last(rs)).0
  }

  function Replies(m: Mgr, rs: seq<Request>): (r: seq<Reply>)
    ensures |r| == |rs|
  {
    if rs == [] then [] else Replies(m, Init(rs)) + [Serve(ServeAll(m, Init(rs)), Last(rs)).1]
  }

  /** A restart from a quiet state cannot be told from no restart by any later sequence of requests: same hits,
      same slots, same victims. */
  lemma {:induction false} RestartIsInvisible(cfg: Config, m: Mgr, rs: seq<Request>)
    requires MgrOk(m, []) && m.numBlocks == cfg.numBlocks
    requires m.pending == 0 && forall e :: e in m.blocks ==> e.ref <= 0
    ensures Replies(Restore(cfg, Fresh(cfg.numBlocks), Json(PayloadOf(SavedNow(cfg.fingerprint, m)))).1, rs)
         == Replies(m, rs)
  {
    RestartExactIff(cfg, m, []);
  }

  // ---------------------------------------------------------------- what a restart costs

  lemma {:induction false} SettleSize(b: seq<Entry>)
    requires forall e :: e in b ==> e.ref >= -1
    ensures |Settle(b)| == |b| - CountRef(b, -1)
  {
    if b != [] {
      assert Last(b) in b;
      assert forall e :: e in Init(b) ==> e in b;
      SettleSize(Init(b));
    }
  }

  lemma {:induction false} PoolSize(m: Mgr, held: seq<int>)
    requires m.numAllocated <= m.numBlocks
    ensures |Pool(m, held)| == |m.blocks| + |m.free| + |held| + (m.numBlocks - m.numAllocated)
  {
    BagSize(m.blocks);
    UnusedRange(m.numAllocated, m.numBlocks);
  }

  /** One restart costs exactly the slots in flight at the save it restores. */
  lemma {:induction false} RestartCost(cfg: Config, m: Mgr, held: seq<int>)
    requires MgrOk(m, held) && m.numBlocks == cfg.numBlocks
    ensures MgrOk(Settled(m), [])
    ensures |Pool(Settled(m), [])| == |Pool(m, held)| - m.pending - |held|
  {
    RestartSettles(cfg, m, held);
    SettleSize(m.blocks);
    PoolSize(m, held);
    PoolSize(Settled(m), []);
    SettledOk(m, held);
  }

  lemma {:induction false} SettledAliasFree(m: Mgr, held: seq<int>)
    requires AliasFree(m, held)
    ensures AliasFree(Settled(m), [])
  {
    forall s | s in Pool(Settled(m), [])
      ensures Pool(Settled(m), [])[s] == 1 && 0 <= s < m.numBlocks
    {
      SettleBag(m.blocks, s);
      assert Pool(Settled(m), [])[s] <= Pool(m, held)[s];
      assert s in Pool(m, held);
    }
  }

  lemma {:induction false} SettledOk(m: Mgr, held: seq<int>)
    requires MgrOk(m, held)
    ensures MgrOk(Settled(m), [])
  {
    SettleIsRebuild(m.blocks);
    AsEntriesReady(ReadyPairs(m.blocks));
    ReadyPairsDistinct(m.blocks);
    SettledAliasFree(m, held);
    assert forall e :: e in Settle(m.blocks) ==> e.ref == 0;
  }

  lemma {:induction false} SettleBag(b: seq<Entry>, s: int)
    ensures SlotBag(Settle(b))[s] <= SlotBag(b)[s]
  {
    if b != [] {
      SettleBag(Init(b), s);
      AppendBag(Settle(Init(b)), Last(b).(ref := 0));
      assert SlotBag(b) == SlotBag(Init(b)) + multiset{Last(b).slot};
      if !Last(b).Ready() { assert Settle(b) == Settle(Init(b)); }
    }
  }
}
