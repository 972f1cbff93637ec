/** The offloading manager's allocator and bookkeeping, as the persistent tier touches it.
    The manager itself is a vLLM class that is not in this repository; README.md lists what is
    assumed of it. Every step below is one atomic step of the single scheduler thread. */
module KvManager {
  import opened Common
  import opened KvIndex

  datatype Mgr = Mgr(
    numBlocks: nat,
    blocks: seq<Entry>,
    free: seq<int>,
    numAllocated: int,
    evictable: int,
    pending: int)

  function Fresh(numBlocks: nat): Mgr {
    Mgr(numBlocks, [], [], 0, 0, 0)
  }

  /** Steps. `i` is a position in the index, `j` a position among the held slots, that is the slot
      ids that only local variables of the scheduler thread know at that moment. */
  datatype MAct =
    | Evict(i: nat)             // the LRU policy deletes an unpinned ready item; no mutation hook
    | Release(j: nat)           // a held slot is appended to the free list
    | Bump                      // a fresh slot comes from the bump counter
    | Reuse                     // a slot is popped from the free list
    | Insert(key: Key, j: nat)  // policy.insert of a not-ready block
    | Complete(i: nat)          // store finished
    | Abort(i: nat)             // store failed: policy.remove
    | Pin(i: nat)
    | Unpin(i: nat)
    | Touch(i: nat)             // move_to_end

  predicate Enabled(m: Mgr, held: seq<int>, a: MAct) {
    match a
    case Evict(i) => i < |m.blocks| && m.blocks[i].ref == 0
    case Release(j) => j < |held|
    case Bump => m.numAllocated < m.numBlocks
    case Reuse => m.numAllocated >= m.numBlocks && |m.free| > 0
    case Insert(k, j) => j < |held| && !Has(m.blocks, k)
    case Complete(i) => i < |m.blocks| && m.blocks[i].ref == -1
    case Abort(i) => i < |m.blocks| && m.blocks[i].ref == -1
    case Pin(i) => i < |m.blocks| && m.blocks[i].ref >= 0
    case Unpin(i) => i < |m.blocks| && m.blocks[i].ref > 0
    case Touch(i) => i < |m.blocks|
  }

  function SetRef(b: seq<Entry>, i: nat, ref: int): seq<Entry>
    requires i < |b|
  {
    b[i := b[i].(ref := ref)]
  }

  function Without(s: seq<int>, j: nat): seq<int>
    requires j < |s|
  {
    s[..j] + s[j + 1..]
  }

  function NextM(m: Mgr, held: seq<int>, a: MAct): Mgr
    requires Enabled(m, held, a)
  {
    match a
    case Evict(i) => m.(blocks := DropAt(m.blocks, i), evictable := m.evictable - 1)
    case Release(j) => m.(free := m.free + [held[j]])
    case Bump => m.(numAllocated := m.numAllocated + 1)
    case Reuse => m.(free := Init(m.free))
    case Insert(k, j) => m.(blocks := Put(m.blocks, Entry(k, held[j], -1)), pending := m.pending + 1)
    case Complete(i) => m.(blocks := SetRef(m.blocks, i, 0), pending := m.pending - 1, evictable := m.evictable + 1)
    case Abort(i) => m.(blocks := DropAt(m.blocks, i), pending := m.pending - 1)
    case Pin(i) =>
      m.(blocks := SetRef(m.blocks, i, m.blocks[i].ref + 1),
         evictable := m.evictable - if m.blocks[i].ref == 0 then 1 else 0)
    case Unpin(i) =>
      m.(blocks := SetRef(m.blocks, i, m.blocks[i].ref - 1),
         evictable := m.evictable + if m.blocks[i].ref == 1 then 1 else 0)
    case Touch(i) => m.(blocks := DropAt(m.blocks, i) + [m.blocks[i]])
  }

  function NextHeld(m: Mgr, held: seq<int>, a: MAct): seq<int>
    requires Enabled(m, held, a)
  {
    match a
    case Evict(i) => held + [m.blocks[i].slot]
    case Release(j) => Without(held, j)
    case Bump => held + [m.numAllocated]
    case Reuse => held + [Last(m.free)]
    case Insert(k, j) => Without(held, j)
    case Abort(i) => held + [m.blocks[i].slot]
    case _ => held
  }

  // ---------------------------------------------------------------- what each step does, position by position

  lemma {:induction false} RemovalKeepsOrder(m: Mgr, held: seq<int>, a: MAct)
    requires Enabled(m, held, a) && (a.Evict? || a.Abort?)
    ensures var b := NextM(m, held, a).blocks;
            && |b| == |m.blocks| - 1
            && (forall j :: 0 <= j < a.i ==> b[j] == m.blocks[j])
            && (forall j :: a.i <= j < |b| ==> b[j] == m.blocks[j + 1])
    ensures NextHeld(m, held, a) == held + [m.blocks[a.i].slot]
    ensures NextM(m, held, a).free == m.free && NextM(m, held, a).numAllocated == m.numAllocated
  {
    DropKeepsOrder(m.blocks, a.i);
  }

  lemma {:induction false} TouchKeepsOrder(m: Mgr, held: seq<int>, i: nat)
    requires i < |m.blocks|
    ensures var b := NextM(m, held, Touch(i)).blocks;
            && |b| == |m.blocks|
            && (forall j :: 0 <= j < i ==> b[j] == m.blocks[j])
            && (forall j :: i <= j < |b| - 1 ==> b[j] == m.blocks[j + 1])
            && b[|b| - 1] == m.blocks[i]
    ensures NextM(m, held, Touch(i)).free == m.free && NextHeld(m, held, Touch(i)) == held
  {
    DropKeepsOrder(m.blocks, i);
  }

  /** Insertion appends; completion, pin and unpin change one reference count and nothing else. */
  lemma {:induction false} OtherItemsStay(m: Mgr, held: seq<int>, a: MAct)
    requires Enabled(m, held, a) && !a.Evict? && !a.Abort? && !a.Touch?
    ensures var b := NextM(m, held, a).blocks;
            if a.Insert? then b == m.blocks + [Entry(a.key, held[a.j], -1)]
            else
              && |b| == |m.blocks|
              && forall j :: 0 <= j < |b| ==>
                   b[j] == if (a.Complete? || a.Pin? || a.Unpin?) && j == a.i
                           then m.blocks[j].(ref := m.blocks[j].ref + if a.Unpin? then -1 else 1)
                           else m.blocks[j]
  {
  }

  /** Free slots are taken from the end of the free list, and given back there. */
  lemma {:induction false} FreeListIsStack(m: Mgr, held: seq<int>, a: MAct)
    requires Enabled(m, held, a)
    ensures var z := NextM(m, held, a);
            if a.Release? then z.free == m.free + [held[a.j]]
            else if a.Reuse? then m.free == z.free + [NextHeld(m, held, a)[|held|]]
            else z.free == m.free
    ensures NextM(m, held, a).numAllocated == m.numAllocated + if a.Bump? then 1 else 0
    ensures a.Bump? ==> NextHeld(m, held, a) == held + [m.numAllocated]
    ensures a.Release? || a.Insert? ==> held == NextHeld(m, held, a)[..a.j] + [held[a.j]] + NextHeld(m, held, a)[a.j..]
  {
  }

  // ---------------------------------------------------------------- conservation of slots

  /** The slots the bump counter has not reached. */
  ghost function Unused(numAllocated: int, numBlocks: int): multiset<int>
    decreases numBlocks - numAllocated
  {
    if numAllocated >= numBlocks then multiset{}
    else multiset{numAllocated} + Unused(numAllocated + 1, numBlocks)
  }

  /** Every place a slot id can be: live items, free list, locals, unreached range. */
  ghost function Pool(m: Mgr, held: seq<int>): multiset<int> {
    SlotBag(m.blocks) + multiset(m.free) + multiset(held) + Unused(m.numAllocated, m.numBlocks)
  }

  lemma {:induction false} UnusedRange(numAllocated: int, numBlocks: int)
    ensures forall s :: Unused(numAllocated, numBlocks)[s] == if numAllocated <= s < numBlocks then 1 else 0
    ensures numAllocated <= numBlocks ==> |Unused(numAllocated, numBlocks)| == numBlocks - numAllocated
    decreases numBlocks - numAllocated
  {
    if numAllocated < numBlocks { UnusedRange(numAllocated + 1, numBlocks); }
  }

  lemma {:induction false} WithoutBag(s: seq<int>, j: nat)
    requires j < |s|
    ensures multiset(s) == multiset(Without(s, j)) + multiset{s[j]}
  {
    assert s == s[..j] + [s[j]] + s[j + 1..];
  }

  lemma {:induction false} BagRepeats(s: seq<int>, i: nat, j: nat)
    requires i < j < |s| && s[i] == s[j]
    ensures multiset(s)[s[i]] >= 2
  {
    WithoutBag(s, j);
    assert Without(s, j)[i] == s[i];
    assert s[i] in multiset(Without(s, j));
  }

  lemma {:induction false} SetRefBag(b: seq<Entry>, i: nat, ref: int)
    requires i < |b|
    ensures SlotBag(SetRef(b, i, ref)) == SlotBag(b)
  {
    BagSplit(b, i);
    BagSet(b, i, b[i].(ref := ref));
  }

  /** Where a step takes slot `x` from and puts it: +1 and -1 in two of the four places. */
  ghost function BlocksGain(m: Mgr, held: seq<int>, a: MAct, x: int): int
    requires Enabled(m, held, a)
  {
    match a
    case Insert(_, j) => if held[j] == x then 1 else 0
    case Evict(i) => if m.blocks[i].slot == x then -1 else 0
    case Abort(i) => if m.blocks[i].slot == x then -1 else 0
    case _ => 0
  }

  ghost function FreeGain(m: Mgr, held: seq<int>, a: MAct, x: int): int
    requires Enabled(m, held, a)
  {
    match a
    case Release(j) => if held[j] == x then 1 else 0
    case Reuse => if Last(m.free) == x then -1 else 0
    case _ => 0
  }

  ghost function UnusedGain(m: Mgr, a: MAct, x: int): int {
    if a.Bump? && m.numAllocated == x then -1 else 0
  }

  lemma {:induction false} BlocksMoves(m: Mgr, held: seq<int>, a: MAct, x: int)
    requires Enabled(m, held, a)
    ensures SlotBag(NextM(m, held, a).blocks)[x] == SlotBag(m.blocks)[x] + BlocksGain(m, held, a, x)
  {
    if a.Insert? {
      AppendBag(m.blocks, Entry(a.key, held[a.j], -1));
    } else if a.Evict? || a.Abort? {
      BagSplit(m.blocks, a.i);
    } else {
      BlocksKeep(m, held, a);
    }
  }

  lemma {:induction false} BlocksKeep(m: Mgr, held: seq<int>, a: MAct)
    requires Enabled(m, held, a) && !a.Insert? && !a.Evict? && !a.Abort?
    ensures SlotBag(NextM(m, held, a).blocks) == SlotBag(m.blocks)
  {
    var b := m.blocks;
    match a
    case Complete(i) => SetRefBag(b, i, 0);
    case Pin(i) => SetRefBag(b, i, b[i].ref + 1);
    case Unpin(i) => SetRefBag(b, i, b[i].ref - 1);
    case Touch(i) => TouchBag(b, i);
    case _ =>
  }

  lemma {:induction false} TouchBag(b: seq<Entry>, i: nat)
    requires i < |b|
    ensures SlotBag(DropAt(b, i) + [b[i]]) == SlotBag(b)
  {
    BagSplit(b, i);
    AppendBag(DropAt(b, i), b[i]);
  }

  lemma {:induction false} FreeListMoves(m: Mgr, held: seq<int>, a: MAct, x: int)
    requires Enabled(m, held, a)
    ensures multiset(NextM(m, held, a).free)[x] == multiset(m.free)[x] + FreeGain(m, held, a, x)
  {
    var free := NextM(m, held, a).free;
    if a.Release? {
      assert free == m.free + [held[a.j]];
    } else if a.Reuse? {
      assert m.free == free + [Last(m.free)];
    } else {
      assert free == m.free;
    }
  }

  lemma {:induction false} UnusedMoves(m: Mgr, held: seq<int>, a: MAct, x: int)
    requires Enabled(m, held, a)
    ensures Unused(NextM(m, held, a).numAllocated, m.numBlocks)[x] ==
            Unused(m.numAllocated, m.numBlocks)[x] + UnusedGain(m, a, x)
  {
    if a.Bump? {
      assert NextM(m, held, a).numAllocated == m.numAllocated + 1;
    } else {
      assert NextM(m, held, a).numAllocated == m.numAllocated;
    }
  }

  lemma {:induction false} HeldMoves(m: Mgr, held: seq<int>, a: MAct, x: int)
    requires Enabled(m, held, a)
    ensures multiset(NextHeld(m, held, a))[x] ==
            multiset(held)[x] - BlocksGain(m, held, a, x) - FreeGain(m, held, a, x) - UnusedGain(m, a, x)
  {
    if a.Release? || a.Insert? { WithoutBag(held, a.j); }
  }

  lemma {:induction false} PoolBalances(m: Mgr, held: seq<int>, m': Mgr, held': seq<int>, x: int)
    requires m'.numBlocks == m.numBlocks
    requires SlotBag(m'.blocks)[x] + multiset(m'.free)[x] + multiset(held')[x] + Unused(m'.numAllocated, m.numBlocks)[x]
          == SlotBag(m.blocks)[x] + multiset(m.free)[x] + multiset(held)[x] + Unused(m.numAllocated, m.numBlocks)[x]
    ensures Pool(m', held')[x] == Pool(m, held)[x]
  {
  }

  /** No step of the manager creates or destroys a slot: the pool is the same multiset before and after. */
  lemma {:induction false} PoolConserved(m: Mgr, held: seq<int>, a: MAct)
    requires Enabled(m, held, a)
    ensures Pool(NextM(m, held, a), NextHeld(m, held, a)) == Pool(m, held)
    ensures NextM(m, held, a).numBlocks == m.numBlocks
  {
    forall x
      ensures Pool(NextM(m, held, a), NextHeld(m, held, a))[x] == Pool(m, held)[x]
    {
      BlocksMoves(m, held, a, x);
      FreeListMoves(m, held, a, x);
      UnusedMoves(m, held, a, x);
      HeldMoves(m, held, a, x);
      PoolBalances(m, held, NextM(m, held, a), NextHeld(m, held, a), x);
    }
  }

  // ---------------------------------------------------------------- the manager's invariant

  /** No slot has two owners, and only slots of the file exist. */
  ghost predicate AliasFree(m: Mgr, held: seq<int>) {
    forall s :: s in Pool(m, held) ==> Pool(m, held)[s] == 1 && 0 <= s < m.numBlocks
  }

  /** The two counters agree with the index they summarise. */
  ghost predicate Counted(m: Mgr) {
    && m.evictable == CountRef(m.blocks, 0)
    && m.pending == CountRef(m.blocks, -1)
  }

  ghost predicate MgrOk(m: Mgr, held: seq<int>) {
    && 0 <= m.numAllocated <= m.numBlocks
    && DistinctKeys(m.blocks)
    && (forall e :: e in m.blocks ==> e.ref >= -1)
    && Counted(m)
    && AliasFree(m, held)
  }

  lemma {:induction false} FreshOk(numBlocks: nat)
    ensures MgrOk(Fresh(numBlocks), [])
  {
    UnusedRange(0, numBlocks);
  }

  lemma {:induction false} CountedDrop(m: Mgr, held: seq<int>, a: MAct)
    requires Enabled(m, held, a) && Counted(m) && (a.Evict? || a.Abort?)
    ensures Counted(NextM(m, held, a))
  {
    CountSplit(m.blocks, a.i, 0);
    CountSplit(m.blocks, a.i, -1);
  }

  lemma {:induction false} TouchCount(b: seq<Entry>, i: nat, ref: int)
    requires i < |b|
    ensures CountRef(DropAt(b, i) + [b[i]], ref) == CountRef(b, ref)
  {
    CountSplit(b, i, ref);
    AppendBag(DropAt(b, i), b[i]);
  }

  lemma {:induction false} CountedTouch(m: Mgr, held: seq<int>, i: nat)
    requires i < |m.blocks| && Counted(m)
    ensures Counted(NextM(m, held, Touch(i)))
  {
    TouchCount(m.blocks, i, 0);
    TouchCount(m.blocks, i, -1);
  }

  lemma {:induction false} CountedRef(m: Mgr, held: seq<int>, a: MAct)
    requires Enabled(m, held, a) && Counted(m) && (a.Complete? || a.Pin? || a.Unpin?)
    ensures Counted(NextM(m, held, a))
  {
    var ref := if a.Complete? then 0 else if a.Pin? then m.blocks[a.i].ref + 1 else m.blocks[a.i].ref - 1;
    RefCounts(m.blocks, a.i, ref);
    assert NextM(m, held, a).blocks == SetRef(m.blocks, a.i, ref);
  }

  lemma {:induction false} CountedKept(m: Mgr, held: seq<int>, a: MAct)
    requires Enabled(m, held, a) && Counted(m)
    ensures Counted(NextM(m, held, a))
  {
    if a.Evict? || a.Abort? {
      CountedDrop(m, held, a);
    } else if a.Touch? {
      CountedTouch(m, held, a.i);
    } else if a.Complete? || a.Pin? || a.Unpin? {
      CountedRef(m, held, a);
    } else if a.Insert? {
      AppendBag(m.blocks, Entry(a.key, held[a.j], -1));
    }
  }

  lemma {:induction false} RefCounts(b: seq<Entry>, i: nat, ref: int)
    requires i < |b|
    ensures forall r ::
              CountRef(SetRef(b, i, ref), r) ==
              CountRef(b, r) - (if b[i].ref == r then 1 else 0) + (if ref == r then 1 else 0)
  {
    forall r
      ensures CountRef(SetRef(b, i, ref), r) ==
              CountRef(b, r) - (if b[i].ref == r then 1 else 0) + (if ref == r then 1 else 0)
    {
      CountSplit(b, i, r);
      CountSet(b, i, b[i].(ref := ref), r);
    }
  }

  lemma {:induction false} KeysKept(m: Mgr, held: seq<int>, a: MAct)
    requires Enabled(m, held, a) && DistinctKeys(m.blocks)
    requires forall e :: e in m.blocks ==> e.ref >= -1
    ensures DistinctKeys(NextM(m, held, a).blocks)
    ensures forall e :: e in NextM(m, held, a).blocks ==> e.ref >= -1
  {
  }

  lemma {:induction false} MgrOkKept(m: Mgr, held: seq<int>, a: MAct)
    requires Enabled(m, held, a) && MgrOk(m, held)
    ensures MgrOk(NextM(m, held, a), NextHeld(m, held, a))
    ensures NextM(m, held, a).numBlocks == m.numBlocks
    ensures m.numAllocated <= NextM(m, held, a).numAllocated
  {
    PoolConserved(m, held, a);
    CountedKept(m, held, a);
    KeysKept(m, held, a);
  }

  /** Two live items never share a slot, and no live slot is free or about to be handed out. */
  lemma {:induction false} LiveSlotsOwned(m: Mgr, held: seq<int>, i: nat)
    requires MgrOk(m, held) && i < |m.blocks|
    ensures 0 <= m.blocks[i].slot < m.numAllocated
    ensures m.blocks[i].slot !in m.free && m.blocks[i].slot !in held
    ensures forall j :: 0 <= j < |m.blocks| && j != i ==> m.blocks[j].slot != m.blocks[i].slot
  {
    var s := m.blocks[i].slot;
    BagMember(m.blocks, i);
    assert s in Pool(m, held);
    UnusedRange(m.numAllocated, m.numBlocks);
    assert s in m.free ==> s in multiset(m.free);
    assert s in held ==> s in multiset(held);
    forall j | 0 <= j < |m.blocks| && j != i
      ensures m.blocks[j].slot != s
    {
      if m.blocks[j].slot == s {
        BagTwice(m.blocks, if i < j then i else j, if i < j then j else i);
      }
    }
  }

  /** Free-list slots are distinct and below the bump counter. */
  lemma {:induction false} FreeSlotsOwned(m: Mgr, held: seq<int>)
    requires MgrOk(m, held)
    ensures Distinct(m.free)
    ensures forall s :: s in m.free ==> 0 <= s < m.numAllocated
  {
    UnusedRange(m.numAllocated, m.numBlocks);
    forall s | s in m.free
      ensures 0 <= s < m.numAllocated && multiset(m.free)[s] == 1
    {
      assert s in multiset(m.free);
      assert s in Pool(m, held);
    }
    forall i, j | 0 <= i < j < |m.free|
      ensures m.free[i] != m.free[j]
    {
      if m.free[i] == m.free[j] { BagRepeats(m.free, i, j); }
    }
  }
}
