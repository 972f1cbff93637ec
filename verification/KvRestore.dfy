/** What the index file says and what a restart makes of it. */
module KvRestore {
  import opened Common
  import opened KvIndex
  import opened KvManager

  const MAGIC := "DSV41KVS1"

  /** A JSON value where the code calls int(): a number, or something int() rejects. */
  datatype Num = I(n: int) | Bad

  /** A JSON value where the code iterates: a list (or a string or object, as its elements), or a null,
      number or truth value, which raises. */
  datatype Iter<T> = Items(items: seq<T>) | NotIterable

  /** The decoded JSON object; None is an absent key. An element of `blocks` that is not a pair with a
      string first raises where a string that is not hex does. */
  datatype Payload = Payload(
    magic: Option<string>,
    fingerprint: Option<string>,
    numBlocks: Option<Num>,
    numAllocated: Option<Num>,
    freeList: Option<Iter<Num>>,
    blocks: Option<Iter<(string, Num)>>)

  /** A path on disk: no file, bytes that json.load rejects or decodes to no object, or an object. */
  datatype File = Missing | Garbled | Json(payload: Payload)

  datatype Config = Config(fingerprint: string, numBlocks: nat)

  /** What `_restore` does: return a count or raise. */
  datatype Outcome = Returned(n: nat) | Raised

  /** The values one save reads, before they are encoded. */
  datatype Capture = Capture(
    fingerprint: string,
    numBlocks: nat,
    numAllocated: int,
    free: seq<int>,
    entries: seq<(Key, int)>)

  // ---------------------------------------------------------------- encoding

  function Nums(xs: seq<int>): (r: seq<Num>)
    ensures |r| == |xs| && forall i :: 0 <= i < |xs| ==> r[i] == I(xs[i])
  {
    seq(|xs|, i requires 0 <= i < |xs| => I(xs[i]))
  }

  function HexPairs(es: seq<(Key, int)>): (r: seq<(string, Num)>)
    ensures |r| == |es| && forall i :: 0 <= i < |es| ==> r[i] == (ToHex(es[i].0), I(es[i].1))
  {
    seq(|es|, i requires 0 <= i < |es| => (ToHex(es[i].0), I(es[i].1)))
  }

  function PayloadOf(c: Capture): Payload {
    Payload(Some(MAGIC), Some(c.fingerprint), Some(I(c.numBlocks)), Some(I(c.numAllocated)),
            Some(Items(Nums(c.free))), Some(Items(HexPairs(c.entries))))
  }

  // ---------------------------------------------------------------- decoding, loop by loop

  /** `[(bytes.fromhex(k), bid) for k, bid in blocks]`; None is a ValueError. */
  function DecodeAll(bs: seq<(string, Num)>): (r: Option<seq<(Key, Num)>>)
    ensures r.Some? ==> |r.value| == |bs| && forall i :: 0 <= i < |bs| ==> r.value[i].1 == bs[i].1
  {
    if bs == [] then Some([])
    else
      match (DecodeAll(Init(bs)), FromHex(Last(bs).0))
      case (Some(es), Some(k)) => Some(es + [(k, Last(bs).1)])
      case _ => None
  }

  /** The loop of `restore_entries`: the index it leaves, and whether every int() succeeded. */
  function PutAll(b: seq<Entry>, es: seq<(Key, Num)>): (seq<Entry>, bool) {
    if es == [] then (b, true)
    else
      var (b', ok) := PutAll(b, Init(es));
      if ok && Last(es).1.I? then (Put(b', Entry(Last(es).0, Last(es).1.n, 0)), true) else (b', false)
  }

  /** `[int(x) for x in free_list]`; None when int() raises. */
  function IntsOf(ns: seq<Num>): (r: Option<seq<int>>)
    ensures r.Some? <==> forall i :: 0 <= i < |ns| ==> ns[i].I?
    ensures r.Some? ==> ns == Nums(r.value)
  {
    if ns == [] then Some([])
    else
      match IntsOf(Init(ns))
      case Some(xs) => if Last(ns).I? then Some(xs + [Last(ns).n]) else None
      case None => None
  }

  /** `[x for x in free if x not in drop]`. */
  function Filter(xs: seq<int>, drop: set<int>): (r: seq<int>)
    ensures forall x :: x in r <==> x in xs && x !in drop
    ensures multiset(r) <= multiset(xs)
  {
    if xs == [] then []
    else
      assert xs == Init(xs) + [Last(xs)];
      Filter(Init(xs), drop) + if Last(xs) in drop then [] else [Last(xs)]
  }

  function Bids(es: seq<(Key, Num)>): set<int> {
    set p | p in es && p.1.I? :: p.1.n
  }

  function FreeOf(st: Payload): Option<seq<int>> {
    match st.freeList.GetOr(Items([]))
    case Items(ns) => IntsOf(ns)
    case NotIterable => None
  }

  function BlocksOf(st: Payload): Option<seq<(Key, Num)>> {
    match st.blocks.GetOr(Items([]))
    case Items(bs) => DecodeAll(bs)
    case NotIterable => None
  }

  // ---------------------------------------------------------------- _restore

  /** The allocator's fields, overwritten one after the other. */
  function SetAllocator(m: Mgr, st: Payload, es: seq<(Key, Num)>): (Outcome, Mgr) {
    match FreeOf(st)
    case None => (Raised, m)
    case Some(free) =>
      var m1 := m.(free := Filter(free, Bids(es)));
      match st.numAllocated.GetOr(I(|es|))
      case Bad => (Raised, m1)
      case I(a) => (Returned(|es|), m1.(numAllocated := a, evictable := |es|, pending := 0))
  }

  /** The part of `_restore` after the guards: insert, then overwrite the allocator. */
  function Rebuild(m: Mgr, st: Payload, es: seq<(Key, Num)>): (Outcome, Mgr) {
    var (b, ok) := PutAll(m.blocks, es);
    if ok then SetAllocator(m.(blocks := b), st, es) else (Raised, m.(blocks := b))
  }

  function Restore(cfg: Config, m: Mgr, f: File): (Outcome, Mgr) {
    match f
    case Missing => (Returned(0), m)
    case Garbled => (Raised, m)
    case Json(st) =>
      if st.magic != Some(MAGIC) then (Returned(0), m)
      else if st.fingerprint != Some(cfg.fingerprint) then (Returned(0), m)
      else match st.numBlocks.GetOr(I(-1))
      case Bad => (Raised, m)
      case I(n) =>
        if n != m.numBlocks then (Returned(0), m)
        else match BlocksOf(st)
        case None => (Raised, m)
        case Some(es) => Rebuild(m, st, es)
  }

  // ---------------------------------------------------------------- files of any origin

  /** The entries decode exactly when every key does, each to its own key. */
  lemma {:induction false} DecodeAllIff(bs: seq<(string, Num)>)
    ensures DecodeAll(bs).Some? <==> forall i :: 0 <= i < |bs| ==> FromHex(bs[i].0).Some?
    ensures DecodeAll(bs).Some? ==>
              forall i :: 0 <= i < |bs| ==> DecodeAll(bs).value[i] == (FromHex(bs[i].0).value, bs[i].1)
  {
    if bs != [] {
      DecodeAllIff(Init(bs));
      assert forall i :: 0 <= i < |bs| - 1 ==> Init(bs)[i] == bs[i];
    }
  }

  /** The filter goes through the list in order and keeps or drops each number by itself. */
  lemma {:induction false} FilterOneMore(xs: seq<int>, x: int, drop: set<int>)
    ensures Filter([], drop) == []
    ensures Filter(xs + [x], drop) == Filter(xs, drop) + if x in drop then [] else [x]
  {
    assert Init(xs + [x]) == xs;
  }

  /** Once an int() has failed, the rest of the list changes nothing. */
  lemma {:induction false} RaisesAt(b: seq<Entry>, es: seq<(Key, Num)>, n: nat)
    requires n <= |es| && !PutAll(b, es[..n]).1
    ensures PutAll(b, es) == (PutAll(b, es[..n]).0, false)
    decreases |es| - n
  {
    if n < |es| {
      PrefixStep(es, n);
      RaisesAt(b, es, n + 1);
    } else {
      assert es[..n] == es;
    }
  }

  /** The loop stops at the first bad number and leaves the entries before it. */
  lemma {:induction false} PutAllStops(b: seq<Entry>, es: seq<(Key, Num)>, n: nat)
    requires n < |es| && es[n].1.Bad? && AllNumbers(es[..n])
    ensures PutAll(b, es) == (PutAll(b, es[..n]).0, false) && PutAll(b, es[..n]).1
  {
    PutAllOk(b, es[..n]);
    PrefixStep(es, n);
    RaisesAt(b, es, n + 1);
  }

  ghost predicate LastEntry(es: seq<(Key, Num)>, i: nat) {
    i < |es| && es[i].1.I? && forall j :: i < j < |es| ==> es[j].0 != es[i].0
  }

  /** A repeated key ends up on its last slot; every item is ready and unpinned. */
  lemma {:induction false} PutAllIs(es: seq<(Key, Num)>)
    requires AllNumbers(es)
    ensures var b := PutAll([], es).0;
            && DistinctKeys(b)
            && (forall e :: e in b ==>
                  exists i: nat :: LastEntry(es, i) && e == Entry(es[i].0, es[i].1.n, 0))
            && (forall i: nat :: LastEntry(es, i) ==> Entry(es[i].0, es[i].1.n, 0) in b)
  {
    if es != [] {
      AllNumbersSplit(es);
      PutAllIs(Init(es));
      PutAllOk([], Init(es));
      var b, e := PutAll([], Init(es)).0, Entry(Last(es).0, Last(es).1.n, 0);
      PutKeepsPlaces(b, e);
      PutMembers(b, e);
      LastEntries(es);
    }
  }

  lemma {:induction false} PutMembers(b: seq<Entry>, e: Entry)
    requires DistinctKeys(b)
    ensures forall x :: x in Put(b, e) <==> x == e || (x in b && x.key != e.key)
  {
    PutKeepsPlaces(b, e);
    forall x | x in b && x.key != e.key
      ensures x in Put(b, e)
    {
      var i :| 0 <= i < |b| && b[i] == x;
      assert Put(b, e)[i] == x;
    }
  }

  /** One more entry is its key's last, and hides earlier ones of that key. */
  lemma {:induction false} LastEntries(es: seq<(Key, Num)>)
    requires es != [] && AllNumbers(es)
    ensures forall i: nat :: LastEntry(es, i) <==>
              i == |es| - 1 || (i < |es| - 1 && LastEntry(Init(es), i) && es[i].0 != Last(es).0)
    ensures forall i: nat :: i < |es| - 1 ==> Init(es)[i] == es[i]
  {
  }

  /** Where `_restore` raises, for any file and any manager. */
  lemma {:induction false} RestoreRaisesIff(cfg: Config, m: Mgr, f: File)
    ensures Restore(cfg, m, f).0.Raised? <==>
            || f.Garbled?
            || (&& f.Json? && f.payload.magic == Some(MAGIC) && f.payload.fingerprint == Some(cfg.fingerprint)
                && (|| f.payload.numBlocks == Some(Bad)
                    || (f.payload.numBlocks == Some(I(m.numBlocks))
                        && (BlocksOf(f.payload).None? || Raises(f.payload, BlocksOf(f.payload).value)))))
  {
    GuardsTouchNothing(cfg, m, f);
    if Reaches(cfg, m.numBlocks, f) { RaisesIff(m, f.payload, BlocksOf(f.payload).value); }
  }

  /** What a restore that does not raise leaves: nothing touched, or the entries, all evictable, the free
      list without their slots, and the saved bump counter. */
  lemma {:induction false} RestoreLeaves(cfg: Config, m: Mgr, f: File)
    requires Restore(cfg, m, f).0.Returned?
    ensures var (out, z) := Restore(cfg, m, f);
            if !Reaches(cfg, m.numBlocks, f) then out == Returned(0) && z == m
            else
              var st, es := f.payload, BlocksOf(f.payload).value;
              && out == Returned(|es|)
              && z.numBlocks == m.numBlocks && z.blocks == PutAll(m.blocks, es).0
              && z.evictable == |es| && z.pending == 0
              && (forall x :: x in z.free <==>
                    x in FreeOf(st).value && forall i :: 0 <= i < |es| ==> es[i].1 != I(x))
              && z.numAllocated == match st.numAllocated case Some(I(a)) => a case _ => |es|
  {
    GuardsTouchNothing(cfg, m, f);
    if Reaches(cfg, m.numBlocks, f) {
      var st, es := f.payload, BlocksOf(f.payload).value;
      RaisesIff(m, st, es);
      PutAllOk(m.blocks, es);
      BidsAre(es);
    }
  }

  lemma {:induction false} BidsAre(es: seq<(Key, Num)>)
    ensures forall x :: x in Bids(es) <==> exists i :: 0 <= i < |es| && es[i].1 == I(x)
  {
    forall x | x in Bids(es)
      ensures exists i :: 0 <= i < |es| && es[i].1 == I(x)
    {
      var p :| p in es && p.1.I? && p.1.n == x;
      var i :| 0 <= i < |es| && es[i] == p;
    }
    forall i | 0 <= i < |es| && es[i].1.I?
      ensures es[i].1.n in Bids(es)
    {
      assert es[i] in es;
    }
  }

  /** An absent free list or entry list counts as empty; without a slot count the file is ignored. */
  lemma {:induction false} AbsentKeys(cfg: Config, m: Mgr, st: Payload)
    ensures Restore(cfg, m, Json(st.(freeList := None))) == Restore(cfg, m, Json(st.(freeList := Some(Items([])))))
    ensures Restore(cfg, m, Json(st.(blocks := None))) == Restore(cfg, m, Json(st.(blocks := Some(Items([])))))
    ensures Restore(cfg, m, Json(st.(numBlocks := None))) == (Returned(0), m)
  {
  }

  // ---------------------------------------------------------------- files the saver wrote

  function SlotsOf(es: seq<(Key, int)>): set<int> {
    set p | p in es :: p.1
  }

  ghost predicate DistinctPairKeys(es: seq<(Key, int)>) {
    forall i, j :: 0 <= i < j < |es| ==> es[i].0 != es[j].0
  }

  /** The manager a restart builds from a capture: every entry ready and unpinned, in order. */
  function Rebuilt(c: Capture): Mgr {
    Mgr(c.numBlocks, AsEntries(c.entries), Filter(c.free, SlotsOf(c.entries)), c.numAllocated, |c.entries|, 0)
  }

  function Paired(es: seq<(Key, int)>): (r: seq<(Key, Num)>)
    ensures |r| == |es| && forall i :: 0 <= i < |es| ==> r[i] == (es[i].0, I(es[i].1))
  {
    seq(|es|, i requires 0 <= i < |es| => (es[i].0, I(es[i].1)))
  }

  lemma {:induction false} SavedSnoc(es: seq<(Key, int)>)
    requires es != []
    ensures Init(HexPairs(es)) == HexPairs(Init(es)) && Last(HexPairs(es)) == (ToHex(Last(es).0), I(Last(es).1))
    ensures Init(Paired(es)) == Paired(Init(es)) && Last(Paired(es)) == (Last(es).0, I(Last(es).1))
    ensures Paired(es) == Paired(Init(es)) + [(Last(es).0, I(Last(es).1))]
  {
  }

  lemma {:induction false} DecodeSaved(es: seq<(Key, int)>)
    ensures DecodeAll(HexPairs(es)) == Some(Paired(es))
  {
    if es != [] {
      SavedSnoc(es);
      DecodeSaved(Init(es));
      HexRoundTrip(Last(es).0);
    }
  }

  lemma {:induction false} PutNew(b: seq<Entry>, e: Entry)
    requires forall i :: 0 <= i < |b| ==> b[i].key != e.key
    ensures Put(b, e) == b + [e]
  {
  }

  lemma {:induction false} PutSaved(es: seq<(Key, int)>)
    requires DistinctPairKeys(es)
    ensures PutAll([], Paired(es)) == (AsEntries(es), true)
  {
    if es != [] {
      SavedSnoc(es);
      PutSaved(Init(es));
      var b, e := AsEntries(Init(es)), Entry(Last(es).0, Last(es).1, 0);
      assert AsEntries(es) == b + [e];
      PutNew(b, e);
    }
  }

  lemma {:induction false} IntsSaved(xs: seq<int>)
    ensures IntsOf(Nums(xs)) == Some(xs)
  {
    var r := IntsOf(Nums(xs)).value;
    assert forall i :: 0 <= i < |xs| ==> Nums(xs)[i] == Nums(r)[i];
    assert |r| == |xs|;
    assert r == xs;
  }

  lemma {:induction false} BidsSaved(es: seq<(Key, int)>)
    ensures Bids(Paired(es)) == SlotsOf(es)
  {
    forall x | x in Bids(Paired(es))
      ensures x in SlotsOf(es)
    {
      var p :| p in Paired(es) && p.1.I? && p.1.n == x;
      var i :| 0 <= i < |es| && Paired(es)[i] == p;
      assert es[i] in es;
    }
    forall x | x in SlotsOf(es)
      ensures x in Bids(Paired(es))
    {
      var p :| p in es && p.1 == x;
      var i :| 0 <= i < |es| && es[i] == p;
      assert Paired(es)[i] in Paired(es);
    }
  }

  /** The fields of a saved payload convert back. */
  lemma {:induction false} FieldsSaved(c: Capture)
    ensures BlocksOf(PayloadOf(c)) == Some(Paired(c.entries)) && FreeOf(PayloadOf(c)) == Some(c.free)
  {
    DecodeSaved(c.entries);
    IntsSaved(c.free);
  }

  lemma {:induction false} RebuildSaved(c: Capture)
    requires DistinctPairKeys(c.entries)
    ensures Rebuild(Fresh(c.numBlocks), PayloadOf(c), Paired(c.entries)) == (Returned(|c.entries|), Rebuilt(c))
  {
    PutSaved(c.entries);
    FieldsSaved(c);
    BidsSaved(c.entries);
  }

  lemma {:induction false} GuardsOfSaved(cfg: Config, m: Mgr, c: Capture)
    requires m.numBlocks == cfg.numBlocks
    ensures Restore(cfg, m, Json(PayloadOf(c))) ==
            if c.fingerprint == cfg.fingerprint && c.numBlocks == cfg.numBlocks
            then Rebuild(m, PayloadOf(c), Paired(c.entries)) else (Returned(0), m)
  {
    FieldsSaved(c);
  }

  /** Decoding undoes encoding: a saved capture restores exactly, under its own configuration,
      and leaves the fresh manager untouched under any other. */
  lemma {:induction false} RestoreOfSaved(cfg: Config, c: Capture)
    requires DistinctPairKeys(c.entries)
    ensures Restore(cfg, Fresh(cfg.numBlocks), Json(PayloadOf(c))) ==
            if c.fingerprint == cfg.fingerprint && c.numBlocks == cfg.numBlocks
            then (Returned(|c.entries|), Rebuilt(c))
            else (Returned(0), Fresh(cfg.numBlocks))
  {
    GuardsOfSaved(cfg, Fresh(cfg.numBlocks), c);
    RebuildSaved(c);
  }

  // ---------------------------------------------------------------- "any failure degrades to cold"

  predicate AllNumbers(es: seq<(Key, Num)>) {
    forall i :: 0 <= i < |es| ==> es[i].1.I?
  }

  /** The payload can make `_restore` raise after it has begun to mutate the manager. */
  predicate MutatesBeforeRaising(st: Payload, es: seq<(Key, Num)>) {
    var free := FreeOf(st);
    if !AllNumbers(es) then es[0].1.I?
    else if free.None? then es != []
    else st.numAllocated == Some(Bad) && (es != [] || Filter(free.value, Bids(es)) != [])
  }

  predicate BadAfterMutation(f: File) {
    && f.Json?
    && f.payload.numBlocks != Some(Bad)
    && var es := BlocksOf(f.payload);
       es.Some? && MutatesBeforeRaising(f.payload, es.value)
  }

  lemma {:induction false} AllNumbersSplit(es: seq<(Key, Num)>)
    requires es != []
    ensures AllNumbers(es) <==> AllNumbers(Init(es)) && Last(es).1.I?
  {
    assert forall i :: 0 <= i < |es| - 1 ==> Init(es)[i] == es[i];
  }

  lemma {:induction false} PutAllOk(b: seq<Entry>, es: seq<(Key, Num)>)
    ensures PutAll(b, es).1 <==> AllNumbers(es)
  {
    if es != [] {
      PutAllOk(b, Init(es));
      AllNumbersSplit(es);
    }
  }

  lemma {:induction false} PutAllGrows(b: seq<Entry>, es: seq<(Key, Num)>)
    ensures |PutAll(b, es).0| >= |b|
  {
    if es != [] { PutAllGrows(b, Init(es)); }
  }

  /** The loop changes an empty index exactly when its first number is good. */
  lemma {:induction false} PutAllMutates(es: seq<(Key, Num)>)
    requires es != []
    ensures PutAll([], es).0 == [] <==> es[0].1.Bad?
    ensures es[0].1.Bad? ==> !PutAll([], es).1
  {
    if |es| == 1 {
      assert Init(es) == [];
    } else {
      PutAllMutates(Init(es));
      PutAllGrows([], Init(es));
    }
  }

  /** An entry with a bad number: the loop of `restore_entries` raises. */
  lemma {:induction false} ColdAfterBadEntry(n: nat, st: Payload, es: seq<(Key, Num)>)
    requires !AllNumbers(es)
    ensures Rebuild(Fresh(n), st, es).1 == Fresh(n) <==> !es[0].1.I?
  {
    PutAllOk([], es);
    EmptyIff(es);
    assert Rebuild(Fresh(n), st, es).1 == Fresh(n).(blocks := PutAll([], es).0);
  }

  /** A free list that does not convert: every entry is already live. */
  lemma {:induction false} ColdAfterBadFree(n: nat, st: Payload, es: seq<(Key, Num)>)
    requires AllNumbers(es) && FreeOf(st).None?
    ensures Rebuild(Fresh(n), st, es).1 == Fresh(n) <==> es == []
  {
    PutAllOk([], es);
    EmptyIff(es);
    assert Rebuild(Fresh(n), st, es).1 == Fresh(n).(blocks := PutAll([], es).0);
  }

  /** A bad bump counter: entries and free list are already in place. */
  lemma {:induction false} ColdAfterBadCounter(n: nat, st: Payload, es: seq<(Key, Num)>, free: seq<int>)
    requires AllNumbers(es) && FreeOf(st) == Some(free)
    requires st.numAllocated == Some(Bad)
    ensures Rebuild(Fresh(n), st, es).1 == Fresh(n) <==> es == [] && Filter(free, Bids(es)) == []
  {
    PutAllOk([], es);
    EmptyIff(es);
    assert Rebuild(Fresh(n), st, es).1 ==
           Fresh(n).(blocks := PutAll([], es).0, free := Filter(free, Bids(es)));
  }

  /** Some int() or iteration fails after the guards. */
  predicate Raises(st: Payload, es: seq<(Key, Num)>) {
    !AllNumbers(es) || FreeOf(st).None? || st.numAllocated == Some(Bad)
  }

  lemma {:induction false} AllocatorRaisesIff(m: Mgr, st: Payload, es: seq<(Key, Num)>)
    ensures SetAllocator(m, st, es).0.Raised? <==> FreeOf(st).None? || st.numAllocated == Some(Bad)
  {
  }

  lemma {:induction false} RaisesIff(m: Mgr, st: Payload, es: seq<(Key, Num)>)
    ensures Rebuild(m, st, es).0.Raised? <==> Raises(st, es)
  {
    PutAllOk(m.blocks, es);
    AllocatorRaisesIff(m.(blocks := PutAll(m.blocks, es).0), st, es);
  }

  lemma {:induction false} RebuildColdIff(n: nat, st: Payload, es: seq<(Key, Num)>)
    requires Raises(st, es)
    ensures Rebuild(Fresh(n), st, es).1 == Fresh(n) <==> !MutatesBeforeRaising(st, es)
  {
    if !AllNumbers(es) {
      ColdAfterBadEntry(n, st, es);
    } else if FreeOf(st).None? {
      ColdAfterBadFree(n, st, es);
    } else {
      ColdAfterBadCounter(n, st, es, FreeOf(st).value);
    }
  }

  /** Whether the first mutation of `_restore` changes a fresh manager. */
  lemma {:induction false} EmptyIff(es: seq<(Key, Num)>)
    ensures PutAll([], es).0 == [] <==> es == [] || es[0].1.Bad?
    ensures PutAll([], es).1 && es != [] ==> es[0].1.I?
    ensures !PutAll([], es).1 ==> es != []
  {
    if es != [] { PutAllMutates(es); }
  }

  /** The guards pass and the entries decode, so that `_restore` starts to mutate. */
  predicate Reaches(cfg: Config, n: nat, f: File) {
    && f.Json?
    && f.payload.magic == Some(MAGIC)
    && f.payload.fingerprint == Some(cfg.fingerprint)
    && f.payload.numBlocks.GetOr(I(-1)) == I(n)
    && BlocksOf(f.payload).Some?
  }

  lemma {:induction false} GuardsTouchNothing(cfg: Config, m: Mgr, f: File)
    ensures !Reaches(cfg, m.numBlocks, f) ==> Restore(cfg, m, f).1 == m
    ensures !Reaches(cfg, m.numBlocks, f) && Restore(cfg, m, f).0.Raised? ==> !BadAfterMutation(f)
    ensures Reaches(cfg, m.numBlocks, f) ==> Restore(cfg, m, f) == Rebuild(m, f.payload, BlocksOf(f.payload).value)
  {
  }

  /** The documented promise that a failing restore leaves a cold cache holds exactly when the
      payload does not reach a bad value after the first mutation. */
  lemma {:induction false} FailureIsColdIff(cfg: Config, f: File)
    requires Restore(cfg, Fresh(cfg.numBlocks), f).0.Raised?
    ensures Restore(cfg, Fresh(cfg.numBlocks), f).1 == Fresh(cfg.numBlocks) <==> !BadAfterMutation(f)
  {
    GuardsTouchNothing(cfg, Fresh(cfg.numBlocks), f);
    if Reaches(cfg, cfg.numBlocks, f) {
      RaisesIff(Fresh(cfg.numBlocks), f.payload, BlocksOf(f.payload).value);
      RebuildColdIff(cfg.numBlocks, f.payload, BlocksOf(f.payload).value);
    }
  }

  /** A free list that is null, or has a number int() rejects: the captured slots are live, yet the
      bump counter is still 0, so the next stores are handed live slots. */
  lemma {:induction false} FailureNotCold(c: Capture, st: Payload, bad: Iter<Num>)
    requires bad == NotIterable || bad == Items([Bad])
    requires DistinctPairKeys(c.entries) && c.entries != [] && st == PayloadOf(c).(freeList := Some(bad))
    ensures Restore(Config(c.fingerprint, c.numBlocks), Fresh(c.numBlocks), Json(st)) ==
            (Raised, Fresh(c.numBlocks).(blocks := AsEntries(c.entries)))
  {
    DecodeSaved(c.entries);
    PutSaved(c.entries);
    assert [Bad][0].Bad?;
    assert FreeOf(st) == None;
  }
}
