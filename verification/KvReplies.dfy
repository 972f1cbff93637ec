/** What a request is answered, and why: a hit is always a finished store. */
module KvReplies {
  import opened Common
  import opened KvIndex
  import opened KvManager
  import opened KvContinuity

  lemma {:induction false} FindIs(b: seq<Entry>, i: nat)
    requires DistinctKeys(b) && i < |b|
    ensures Find(b, b[i].key) == i
  {
  }

  // ---------------------------------------------------------------- one request

  /** A lookup changes nothing, and is a hit on slot s exactly when a completed item has that key and
      slot. */
  lemma {:induction false} LookupIff(m: Mgr, k: Key, s: int)
    requires DistinctKeys(m.blocks)
    ensures Serve(m, Lookup(k)).0 == m
    ensures Serve(m, Lookup(k)).1 == Hit(s) <==>
            exists i :: 0 <= i < |m.blocks| && m.blocks[i].key == k && m.blocks[i].slot == s && m.blocks[i].ref >= 0
    ensures Serve(m, Lookup(k)).1 == Miss <==>
            forall i :: 0 <= i < |m.blocks| && m.blocks[i].key == k ==> m.blocks[i].ref < 0
  {
    forall i | 0 <= i < |m.blocks| && m.blocks[i].key == k
      ensures i == Find(m.blocks, k)
    {
      FindIs(m.blocks, i);
    }
  }

  /** A store of a known key changes nothing. A fresh slot comes first, then the end of the free list. */
  lemma {:induction false} StoreReply(m: Mgr, k: Key)
    ensures var (z, q) := Serve(m, Store(k));
            && (Has(m.blocks, k) ==> z == m && q == Known)
            && (!Has(m.blocks, k) && m.numAllocated < m.numBlocks ==>
                  && q == Stored(m.numAllocated, None)
                  && z == m.(blocks := m.blocks + [Entry(k, m.numAllocated, -1)],
                             numAllocated := m.numAllocated + 1, pending := m.pending + 1))
            && (!Has(m.blocks, k) && m.numAllocated >= m.numBlocks && m.free != [] ==>
                  && q == Stored(m.free[|m.free| - 1], None)
                  && z == m.(blocks := m.blocks + [Entry(k, m.free[|m.free| - 1], -1)],
                             free := m.free[..|m.free| - 1], pending := m.pending + 1))
  {
    assert Find(m.blocks, k) >= 0 <==> Has(m.blocks, k);
  }

  lemma {:induction false} VictimIs(b: seq<Entry>, v: nat)
    requires v < |b| && b[v].ref == 0 && forall i :: 0 <= i < v ==> b[i].ref != 0
    ensures Victim(b) == Some(v)
  {
  }

  predicate Full(m: Mgr) {
    m.numAllocated >= m.numBlocks && m.free == []
  }

  /** With no slot left, the least recent item that no load and no store holds gives way. */
  lemma {:induction false} EvictReply(m: Mgr, k: Key, v: nat)
    requires !Has(m.blocks, k) && Full(m)
    requires v < |m.blocks| && m.blocks[v].ref == 0 && forall i :: 0 <= i < v ==> m.blocks[i].ref != 0
    ensures Serve(m, Store(k)).1 == Stored(m.blocks[v].slot, Some(m.blocks[v].key))
    ensures Serve(m, Store(k)).0 ==
            m.(blocks := m.blocks[..v] + m.blocks[v + 1..] + [Entry(k, m.blocks[v].slot, -1)],
               evictable := m.evictable - 1, pending := m.pending + 1)
  {
    assert Find(m.blocks, k) < 0;
    VictimIs(m.blocks, v);
    DropKeepsOrder(m.blocks, v);
    assert DropAt(m.blocks, v) == m.blocks[..v] + m.blocks[v + 1..];
    assert !Has(DropAt(m.blocks, v), k);
  }

  /** A store is refused exactly when there is no slot left and no such item. */
  lemma {:induction false} RefusedIff(m: Mgr, k: Key)
    ensures Serve(m, Store(k)).1 == Refused <==>
            !Has(m.blocks, k) && Full(m) && forall i :: 0 <= i < |m.blocks| ==> m.blocks[i].ref != 0
    ensures Serve(m, Store(k)).1 == Refused ==> Serve(m, Store(k)).0 == m
  {
    assert Find(m.blocks, k) >= 0 <==> Has(m.blocks, k);
  }

  /** What a request about one item does to it: a store in flight completes or fails, a completed item
      is loaded or released, any item is touched; everything else is left alone. */
  lemma {:induction false} ItemReply(m: Mgr, i: nat)
    requires DistinctKeys(m.blocks) && i < |m.blocks|
    ensures var e := m.blocks[i];
            && Serve(m, Finish(e.key)) == (if e.ref != -1 then m else
                 m.(blocks := m.blocks[i := Entry(e.key, e.slot, 0)],
                    pending := m.pending - 1, evictable := m.evictable + 1), Ok)
            && Serve(m, Load(e.key)) == (if e.ref < 0 then m else
                 m.(blocks := m.blocks[i := Entry(e.key, e.slot, e.ref + 1)],
                    evictable := m.evictable - if e.ref == 0 then 1 else 0), Ok)
            && Serve(m, Unload(e.key)) == (if e.ref <= 0 then m else
                 m.(blocks := m.blocks[i := Entry(e.key, e.slot, e.ref - 1)],
                    evictable := m.evictable + if e.ref == 1 then 1 else 0), Ok)
  {
    FindIs(m.blocks, i);
  }

  lemma {:induction false} MoveReply(m: Mgr, i: nat)
    requires DistinctKeys(m.blocks) && i < |m.blocks|
    ensures var e := m.blocks[i];
            && Serve(m, Touched(e.key)) == (m.(blocks := m.blocks[..i] + m.blocks[i + 1..] + [e]), Ok)
            && Serve(m, Fail(e.key)) == (if e.ref != -1 then m else
                 m.(blocks := m.blocks[..i] + m.blocks[i + 1..], free := m.free + [e.slot],
                    pending := m.pending - 1), Ok)
  {
    FindIs(m.blocks, i);
    DropKeepsOrder(m.blocks, i);
    assert DropAt(m.blocks, i) == m.blocks[..i] + m.blocks[i + 1..];
  }

  lemma {:induction false} UnknownReply(m: Mgr, r: Request)
    requires !Has(m.blocks, r.key) && !r.Store?
    ensures Serve(m, r) == (m, if r.Lookup? then Miss else Ok)
  {
    assert Find(m.blocks, r.key) < 0;
  }

  // ---------------------------------------------------------------- request lists

  /** Where a key is in its life, as its requests and replies tell: being stored to a slot, or kept there. */
  datatype Life = Absent | Storing(slot: int) | Kept(slot: int)

  /** What the index says. */
  function Status(b: seq<Entry>, k: Key): Life {
    var i := Find(b, k);
    if i < 0 then Absent else if b[i].ref < 0 then Storing(b[i].slot) else Kept(b[i].slot)
  }

  /** What one request and its reply say: a store begins with its reply, and ends with Finish or Fail;
      the victim of another key's store is gone. */
  function LifeStep(prev: Life, r: Request, q: Reply, k: Key): Life {
    match r
    case Store(x) =>
      if !q.Stored? then prev
      else if x == k then Storing(q.slot)
      else if q.victim == Some(k) then Absent else prev
    case Finish(x) => if x == k && prev.Storing? then Kept(prev.slot) else prev
    case Fail(x) => if x == k && prev.Storing? then Absent else prev
    case _ => prev
  }

  function LifeOf(start: Life, rs: seq<Request>, qs: seq<Reply>, k: Key): Life
    requires |rs| == |qs|
  {
    if rs == [] then start else LifeStep(LifeOf(start, Init(rs), Init(qs), k), Last(rs), Last(qs), k)
  }

  lemma {:induction false} StatusIs(b: seq<Entry>, i: nat)
    requires DistinctKeys(b) && i < |b|
    ensures Status(b, b[i].key) == if b[i].ref < 0 then Storing(b[i].slot) else Kept(b[i].slot)
  {
    FindIs(b, i);
  }

  lemma {:induction false} StatusAbsent(b: seq<Entry>, k: Key)
    ensures Status(b, k) == Absent <==> !Has(b, k)
  {
  }

  /** Two indexes with the same item for a key, or none, give it the same status. */
  lemma {:induction false} SameStatus(b: seq<Entry>, c: seq<Entry>, k: Key)
    requires DistinctKeys(b) && DistinctKeys(c)
    requires forall e: Entry :: e.key == k ==> (e in b <==> e in c)
    ensures Status(b, k) == Status(c, k)
  {
    var i, x := Find(b, k), Find(c, k);
    assert i >= 0 ==> b[i] in b;
    assert x >= 0 ==> c[x] in c;
    if i >= 0 {
      var j :| 0 <= j < |c| && c[j] == b[i];
      StatusIs(b, i);
      StatusIs(c, j);
    }
  }

  lemma {:induction false} AppendStatus(b: seq<Entry>, e: Entry, k: Key)
    ensures Status(b + [e], k) ==
            if e.key != k then Status(b, k) else if e.ref < 0 then Storing(e.slot) else Kept(e.slot)
  {
    assert Init(b + [e]) == b;
  }

  lemma {:induction false} StoreLife(m: Mgr, x: Key, k: Key)
    requires MgrOk(m, [])
    ensures var (z, q) := Serve(m, Store(x));
            Status(z.blocks, k) == LifeStep(Status(m.blocks, k), Store(x), q, k)
  {
    var b := m.blocks;
    var (z, q) := Serve(m, Store(x));
    if Has(b, x) || !Full(m) {
      StoreReply(m, x);
      if q.Stored? { AppendStatus(b, Entry(x, q.slot, -1), k); }
    } else {
      RefusedIff(m, x);
      if Victim(b).Some? {
        var v := Victim(b).value;
        EvictReply(m, x, v);
        MovedStatus(b, v, false, k);
        var c := b[..v] + b[v + 1..];
        assert c + [] == c;
        AppendStatus(c, Entry(x, b[v].slot, -1), k);
      }
    }
  }

  lemma {:induction false} SetStatus(b: seq<Entry>, i: nat, ref: int, k: Key)
    requires DistinctKeys(b) && i < |b|
    ensures Status(b[i := Entry(b[i].key, b[i].slot, ref)], k) ==
            if b[i].key != k then Status(b, k)
            else if ref < 0 then Storing(b[i].slot) else Kept(b[i].slot)
  {
    var c := b[i := Entry(b[i].key, b[i].slot, ref)];
    if b[i].key == k {
      StatusIs(c, i);
    } else {
      forall e: Entry | e.key == k
        ensures e in b <==> e in c
      {
        if e in b {
          var j :| 0 <= j < |b| && b[j] == e;
          assert c[j] == e;
        }
        if e in c {
          var j :| 0 <= j < |c| && c[j] == e;
          assert b[j] == e;
        }
      }
      SameStatus(b, c, k);
    }
  }

  lemma {:induction false} MovedStatus(b: seq<Entry>, i: nat, back: bool, k: Key)
    requires DistinctKeys(b) && i < |b|
    ensures var c := b[..i] + b[i + 1..] + if back then [b[i]] else [];
            && DistinctKeys(c)
            && Status(c, k) == if !back && b[i].key == k then Absent else Status(b, k)
  {
    var c := b[..i] + b[i + 1..] + if back then [b[i]] else [];
    assert forall j :: 0 <= j < |c| ==> c[j] == if j < i then b[j] else if j < |b| - 1 then b[j + 1] else b[i];
    if !back && b[i].key == k {
      StatusAbsent(c, k);
    } else {
      assert b == b[..i] + [b[i]] + b[i + 1..];
      SameStatus(b, c, k);
    }
  }

  lemma {:induction false} ItemLife(m: Mgr, r: Request, k: Key)
    requires MgrOk(m, []) && !r.Store? && !r.Lookup?
    ensures Status(Serve(m, r).0.blocks, k) == LifeStep(Status(m.blocks, k), r, Serve(m, r).1, k)
  {
    var i := Find(m.blocks, r.key);
    if i < 0 {
      UnknownReply(m, r);
      StatusAbsent(m.blocks, r.key);
    } else {
      var e := m.blocks[i];
      assert e in m.blocks;
      StatusIs(m.blocks, i);
      if r.Touched? || r.Fail? {
        MoveReply(m, i);
        MovedStatus(m.blocks, i, r.Touched?, k);
        assert m.blocks[..i] + m.blocks[i + 1..] + [] == m.blocks[..i] + m.blocks[i + 1..];
      } else {
        ItemReply(m, i);
        SetStatus(m.blocks, i, if r.Finish? then 0 else if r.Load? then e.ref + 1 else e.ref - 1, k);
      }
    }
  }

  /** Over every list of requests, served from any sound manager - a new one, or one rebuilt by a
      restart: what the replies said about a key is what the index says. */
  lemma {:induction false} RepliesTellLife(m: Mgr, rs: seq<Request>, k: Key)
    requires MgrOk(m, [])
    ensures MgrOk(ServeAll(m, rs), [])
    ensures Status(ServeAll(m, rs).blocks, k) == LifeOf(Status(m.blocks, k), rs, Replies(m, rs), k)
  {
    if rs != [] {
      var before, r := ServeAll(m, Init(rs)), Last(rs);
      RepliesTellLife(m, Init(rs), k);
      ServeKeeps(before, r);
      assert Init(Replies(m, rs)) == Replies(m, Init(rs));
      match r
      case Store(x) => StoreLife(before, x, k);
      case Lookup(_) =>
      case _ => ItemLife(before, r, k);
    }
  }

  /** A lookup after any requests is a hit exactly when a Finish followed the last Store of the key that
      was answered with a slot, with no eviction since; and then on that slot. A key whose store is
      still in flight is a miss. */
  lemma {:induction false} HitIffFinished(n: nat, rs: seq<Request>, k: Key)
    ensures var m := ServeAll(Fresh(n), rs);
            Serve(m, Lookup(k)).1 ==
            match LifeOf(Absent, rs, Replies(Fresh(n), rs), k)
            case Kept(s) => Hit(s)
            case _ => Miss
  {
    FreshOk(n);
    RepliesTellLife(Fresh(n), rs, k);
    StatusAbsent(Fresh(n).blocks, k);
    var m := ServeAll(Fresh(n), rs);
    var i := Find(m.blocks, k);
    if i >= 0 { LookupIff(m, k, m.blocks[i].slot); } else { UnknownReply(m, Lookup(k)); }
  }
}
