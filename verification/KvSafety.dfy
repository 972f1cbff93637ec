/** Facts about the tier's state, and what each kind of step does to them. */
module KvSafety {
  import opened Common
  import opened KvIndex
  import opened KvManager
  import opened KvRestore
  import opened KvMachine

  // ---------------------------------------------------------------- the invariant, part by part

  /** Every item is about the slot it names: ready items own completed bytes of their key. */
  ghost predicate Backed(b: seq<Entry>, disk: map<int, Content>) {
    forall e :: e in b ==> At(disk, e.slot) == if e.Ready() then Done(e.key) else Writing(e.key)
  }

  ghost predicate DistinctPairSlots(es: seq<(Key, int)>) {
    forall i, j :: 0 <= i < j < |es| ==> es[i].1 != es[j].1
  }

  /** Facts about the values one save has read, whatever ran between the reads. */
  ghost predicate CapOk(c: Capture) {
    && 0 <= c.numAllocated <= c.numBlocks
    && DistinctPairKeys(c.entries) && DistinctPairSlots(c.entries)
    && (forall p :: p in c.entries ==> 0 <= p.1 < c.numBlocks)
    && Distinct(c.free)
    && (forall x :: x in c.free ==> 0 <= x < c.numBlocks)
  }

  /** The captured pairs are items of the captured index, including all that were ready there. */
  ghost predicate PairsOk(es: seq<(Key, int)>, index: seq<Entry>) {
    && (forall p :: p in es ==> exists e :: e in index && p == (e.key, e.slot))
    && (forall e :: e in index && e.Ready() ==> (e.key, e.slot) in es)
  }

  /** Without a mutation hook since the capture, the index can only have lost evicted items. */
  ghost predicate DerivedOk(sn: Since, b: seq<Entry>) {
    !sn.hooked ==>
      && (forall e :: e in b ==> exists c :: c in sn.index && c.key == e.key && c.slot == e.slot)
      && (forall c :: c in sn.index ==> Has(b, c.key) || c.key in sn.evicted)
  }

  /** The part of the index the saver has walked over. */
  ghost predicate ReadingOk(s: Saver, b: seq<Entry>)
    requires s.Reading?
  {
    && s.pos <= |b| == |s.base|
    && DistinctKeys(s.base)
    && (forall i :: 0 <= i < |b| ==> s.base[i].key == b[i].key && s.base[i].slot == b[i].slot)
    && (forall i :: 0 <= i < |b| && s.base[i].Ready() ==> b[i].Ready())
    && DistinctPairKeys(s.got)
    && (forall p :: p in s.got ==> exists i :: 0 <= i < s.pos && b[i].Ready() && p == (b[i].key, b[i].slot))
    && (forall i :: 0 <= i < s.pos && s.base[i].Ready() ==> (b[i].key, b[i].slot) in s.got)
  }

  /** What an iteration over the first `pos` items reads, in order: every item that was ready when the
      iteration began, and of the others only ones ready by now. */
  ghost predicate Walked(base: seq<Entry>, b: seq<Entry>, pos: nat, got: seq<(Key, int)>)
    requires pos <= |b| == |base|
  {
    if pos == 0 then got == []
    else
      var e := b[pos - 1];
      || (e.Ready() && got != [] && Last(got) == (e.key, e.slot) && Walked(base, b, pos - 1, Init(got)))
      || (!base[pos - 1].Ready() && Walked(base, b, pos - 1, got))
  }

  /** A finished mutation after the capture leaves `_dirty` non-zero. */
  ghost predicate DirtyOk(w: World) {
    && (w.saver.Captured? || w.saver.Written? ==>
          w.hook.NoHook? && w.saver.since.hooked ==> w.dirty > 0)
    && ((w.saver.Idle? || w.saver.Checked?) && w.saver.ok ==>
          && w.durable.Some?
          && (w.hook.NoHook? && w.durable.value.hooked ==> w.dirty > 0))
  }

  // ---------------------------------------------------------------- manager steps

  lemma {:induction false} BackedKept(m: Mgr, held: seq<int>, disk: map<int, Content>, a: MAct)
    requires Enabled(m, held, a) && MgrOk(m, held) && Backed(m.blocks, disk)
    ensures Backed(NextM(m, held, a).blocks, DiskAfter(m, held, disk, a))
  {
    var b, b' := m.blocks, NextM(m, held, a).blocks;
    forall e | e in b'
      ensures At(DiskAfter(m, held, disk, a), e.slot) == if e.Ready() then Done(e.key) else Writing(e.key)
    {
      match a
      case Insert(k, j) =>
        if e in b {
          var i :| 0 <= i < |b| && b[i] == e;
          LiveSlotsOwned(m, held, i);
          assert held[j] in held;
        }
      case Complete(i) =>
        if e != b[i].(ref := 0) {
          var x :| 0 <= x < |b'| && b'[x] == e;
          assert x != i && b[x] == e;
          LiveSlotsOwned(m, held, i);
        }
      case Pin(i) => assert b[i] in b;
      case Unpin(i) => assert b[i] in b;
      case _ =>
    }
  }

  lemma {:induction false} DerivedKept(sn: Since, m: Mgr, held: seq<int>, a: MAct)
    requires Enabled(m, held, a) && DerivedOk(sn, m.blocks)
    ensures DerivedOk(SinceAfter(sn, m, held, a), NextM(m, held, a).blocks)
  {
    if !a.Insert? && !a.Abort? && !sn.hooked {
      NothingNew(m, held, a);
      LeavesByEviction(m, held, a);
      DerivedVia(sn, SinceAfter(sn, m, held, a), m.blocks, NextM(m, held, a).blocks);
    }
  }

  lemma {:induction false} DerivedVia(sn: Since, sn': Since, b: seq<Entry>, b': seq<Entry>)
    requires DerivedOk(sn, b) && !sn.hooked
    requires sn'.index == sn.index && sn.evicted <= sn'.evicted
    requires forall e :: e in b' ==> exists d :: d in b && d.key == e.key && d.slot == e.slot
    requires forall d :: d in b ==> Has(b', d.key) || d.key in sn'.evicted
    ensures DerivedOk(sn', b')
  {
    forall e | e in b'
      ensures exists c :: c in sn'.index && c.key == e.key && c.slot == e.slot
    {
      var d :| d in b && d.key == e.key && d.slot == e.slot;
      var c :| c in sn.index && c.key == d.key && c.slot == d.slot;
      assert c in sn'.index;
    }
    forall c | c in sn.index
      ensures Has(b', c.key) || c.key in sn'.evicted
    {
      if Has(b, c.key) {
        var i :| 0 <= i < |b| && b[i].key == c.key;
        assert b[i] in b;
      }
    }
  }

  lemma {:induction false} LeavesByEviction(m: Mgr, held: seq<int>, a: MAct)
    requires Enabled(m, held, a) && !a.Abort?
    ensures forall d :: d in m.blocks ==>
              Has(NextM(m, held, a).blocks, d.key) || (a.Evict? && d.key == m.blocks[a.i].key)
  {
    forall d | d in m.blocks
      ensures Has(NextM(m, held, a).blocks, d.key) || (a.Evict? && d.key == m.blocks[a.i].key)
    {
      var i :| 0 <= i < |m.blocks| && m.blocks[i] == d;
      if !(a.Evict? && a.i == i) { StillThere(m, held, a, i); }
    }
  }

  /** Only an insert brings a key or a slot into the index. */
  lemma {:induction false} NothingNew(m: Mgr, held: seq<int>, a: MAct)
    requires Enabled(m, held, a) && !a.Insert?
    ensures forall e :: e in NextM(m, held, a).blocks ==>
              exists d :: d in m.blocks && d.key == e.key && d.slot == e.slot
  {
    forall e | e in NextM(m, held, a).blocks
      ensures exists d :: d in m.blocks && d.key == e.key && d.slot == e.slot
    {
      if e !in m.blocks { assert m.blocks[a.i] in m.blocks; }
    }
  }

  /** Only eviction and abort take a key out of the index. */
  lemma {:induction false} StillThere(m: Mgr, held: seq<int>, a: MAct, i: nat)
    requires Enabled(m, held, a) && i < |m.blocks|
    requires (a.Evict? || a.Abort?) ==> a.i != i
    ensures Has(NextM(m, held, a).blocks, m.blocks[i].key)
  {
    var b, b' := m.blocks, NextM(m, held, a).blocks;
    if (a.Evict? || a.Abort? || a.Touch?) && a.i != i {
      assert DropAt(b, a.i)[if i < a.i then i else i - 1] == b[i];
      assert b'[if i < a.i then i else i - 1] == b[i];
    } else if a.Touch? {
      assert b'[|b| - 1] == b[i];
    } else {
      assert b'[i].key == b[i].key;
    }
  }

  lemma {:induction false} ReadingKept(s: Saver, m: Mgr, held: seq<int>, a: MAct)
    requires s.Reading? && Enabled(m, held, a) && ReadingOk(s, m.blocks)
    requires !a.Insert? && !a.Abort? && !a.Evict? && !a.Touch?
    ensures ReadingOk(s, NextM(m, held, a).blocks)
  {
    var b, b' := m.blocks, NextM(m, held, a).blocks;
    assert |b'| == |b| && forall i :: 0 <= i < |b| ==>
      b'[i].key == b[i].key && b'[i].slot == b[i].slot && (b[i].Ready() ==> b'[i].Ready());
  }

  // ---------------------------------------------------------------- the saver's iteration

  lemma {:induction false} WalkedKept(base: seq<Entry>, b: seq<Entry>, b': seq<Entry>, pos: nat, got: seq<(Key, int)>)
    requires pos <= |b| == |base| == |b'| && Walked(base, b, pos, got)
    requires forall i :: 0 <= i < pos ==>
               b'[i].key == b[i].key && b'[i].slot == b[i].slot && (b[i].Ready() ==> b'[i].Ready())
    ensures Walked(base, b', pos, got)
  {
    if pos > 0 {
      var e := b[pos - 1];
      if e.Ready() && got != [] && Last(got) == (e.key, e.slot) && Walked(base, b, pos - 1, Init(got)) {
        WalkedKept(base, b, b', pos - 1, Init(got));
      } else {
        WalkedKept(base, b, b', pos - 1, got);
      }
    }
  }

  lemma {:induction false} WalkedOn(s: Saver, b: seq<Entry>)
    requires s.Reading? && s.pos < |b| && ReadingOk(s, b) && Walked(s.base, b, s.pos, s.got)
    ensures Walked(s.base, b, s.pos + 1, Visit(s, b).got)
  {
    var e, got := b[s.pos], Visit(s, b).got;
    assert s.pos + 1 - 1 == s.pos;
    if e.Ready() {
      assert got == s.got + [(e.key, e.slot)];
      assert Init(got) == s.got && Last(got) == (e.key, e.slot);
    } else {
      assert got == s.got && !s.base[s.pos].Ready();
    }
  }

  /** With no completion in between, the iteration reads exactly the ready items of one index, in its order. */
  lemma {:induction false} WalkedExact(base: seq<Entry>, b: seq<Entry>, pos: nat, got: seq<(Key, int)>)
    requires pos <= |b| == |base| && Walked(base, b, pos, got)
    requires forall i :: 0 <= i < pos ==> base[i].Ready() == b[i].Ready()
    ensures got == ReadyPairs(b[..pos])
  {
    if pos > 0 {
      PrefixStep(b, pos - 1);
      if b[pos - 1].Ready() {
        WalkedExact(base, b, pos - 1, Init(got));
        assert got == Init(got) + [Last(got)];
      } else {
        WalkedExact(base, b, pos - 1, got);
      }
    }
  }

  lemma {:induction false} VisitReads(s: Saver, b: seq<Entry>)
    requires s.Reading? && s.pos < |b| && ReadingOk(s, b) && DistinctKeys(b)
    ensures ReadingOk(Visit(s, b), b)
  {
    var s', e := Visit(s, b), b[s.pos];
    forall p | p in s'.got
      ensures exists i :: 0 <= i < s'.pos && b[i].Ready() && p == (b[i].key, b[i].slot)
    {
      if p in s.got {
        var i :| 0 <= i < s.pos && b[i].Ready() && p == (b[i].key, b[i].slot);
      } else {
        assert b[s.pos].Ready() && p == (e.key, e.slot);
      }
    }
    forall i | 0 <= i < |s.got|
      ensures s.got[i].0 != e.key
    {
      assert s.got[i] in s.got;
      var x :| 0 <= x < s.pos && b[x].Ready() && s.got[i] == (b[x].key, b[x].slot);
    }
  }

  lemma {:induction false} GotAt(w: World, p: (Key, int)) returns (i: nat)
    requires w.saver.Reading? && ReadingOk(w.saver, w.m.blocks) && p in w.saver.got
    ensures i < |w.m.blocks| && w.m.blocks[i].Ready() && p == (w.m.blocks[i].key, w.m.blocks[i].slot)
  {
    i :| 0 <= i < w.saver.pos && w.m.blocks[i].Ready() && p == (w.m.blocks[i].key, w.m.blocks[i].slot);
  }

  lemma {:induction false} CaptureDerived(w: World)
    requires w.saver.Reading? && ReadingOk(w.saver, w.m.blocks)
    ensures DerivedOk(CaptureOf(w), w.m.blocks)
  {
    var base, b := w.saver.base, w.m.blocks;
    forall e | e in b
      ensures exists c :: c in base && c.key == e.key && c.slot == e.slot
    {
      var i :| 0 <= i < |b| && b[i] == e;
      assert base[i] in base;
    }
    forall c | c in base
      ensures Has(b, c.key)
    {
      var i :| 0 <= i < |base| && base[i] == c;
      assert b[i].key == c.key;
    }
  }
}
