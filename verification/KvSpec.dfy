/** The two classes of the tier and the manager fields they overwrite, in the source's own form. */
module KvSpec {
  import opened Common
  import opened KvIndex
  import opened KvManager
  import opened KvRestore
  import opened KvContinuity

  class PersistentLRUCachePolicy {
    var blocks: seq<Entry>
    var persist: bool
    var dirty: nat

    constructor ()
      ensures blocks == [] && !persist && dirty == 0
    {
      blocks, persist, dirty := [], false, 0;
    }

    method Insert(key: Key, slot: int, ref: int)
      modifies this
      ensures blocks == Put(old(blocks), Entry(key, slot, ref))
      ensures old(DistinctKeys(blocks)) ==>
                if old(Has(blocks, key))
                then |blocks| == |old(blocks)| && forall i :: 0 <= i < |blocks| ==>
                       blocks[i] == if old(blocks)[i].key == key then Entry(key, slot, ref) else old(blocks)[i]
                else blocks == old(blocks) + [Entry(key, slot, ref)]
      ensures dirty == old(dirty) + 1 && persist == old(persist)
    {
      if DistinctKeys(blocks) { PutKeepsPlaces(blocks, Entry(key, slot, ref)); }
      blocks := Put(blocks, Entry(key, slot, ref));
      dirty := dirty + 1;
    }

    /** `del` on a missing key raises before the dirty count moves. */
    method Remove(key: Key) returns (ok: bool)
      modifies this
      ensures ok == Has(old(blocks), key)
      ensures !ok ==> blocks == old(blocks) && dirty == old(dirty)
      ensures ok ==> blocks == DropAt(old(blocks), Find(old(blocks), key)) && dirty == old(dirty) + 1
      ensures persist == old(persist)
      ensures old(DistinctKeys(blocks)) ==> DistinctKeys(blocks) && !Has(blocks, key)
      ensures forall x :: old(DistinctKeys(blocks)) && 0 <= x < |old(blocks)| && old(blocks)[x].key == key ==>
                && |blocks| == |old(blocks)| - 1
                && (forall j :: 0 <= j < x ==> blocks[j] == old(blocks)[j])
                && (forall j :: x <= j < |blocks| ==> blocks[j] == old(blocks)[j + 1])
    {
      var i := Find(blocks, key);
      ok := i >= 0;
      if ok {
        assert blocks[i].key == key;
        DropKeepsOrder(blocks, i);
        blocks := DropAt(blocks, i);
        dirty := dirty + 1;
      }
    }

    /** Bypasses the dirty count; a block id int() rejects leaves the earlier ones in place. */
    method RestoreEntries(entries: seq<(Key, Num)>) returns (out: Outcome)
      modifies this`blocks
      ensures blocks == PutAll(old(blocks), entries).0
      ensures out == if PutAll(old(blocks), entries).1 then Returned(|entries|) else Raised
    {
      var n := 0;
      while n < |entries|
        invariant 0 <= n <= |entries|
        invariant PutAll(old(blocks), entries[..n]) == (blocks, true)
      {
        PrefixStep(entries, n);
        if entries[n].1.Bad? {
          RaisesAt(old(blocks), entries, n + 1);
          return Raised;
        }
        blocks := Put(blocks, Entry(entries[n].0, entries[n].1.n, 0));
        n := n + 1;
      }
      assert entries[..n] == entries;
      out := Returned(n);
    }

    method SnapshotEntries() returns (r: seq<(Key, int)>)
      ensures r == ReadyPairs(blocks)
    {
      r := [];
      var i := 0;
      while i < |blocks|
        invariant 0 <= i <= |blocks|
        invariant r == ReadyPairs(blocks[..i])
      {
        PrefixStep(blocks, i);
        if blocks[i].Ready() {
          r := r + [(blocks[i].key, blocks[i].slot)];
        }
        i := i + 1;
      }
      assert blocks[..i] == blocks;
    }
  }

  /** The manager's fields that this tier reads or overwrites. */
  class CPUOffloadingManager {
    const numBlocks: nat
    const policy: PersistentLRUCachePolicy
    var freeList: seq<int>
    var numAllocated: int
    var numEvictable: int
    var numWritePending: int

    constructor (numBlocks: nat)
      ensures this.numBlocks == numBlocks && fresh(policy)
      ensures View() == Fresh(numBlocks) && policy.dirty == 0
    {
      this.numBlocks := numBlocks;
      policy := new PersistentLRUCachePolicy();
      freeList, numAllocated, numEvictable, numWritePending := [], 0, 0, 0;
    }

    function View(): Mgr
      reads this, policy
    {
      Mgr(numBlocks, policy.blocks, freeList, numAllocated, numEvictable, numWritePending)
    }
  }

  /** Where an attempt to save the index raises. */
  datatype Fault = NoFault | WhileReading | WhileWriting | WhileReplacing

  class PersistentNVMeOffloadingSpec {
    const cfg: Config
    var file: File
    var tmp: File
    var manager: CPUOffloadingManager?
    var saverStarted: bool

    /** A new engine process over what the disk holds. */
    constructor (cfg: Config, file: File, tmp: File)
      ensures this.cfg == cfg && this.file == file && this.tmp == tmp
      ensures manager == null && !saverStarted
    {
      this.cfg, this.file, this.tmp := cfg, file, tmp;
      manager, saverStarted := null, false;
    }

    /** `_restore`: guards and key decoding first, then one field after the other. */
    method Restore(mgr: CPUOffloadingManager) returns (out: Outcome)
      modifies mgr, mgr.policy`blocks
      ensures (out, mgr.View()) == KvRestore.Restore(cfg, old(mgr.View()), file)
    {
      match file {
        case Missing => return Returned(0);
        case Garbled => return Raised;
        case Json(st) =>
          if st.magic != Some(MAGIC) || st.fingerprint != Some(cfg.fingerprint) { return Returned(0); }
          var n := st.numBlocks.GetOr(I(-1));
          if n.Bad? { return Raised; }
          if n.n != mgr.numBlocks { return Returned(0); }
          var blocks := st.blocks.GetOr(Items([]));
          if blocks.NotIterable? { return Raised; }
          var decoded := DecodeBlocks(blocks.items);
          if decoded.None? { return Raised; }
          out := Apply(mgr, st, decoded.value);
      }
    }

    method DecodeBlocks(bs: seq<(string, Num)>) returns (r: Option<seq<(Key, Num)>>)
      ensures r == DecodeAll(bs)
    {
      var es: seq<(Key, Num)> := [];
      var i := 0;
      while i < |bs|
        invariant 0 <= i <= |bs|
        invariant DecodeAll(bs[..i]) == Some(es)
      {
        PrefixStep(bs, i);
        var k := FromHex(bs[i].0);
        if k.None? {
          UndecodableAt(bs, i + 1);
          return None;
        }
        es := es + [(k.value, bs[i].1)];
        i := i + 1;
      }
      assert bs[..i] == bs;
      r := Some(es);
    }

    method Apply(mgr: CPUOffloadingManager, st: Payload, entries: seq<(Key, Num)>) returns (out: Outcome)
      modifies mgr, mgr.policy`blocks
      ensures (out, mgr.View()) == Rebuild(old(mgr.View()), st, entries)
    {
      out := mgr.policy.RestoreEntries(entries);
      if out.Raised? { return; }
      var free := FreeOf(st);
      if free.None? { return Raised; }
      var kept := FilterFree(free.value, Bids(entries));
      mgr.freeList := kept;
      var a := st.numAllocated.GetOr(I(|entries|));
      if a.Bad? { return Raised; }
      mgr.numAllocated := a.n;
      mgr.numEvictable := out.n;
      mgr.numWritePending := 0;
    }

    method FilterFree(xs: seq<int>, drop: set<int>) returns (r: seq<int>)
      ensures r == Filter(xs, drop)
    {
      r := [];
      var i := 0;
      while i < |xs|
        invariant 0 <= i <= |xs|
        invariant r == Filter(xs[..i], drop)
      {
        PrefixStep(xs, i);
        if xs[i] !in drop { r := r + [xs[i]]; }
        i := i + 1;
      }
      assert xs[..i] == xs;
    }

    /** Builds the manager once, restores into it, and starts the saver unless the restore raised:
        an unreadable index is then never replaced by a good one. */
    method GetManager() returns (mgr: CPUOffloadingManager)
      modifies this`manager, this`saverStarted, manager, if manager != null then {manager.policy} else {}
      ensures manager == mgr && (old(manager) != null ==> mgr == old(manager))
      ensures old(manager) == null ==>
                mgr.View() == KvRestore.Restore(cfg, Fresh(cfg.numBlocks), file).1
                && saverStarted == (old(saverStarted)
                                    || KvRestore.Restore(cfg, Fresh(cfg.numBlocks), file).0.Returned?)
      ensures old(manager) != null ==>
                mgr.View() == KvRestore.Restore(cfg, old(manager.View()), file).1
                && saverStarted == (old(saverStarted)
                                    || KvRestore.Restore(cfg, old(manager.View()), file).0.Returned?)
    {
      if manager == null {
        manager := new CPUOffloadingManager(cfg.numBlocks);
      }
      mgr := manager;
      mgr.policy.persist := true;
      var out := Restore(mgr);
      if out.Returned? { saverStarted := true; }
    }

    /** One turn of the saver loop with nothing else running. Whatever raises, the named file keeps
        its old content and the dirty count stays cleared. */
    method SaverPass(mgr: CPUOffloadingManager, fault: Fault)
      modifies this`file, this`tmp, mgr.policy`dirty
      ensures mgr.policy.dirty == 0
      ensures old(mgr.policy.dirty) == 0 ==> file == old(file) && tmp == old(tmp)
      ensures old(mgr.policy.dirty) != 0 && fault == NoFault ==>
                file == Json(PayloadOf(SavedNow(cfg.fingerprint, mgr.View()))) && tmp == Missing
      ensures fault != NoFault ==> file == old(file)
      ensures old(mgr.policy.dirty) != 0 && fault == WhileReading ==> tmp == old(tmp)
      ensures old(mgr.policy.dirty) != 0 && fault == WhileWriting ==> tmp == Garbled
      ensures old(mgr.policy.dirty) != 0 && fault == WhileReplacing ==>
                tmp == Json(PayloadOf(SavedNow(cfg.fingerprint, mgr.View())))
    {
      if mgr.policy.dirty == 0 { return; }
      mgr.policy.dirty := 0;
      if fault == WhileReading { return; }
      var numAllocated := mgr.numAllocated;
      var free := mgr.freeList;
      var entries := mgr.policy.SnapshotEntries();
      var payload := PayloadOf(Capture(cfg.fingerprint, mgr.numBlocks, numAllocated, free, entries));
      tmp := Garbled;
      if fault == WhileWriting { return; }
      tmp := Json(payload);
      if fault == WhileReplacing { return; }
      file, tmp := tmp, Missing;
    }
  }

  lemma {:induction false} UndecodableAt(bs: seq<(string, Num)>, n: nat)
    requires n <= |bs| && DecodeAll(bs[..n]).None?
    ensures DecodeAll(bs).None?
    decreases |bs| - n
  {
    if n < |bs| {
      PrefixStep(bs, n);
      UndecodableAt(bs, n + 1);
    } else {
      assert bs[..n] == bs;
    }
  }

  /** One life of the engine: a save, a crash, a new process on the same disk. `held` are slots that
      only local variables of the scheduler know. */
  method SaveCrashRestart(spec: PersistentNVMeOffloadingSpec, mgr: CPUOffloadingManager, ghost held: seq<int>)
    returns (next: CPUOffloadingManager)
    requires mgr.numBlocks == spec.cfg.numBlocks && mgr.policy.dirty != 0
    requires MgrOk(mgr.View(), held)
    modifies spec`file, spec`tmp, mgr.policy`dirty
    ensures next.View() == Settled(mgr.View()) && MgrOk(next.View(), [])
  {
    spec.SaverPass(mgr, NoFault);
    var reborn := new PersistentNVMeOffloadingSpec(spec.cfg, spec.file, spec.tmp);
    RestartSettles(spec.cfg, mgr.View(), held);
    next := reborn.GetManager();
    SettledOk(mgr.View(), held);
  }
}
