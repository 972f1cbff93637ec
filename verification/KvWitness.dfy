/** Runs that show both conditions of the restart theorem are needed. */
module KvWitness {
  import opened Common
  import opened KvIndex
  import opened KvManager
  import opened KvRestore
  import opened KvMachine
  import opened KvRuns

  /** One store, from a fresh slot to a finished hook. */
  lemma {:induction false} StoreFresh(w: World, k: Key) returns (run: seq<Act>)
    requires w.hook == NoHook && w.held == [] && w.m.numAllocated < w.m.numBlocks && !Has(w.m.blocks, k)
    requires w.saver.Idle? || w.saver.HasAllocated?
    ensures Runs(w, run)
    ensures var z := After(w, run);
            && z.m == w.m.(blocks := w.m.blocks + [Entry(k, w.m.numAllocated, -1)],
                           numAllocated := w.m.numAllocated + 1, pending := w.m.pending + 1)
            && z.held == [] && z.hook == NoHook && z.dirty == w.dirty + 1
            && z.saver == w.saver && z.file == w.file && z.cfg == w.cfg
            && z.disk == w.disk[w.m.numAllocated := Writing(k)]
            && (w.durable == None ==> z.durable == None)
  {
    assert [] + [Manager(Bump)] == [Manager(Bump)];
    Snoc(w, [], Manager(Bump));
    run := [Manager(Bump)];
    assert After(w, run).held == [w.m.numAllocated];
    Snoc(w, run, Manager(Insert(k, 0)));
    run := run + [Manager(Insert(k, 0))];
    Snoc(w, run, HookLoad);
    run := run + [HookLoad];
    Snoc(w, run, HookStore);
    run := run + [HookStore];
  }

  lemma {:induction false} OneReady(k0: Key, k1: Key)
    ensures ReadyPairs([Entry(k1, 0, 0)]) == [(k1, 0)]
    ensures ReadyPairs([Entry(k0, 0, -1), Entry(k1, 1, 0)]) == [(k1, 1)]
  {
    assert Init([Entry(k1, 0, 0)]) == [];
    assert Init([Entry(k0, 0, -1), Entry(k1, 1, 0)]) == [Entry(k0, 0, -1)];
    assert Init([Entry(k0, 0, -1)]) == [];
  }

  /** A fresh slot is stored to and completed between the saver's first read and the others. */
  lemma {:induction false} OverlappedSave(cfg: Config, k0: Key, k1: Key) returns (run: seq<Act>)
    requires k0 != k1 && cfg.numBlocks == 2
    ensures Runs(Start(cfg, map[]), run)
    ensures var z := After(Start(cfg, map[]), run);
            z.file == Json(PayloadOf(Capture(cfg.fingerprint, 2, 1, [], [(k1, 1)])))
  {
    var w := Start(cfg, map[]);
    run := StoreFresh(w, k0);
    var more := SaveStarts(After(w, run));
    Extend(w, run, more); run := run + more;
    assert After(w, run).m.blocks == [Entry(k0, 0, -1)];
    more := StoreFresh(After(w, run), k1);
    Extend(w, run, more); run := run + more;
    assert After(w, run).m.blocks == [Entry(k0, 0, -1), Entry(k1, 1, -1)];
    Snoc(w, run, Manager(Complete(1))); run := run + [Manager(Complete(1))];
    assert After(w, run).m.blocks == [Entry(k0, 0, -1), Entry(k1, 1, 0)];
    OneReady(k0, k1);
    more := SaveFinishes(After(w, run));
    Extend(w, run, more); run := run + more;
  }

  /** The restart from that file: slot 1 is live and the bump counter stands at 1. */
  lemma {:induction false} OverlappedRestart(cfg: Config, k0: Key, k1: Key) returns (run: seq<Act>)
    requires k0 != k1 && cfg.numBlocks == 2
    ensures Runs(Start(cfg, map[]), run)
    ensures var z := After(Start(cfg, map[]), run);
            && z.m == Mgr(2, [Entry(k1, 1, 0)], [], 1, 1, 0)
            && z.held == [] && z.saver.Idle? && z.hook == NoHook
  {
    var w, c := Start(cfg, map[]), Capture(cfg.fingerprint, 2, 1, [], [(k1, 1)]);
    run := OverlappedSave(cfg, k0, k1);
    Snoc(w, run, Restart(cfg));
    run := run + [Restart(cfg)];
    RestoreOfSaved(cfg, c);
    assert AsEntries(c.entries) == [Entry(k1, 1, 0)];
    assert Rebuilt(c) == Mgr(2, [Entry(k1, 1, 0)], [], 1, 1, 0);
  }

  /** After it the bump counter hands slot 1 out again, and two keys own it. */
  lemma {:induction false} OverlapAliases(fp: string, k0: Key, k1: Key, k2: Key) returns (run: seq<Act>)
    requires k0 != k1 && k1 != k2
    ensures Runs(Start(Config(fp, 2), map[]), run)
    ensures After(Start(Config(fp, 2), map[]), run).m.blocks == [Entry(k1, 1, 0), Entry(k2, 1, -1)]
    ensures At(After(Start(Config(fp, 2), map[]), run).disk, 1) == Writing(k2)
  {
    var w := Start(Config(fp, 2), map[]);
    run := OverlappedRestart(Config(fp, 2), k0, k1);
    var z := After(w, run);
    assert z.m.blocks[0] == Entry(k1, 1, 0);
    var more := StoreFresh(z, k2);
    Extend(w, run, more);
    run := run + more;
  }

  lemma {:induction false} StepsTo(w: World, a: MAct, m: Mgr, held: seq<int>)
    requires Can(w, Manager(a)) && w.saver.Idle? && !a.Insert? && !a.Abort?
    requires NextM(w.m, w.held, a) == m && NextHeld(w.m, w.held, a) == held
    ensures Runs(w, [Manager(a)])
    ensures var z := After(w, [Manager(a)]);
            && z.m == m && z.held == held && z.hook == NoHook && z.saver == w.saver && z.dirty == w.dirty
            && z.disk == DiskAfter(w.m, w.held, w.disk, a) && z.file == w.file && z.cfg == w.cfg
  {
    assert [] + [Manager(a)] == [Manager(a)];
    Snoc(w, [], Manager(a));
  }

  lemma {:induction false} StoreOne(cfg: Config, k: Key) returns (run: seq<Act>)
    requires cfg.numBlocks == 1
    ensures Runs(Start(cfg, map[]), run)
    ensures var z := After(Start(cfg, map[]), run);
            && z.m == Mgr(1, [Entry(k, 0, 0)], [], 1, 1, 0) && z.held == [] && z.hook == NoHook
            && z.saver == Idle(false) && z.dirty == 1 && z.cfg == cfg
  {
    var w := Start(cfg, map[]);
    run := StoreFresh(w, k);
    assert After(w, run).m == Mgr(1, [Entry(k, 0, -1)], [], 1, 0, 1);
    StepsTo(After(w, run), Complete(0), Mgr(1, [Entry(k, 0, 0)], [], 1, 1, 0), []);
    Extend(w, run, [Manager(Complete(0))]);
    run := run + [Manager(Complete(0))];
  }

  /** One store and one clean save in a tier of a single slot. */
  lemma {:induction false} StoreAndSave(cfg: Config, k: Key) returns (run: seq<Act>)
    requires cfg.numBlocks == 1
    ensures Runs(Start(cfg, map[]), run)
    ensures var z := After(Start(cfg, map[]), run);
            && z.m == Mgr(1, [Entry(k, 0, 0)], [], 1, 1, 0) && z.held == [] && z.hook == NoHook && z.saver == Idle(true)
            && z.file == Json(PayloadOf(Capture(cfg.fingerprint, 1, 1, [], [(k, 0)])))
  {
    var w := Start(cfg, map[]);
    run := StoreOne(cfg, k);
    var more := SaveStarts(After(w, run));
    Extend(w, run, more); run := run + more;
    OneReady(k, k);
    more := SaveFinishes(After(w, run));
    Extend(w, run, more); run := run + more;
  }

  /** The only item is evicted and its slot taken again through the free list. */
  lemma {:induction false} EvictAndReuse(w: World, k: Key) returns (run: seq<Act>)
    requires w.m == Mgr(1, [Entry(k, 0, 0)], [], 1, 1, 0) && w.held == [] && w.hook == NoHook && w.saver.Idle?
    ensures Runs(w, run)
    ensures var z := After(w, run);
            && z.m.blocks == [] && z.held == [0] && z.hook == NoHook && z.saver.Idle?
            && z.disk == w.disk && z.file == w.file
  {
    run := [Manager(Evict(0))];
    StepsTo(w, Evict(0), Mgr(1, [], [], 1, 0, 0), [0]);
    var w1 := After(w, run);
    StepsTo(w1, Release(0), Mgr(1, [], [0], 1, 0, 0), []);
    var w2 := After(w1, [Manager(Release(0))]);
    StepsTo(w2, Reuse, Mgr(1, [], [], 1, 0, 0), [0]);
    Extend(w1, [Manager(Release(0))], [Manager(Reuse)]);
    Extend(w, run, [Manager(Release(0))] + [Manager(Reuse)]);
    run := run + ([Manager(Release(0))] + [Manager(Reuse)]);
  }

  lemma {:induction false} StoreHeld(w: World, s: int, k: Key) returns (run: seq<Act>)
    requires w.m.blocks == [] && w.held == [s] && w.hook == NoHook && w.saver.Idle?
    ensures Runs(w, run)
    ensures After(w, run).disk == w.disk[s := Writing(k)][s := Done(k)] && After(w, run).file == w.file
  {
    run := [] + [Manager(Insert(k, 0))];
    Snoc(w, [], Manager(Insert(k, 0)));
    Snoc(w, run, HookLoad); run := run + [HookLoad];
    Snoc(w, run, HookStore); run := run + [HookStore];
    assert After(w, run).m.blocks == [Entry(k, s, -1)];
    Snoc(w, run, Manager(Complete(0))); run := run + [Manager(Complete(0))];
  }

  /** A slot reused between the last save and the crash: after the restart the old key is a hit on
      the new key's bytes. */
  lemma {:induction false} StaleHit(fp: string, k0: Key, k1: Key) returns (run: seq<Act>)
    requires k0 != k1
    ensures Runs(Start(Config(fp, 1), map[]), run)
    ensures After(Start(Config(fp, 1), map[]), run).m.blocks == [Entry(k0, 0, 0)]
    ensures At(After(Start(Config(fp, 1), map[]), run).disk, 0) == Done(k1)
  {
    var cfg := Config(fp, 1);
    var w := Start(cfg, map[]);
    run := StoreAndSave(cfg, k0);
    var more := EvictAndReuse(After(w, run), k0);
    Extend(w, run, more); run := run + more;
    more := StoreHeld(After(w, run), 0, k1);
    Extend(w, run, more); run := run + more;
    Snoc(w, run, Restart(cfg)); run := run + [Restart(cfg)];
    RestoreOfSaved(cfg, Capture(fp, 1, 1, [], [(k0, 0)]));
    assert AsEntries([(k0, 0)]) == [Entry(k0, 0, 0)];
  }
}
