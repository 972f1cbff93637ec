/** What holds over every run with no condition on the restarts, aliased or stale ones included:
    the index, the counters, the mutation count and the file on disk never depend on who owns a slot. */
module KvDurable {
  import opened Common
  import opened KvIndex
  import opened KvManager
  import opened KvRestore
  import opened KvMachine
  import opened KvSafety
  import opened KvRestart

  // ---------------------------------------------------------------- the invariant

  ghost predicate SinceKeys(sn: Since, b: seq<Entry>) {
    && DistinctPairKeys(sn.cap.entries)
    && DistinctKeys(sn.index)
    && PairsOk(sn.cap.entries, sn.index)
    && DerivedOk(sn, b)
  }

  ghost predicate SaverKeys(w: World) {
    match w.saver
    case Reading(_, _, base, pos, got) =>
      ReadingOk(w.saver, w.m.blocks) && Walked(base, w.m.blocks, pos, got) && w.hook.NoHook?
    case Captured(sn) => SinceKeys(sn, w.m.blocks)
    case Written(sn) => SinceKeys(sn, w.m.blocks) && w.tmp == Json(PayloadOf(sn.cap))
    case _ => true
  }

  ghost predicate IndexOk(m: Mgr) {
    DistinctKeys(m.blocks) && Counted(m) && forall e :: e in m.blocks ==> e.ref >= -1
  }

  ghost predicate Durable(w: World) {
    && IndexOk(w.m)
    && SaverKeys(w)
    && FileWhole(w)
    && (w.durable.Some? ==> SinceKeys(w.durable.value, w.m.blocks))
    && DirtyOk(w)
  }

  // ---------------------------------------------------------------- every step keeps it

  lemma {:induction false} SinceKeysKept(sn: Since, m: Mgr, held: seq<int>, a: MAct)
    requires Enabled(m, held, a) && SinceKeys(sn, m.blocks)
    ensures SinceKeys(SinceAfter(sn, m, held, a), NextM(m, held, a).blocks)
    ensures SinceAfter(sn, m, held, a).cap == sn.cap
  {
    DerivedKept(sn, m, held, a);
    assert SinceAfter(sn, m, held, a).cap == sn.cap && SinceAfter(sn, m, held, a).index == sn.index;
  }

  lemma {:induction false} ManagerReadingKeys(w: World, a: MAct)
    requires Can(w, Manager(a)) && SaverKeys(w) && w.saver.Reading? && !a.Evict? && !a.Touch?
    ensures SaverKeys(ManagerStep(w, a))
  {
    ReadingKept(w.saver, w.m, w.held, a);
    WalkedKept(w.saver.base, w.m.blocks, NextM(w.m, w.held, a).blocks, w.saver.pos, w.saver.got);
  }

  lemma {:induction false} ManagerSaverKeys(w: World, a: MAct)
    requires Can(w, Manager(a)) && SaverKeys(w)
    ensures SaverKeys(ManagerStep(w, a))
  {
    if w.saver.Captured? || w.saver.Written? {
      SinceKeysKept(w.saver.since, w.m, w.held, a);
    } else if w.saver.Reading? {
      if !a.Evict? && !a.Touch? { ManagerReadingKeys(w, a); }
    } else {
      assert ManagerStep(w, a).saver == w.saver;
    }
  }

  lemma {:induction false} ManagerDirtyKept(w: World, a: MAct)
    requires Can(w, Manager(a)) && DirtyOk(w)
    ensures DirtyOk(ManagerStep(w, a))
  {
  }

  lemma {:induction false} ManagerDurable(w: World, a: MAct)
    requires Can(w, Manager(a)) && Durable(w)
    ensures Durable(Step(w, Manager(a)))
  {
    KeysKept(w.m, w.held, a);
    CountedKept(w.m, w.held, a);
    ManagerSaverKeys(w, a);
    ManagerDirtyKept(w, a);
    if w.durable.Some? { SinceKeysKept(w.durable.value, w.m, w.held, a); }
  }

  lemma {:induction false} CaptureKeys(w: World)
    requires Can(w, SaveEntries) && SaverKeys(w)
    ensures SinceKeys(CaptureOf(w), w.m.blocks)
  {
    var sn := CaptureOf(w);
    forall p | p in sn.cap.entries
      ensures exists e :: e in sn.index && p == (e.key, e.slot)
    {
      var x := GotAt(w, p);
      assert sn.index[x] in sn.index;
    }
    forall e | e in sn.index && e.Ready()
      ensures (e.key, e.slot) in sn.cap.entries
    {
      var i :| 0 <= i < |sn.index| && sn.index[i] == e;
    }
    CaptureDerived(w);
  }

  lemma {:induction false} EntriesDurable(w: World)
    requires Can(w, SaveEntries) && Durable(w)
    ensures Durable(Step(w, SaveEntries))
  {
    CaptureKeys(w);
  }

  lemma {:induction false} VisitDurable(w: World)
    requires Can(w, SaveVisit) && Durable(w)
    ensures Durable(Step(w, SaveVisit))
  {
    VisitReads(w.saver, w.m.blocks);
    WalkedOn(w.saver, w.m.blocks);
  }

  lemma {:induction false} ColdDurable(w: World, cfg: Config)
    requires Durable(w) && !Warm(w, cfg)
    ensures Durable(RestartStep(w, cfg))
  {
    RestartOutcome(w, cfg);
    assert RestartStep(w, cfg).m == Fresh(cfg.numBlocks);
  }

  /** A capture just restored describes the rebuilt index exactly. */
  lemma {:induction false} RestoredKeys(sn: Since)
    requires DistinctPairKeys(sn.cap.entries)
    ensures var b := AsEntries(sn.cap.entries);
            SinceKeys(sn.(index := b, hooked := false, evicted := {}), b) && IndexOk(Rebuilt(sn.cap))
  {
    RestoredPairs(sn.cap.entries);
    AsEntriesReady(sn.cap.entries);
  }

  lemma {:induction false} WarmDurable(w: World, cfg: Config)
    requires Durable(w) && Warm(w, cfg)
    ensures Durable(RestartStep(w, cfg))
  {
    var z, sn := RestartStep(w, cfg), w.durable.value;
    RestartOutcome(w, cfg);
    if Rebuilt(sn.cap) == Fresh(cfg.numBlocks) {
      assert z.m == Fresh(cfg.numBlocks) && z.durable == Some(sn.(hooked := true));
    } else {
      RestoredKeys(sn);
      assert z.m == Rebuilt(sn.cap);
      assert z.durable == Some(sn.(index := z.m.blocks, hooked := false, evicted := {}));
    }
  }

  lemma {:induction false} SaverDurable(w: World, a: Act)
    requires Can(w, a) && Durable(w) && !a.Manager? && !a.Restart? && !a.SaveEntries? && !a.SaveVisit?
    ensures Durable(Step(w, a))
  {
  }

  lemma {:induction false} StepDurable(w: World, a: Act)
    requires Can(w, a) && Durable(w)
    ensures Durable(Step(w, a))
  {
    match a
    case Manager(x) => ManagerDurable(w, x);
    case SaveVisit => VisitDurable(w);
    case SaveEntries => EntriesDurable(w);
    case Restart(c) => if Warm(w, c) { WarmDurable(w, c); } else { ColdDurable(w, c); }
    case _ => SaverDurable(w, a);
  }

  lemma {:induction false} EveryRunDurable(cfg: Config, disk: map<int, Content>, run: seq<Act>)
    requires Runs(Start(cfg, disk), run)
    ensures Durable(After(Start(cfg, disk), run))
  {
    if run != [] {
      EveryRunDurable(cfg, disk, Init(run));
      StepDurable(After(Start(cfg, disk), Init(run)), Last(run));
    }
  }

  /** In every run the evictable and pending counts are exact, after restarts of any kind too. */
  lemma {:induction false} CountersAgree(cfg: Config, disk: map<int, Content>, run: seq<Act>)
    requires Runs(Start(cfg, disk), run)
    ensures var m := After(Start(cfg, disk), run).m;
            && m.evictable == |set i | 0 <= i < |m.blocks| && m.blocks[i].ref == 0|
            && m.pending == |set i | 0 <= i < |m.blocks| && m.blocks[i].ref == -1|
  {
    EveryRunDurable(cfg, disk, run);
    CountRefIs(After(Start(cfg, disk), run).m.blocks, 0);
    CountRefIs(After(Start(cfg, disk), run).m.blocks, -1);
  }

  // ---------------------------------------------------------------- no lost mutation

  /** The file holds the hooked index: no insert or remove hook has run since it was read, every live
      item comes from the captured index and is durable unless it was not ready there, and every
      durable pair is live unless it was evicted since. */
  ghost predicate NothingLost(w: World) {
    && w.durable.Some? && w.file == Json(PayloadOf(w.durable.value.cap))
    && var sn := w.durable.value;
       && !sn.hooked
       && (forall e :: e in w.m.blocks ==>
             exists c :: c in sn.index && c.key == e.key && c.slot == e.slot
               && ((e.key, e.slot) !in sn.cap.entries ==> !c.Ready()))
       && (forall p :: p in sn.cap.entries ==>
             p.0 in sn.evicted || exists e :: e in w.m.blocks && p == (e.key, e.slot))
  }

  lemma {:induction false} DurablePairsLive(w: World, p: (Key, int))
    requires Durable(w) && w.durable.Some? && !w.durable.value.hooked
    requires p in w.durable.value.cap.entries && p.0 !in w.durable.value.evicted
    ensures exists e :: e in w.m.blocks && p == (e.key, e.slot)
  {
    var sn := w.durable.value;
    var c :| c in sn.index && p == (c.key, c.slot);
    var i :| 0 <= i < |w.m.blocks| && w.m.blocks[i].key == c.key;
    var e := w.m.blocks[i];
    assert e in w.m.blocks;
    var d :| d in sn.index && d.key == e.key && d.slot == e.slot;
    var x :| 0 <= x < |sn.index| && sn.index[x] == c;
    var y :| 0 <= y < |sn.index| && sn.index[y] == d;
    assert x == y;
  }

  /** In every run: saver idle, its last attempt good, `_dirty` zero and no hook running mean that
      nothing is lost. */
  lemma {:induction false} NoLostMutation(cfg: Config, disk: map<int, Content>, run: seq<Act>)
    requires Runs(Start(cfg, disk), run)
    ensures var w := After(Start(cfg, disk), run);
            w.saver == Idle(true) && w.dirty == 0 && w.hook == NoHook ==> NothingLost(w)
  {
    EveryRunDurable(cfg, disk, run);
    var w := After(Start(cfg, disk), run);
    if w.saver == Idle(true) && w.dirty == 0 && w.hook == NoHook {
      forall p | p in w.durable.value.cap.entries && p.0 !in w.durable.value.evicted
        ensures exists e :: e in w.m.blocks && p == (e.key, e.slot)
      {
        DurablePairsLive(w, p);
      }
    }
  }

  // ---------------------------------------------------------------- the file is never torn

  /** The step at which the newest capture of the run was complete, and the one whose capture was
      last renamed to the index path. */
  function CapturedAt(run: seq<Act>): (n: nat)
    ensures n <= |run|
  {
    if run == [] then 0 else if Last(run).SaveEntries? then |run| - 1 else CapturedAt(Init(run))
  }

  function DurableAt(run: seq<Act>): (n: nat)
    ensures n <= |run|
  {
    if run == [] then 0 else if Last(run).SaveReplace? then CapturedAt(Init(run)) else DurableAt(Init(run))
  }

  /** Capture `c` is what the saver had read when step `n` of the run released the lock. */
  ghost predicate TakenAt(w: World, run: seq<Act>, n: nat, c: Capture)
    requires Runs(w, run)
  {
    && n < |run| && run[n] == SaveEntries
    && Runs(w, run[..n]) && Can(After(w, run[..n]), SaveEntries)
    && CaptureOf(After(w, run[..n])).cap == c
  }

  ghost predicate InFlight(w: World) {
    w.saver.Captured? || w.saver.Written?
  }

  /** Where the captures after a step come from. */
  lemma {:induction false} CaptureMoves(w: World, a: Act)
    requires Can(w, a)
    ensures var z := Step(w, a);
            && (InFlight(z) ==> (InFlight(w) && z.saver.since.cap == w.saver.since.cap && !a.SaveEntries?)
                                || (a.SaveEntries? && z.saver.since.cap == CaptureOf(w).cap))
            && (z.saver.Written? ==> (w.saver.Written? && z.tmp == w.tmp)
                                     || z.tmp == Json(PayloadOf(z.saver.since.cap)))
            && (z.durable.Some? ==>
                  (!a.SaveReplace? && w.durable.Some? && z.durable.value.cap == w.durable.value.cap && z.file == w.file)
                  || (a.SaveReplace? && w.saver.Written?
                      && z.durable.value.cap == w.saver.since.cap && z.file == w.tmp))
            && (z.durable.None? ==> w.durable.None? && z.file == w.file)
  {
  }

  lemma {:induction false} TakenStays(w: World, run: seq<Act>, n: nat, c: Capture)
    requires Runs(w, run) && run != [] && TakenAt(w, Init(run), n, c)
    ensures TakenAt(w, run, n, c)
  {
    assert Init(run)[..n] == run[..n];
  }

  lemma {:induction false} TakenNow(w: World, run: seq<Act>)
    requires Runs(w, run) && run != [] && Last(run).SaveEntries?
    ensures TakenAt(w, run, |run| - 1, CaptureOf(After(w, Init(run))).cap)
  {
    assert run[..|run| - 1] == Init(run);
  }

  /** At every point of every run, crash points included, the named path is absent or exactly the one
      complete capture that the run took at its last replaced save. */
  lemma {:induction false} FileIsOneEarlierCapture(cfg: Config, disk: map<int, Content>, run: seq<Act>)
    requires Runs(Start(cfg, disk), run)
    ensures var w := After(Start(cfg, disk), run);
            && (match w.durable
                case None => w.file == Missing
                case Some(sn) => w.file == Json(PayloadOf(sn.cap))
                                 && TakenAt(Start(cfg, disk), run, DurableAt(run), sn.cap))
            && (InFlight(w) ==> TakenAt(Start(cfg, disk), run, CapturedAt(run), w.saver.since.cap))
            && (w.saver.Written? ==> w.tmp == Json(PayloadOf(w.saver.since.cap)))
  {
    if run != [] {
      var w0 := Start(cfg, disk);
      FileIsOneEarlierCapture(cfg, disk, Init(run));
      var w, z := After(w0, Init(run)), After(w0, run);
      CaptureMoves(w, Last(run));
      if Last(run).SaveEntries? {
        TakenNow(w0, run);
      } else if InFlight(z) {
        TakenStays(w0, run, CapturedAt(Init(run)), w.saver.since.cap);
      }
      if z.durable.Some? {
        TakenStays(w0, run, DurableAt(run), z.durable.value.cap);
      }
    }
  }

  /** A restart at any point of any run never raises: it is cold with nothing touched, or it is the
      rebuild of the one capture on disk. */
  lemma {:induction false} RestartsNeverRaise(cfg: Config, disk: map<int, Content>, run: seq<Act>, now: Config)
    requires Runs(Start(cfg, disk), run)
    ensures var w := After(Start(cfg, disk), run);
            Restore(now, Fresh(now.numBlocks), w.file) ==
            if Warm(w, now) then (Returned(|w.durable.value.cap.entries|), Rebuilt(w.durable.value.cap))
            else (Returned(0), Fresh(now.numBlocks))
  {
    EveryRunDurable(cfg, disk, run);
    RestartOutcome(After(Start(cfg, disk), run), now);
  }

  // ---------------------------------------------------------------- what a restart makes addressable

  lemma {:induction false} PairIffEntry(es: seq<(Key, int)>, k: Key, s: int)
    ensures Entry(k, s, 0) in AsEntries(es) <==> (k, s) in es
  {
    var b := AsEntries(es);
    if (k, s) in es {
      var i :| 0 <= i < |es| && es[i] == (k, s);
      assert b[i] == Entry(k, s, 0);
    }
    if Entry(k, s, 0) in b {
      var i :| 0 <= i < |b| && b[i] == Entry(k, s, 0);
      assert es[i] == (k, s);
    }
  }

  /** The pairs `es` that the saver is about to hand over are ready items of the index, in its order,
      and include every item that was ready when the saver took the lock. */
  ghost predicate ReadyWhenRead(v: World, es: seq<(Key, int)>) {
    && v.saver.Reading? && |v.saver.base| == |v.m.blocks|
    && Walked(v.saver.base, v.m.blocks, |v.m.blocks|, es)
    && forall p :: p in es ==>
         exists i :: 0 <= i < |v.m.blocks| && v.m.blocks[i].Ready() && p == (v.m.blocks[i].key, v.m.blocks[i].slot)
  }

  lemma {:induction false} CaptureReads(v: World)
    requires SaverKeys(v) && Can(v, SaveEntries)
    ensures ReadyWhenRead(v, CaptureOf(v).cap.entries)
  {
    assert v.saver.pos == |v.m.blocks|;
    forall p | p in v.saver.got
      ensures exists i :: 0 <= i < |v.m.blocks| && v.m.blocks[i].Ready() && p == (v.m.blocks[i].key, v.m.blocks[i].slot)
    {
      var i := GotAt(v, p);
    }
  }

  /** The capture on disk, at the step of the run that took it. */
  lemma {:induction false} DurableReadThen(cfg: Config, disk: map<int, Content>, run: seq<Act>)
    requires Runs(Start(cfg, disk), run) && After(Start(cfg, disk), run).durable.Some?
    ensures Runs(Start(cfg, disk), run[..DurableAt(run)])
    ensures ReadyWhenRead(After(Start(cfg, disk), run[..DurableAt(run)]),
                          After(Start(cfg, disk), run).durable.value.cap.entries)
  {
    FileIsOneEarlierCapture(cfg, disk, run);
    EveryRunDurable(cfg, disk, run[..DurableAt(run)]);
    CaptureReads(After(Start(cfg, disk), run[..DurableAt(run)]));
  }

  /** After a warm restart at any point of any run the addressable items are exactly the captured
      pairs, all unpinned. Those were ready items when the saver read them, and include every one that
      was ready when it began to read; a key stored later is a miss. */
  lemma {:induction false} RestoredExactly(cfg: Config, disk: map<int, Content>, run: seq<Act>, now: Config,
                                           k: Key, s: int)
    requires Runs(Start(cfg, disk), run) && Warm(After(Start(cfg, disk), run), now)
    ensures var w := After(Start(cfg, disk), run);
            var sn, b := w.durable.value, RestartStep(w, now).m.blocks;
            && (Entry(k, s, 0) in b <==> (k, s) in sn.cap.entries)
            && (forall e :: e in b ==> e.ref == 0)
            && Runs(Start(cfg, disk), run[..DurableAt(run)])
            && ReadyWhenRead(After(Start(cfg, disk), run[..DurableAt(run)]), sn.cap.entries)
  {
    EveryRunDurable(cfg, disk, run);
    DurableReadThen(cfg, disk, run);
    var w := After(Start(cfg, disk), run);
    RestartOutcome(w, now);
    PairIffEntry(w.durable.value.cap.entries, k, s);
    assert RestartStep(w, now).m.blocks == AsEntries(w.durable.value.cap.entries);
  }
}
