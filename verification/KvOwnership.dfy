/** Who owns a slot: no slot is ever handed out twice, over every run whose restarts find an in-range
    file, stale or not. What the slots contain is another matter, settled in KvContents. */
module KvOwnership {
  import opened Common
  import opened KvIndex
  import opened KvManager
  import opened KvRestore
  import opened KvMachine
  import opened KvSafety
  import opened KvRestart
  import opened KvDurable

  // ---------------------------------------------------------------- the invariant

  ghost predicate FreeReadOk(w: World, n: int, free: seq<int>) {
    && 0 <= n <= w.m.numAllocated
    && Distinct(free)
    && (forall x :: x in free ==> 0 <= x < w.m.numAllocated)
  }

  ghost predicate SaverOwned(w: World) {
    match w.saver
    case HasAllocated(n) => 0 <= n <= w.m.numAllocated
    case HasFree(n, free) => FreeReadOk(w, n, free)
    case Reading(n, free, _, _, _) => FreeReadOk(w, n, free)
    case Captured(sn) => CapOk(sn.cap)
    case Written(sn) => CapOk(sn.cap)
    case _ => true
  }

  /** Every slot has one owner, and so it will after a restart from any capture that is in range. */
  ghost predicate Owned(w: World) {
    && w.m.numBlocks == w.cfg.numBlocks
    && MgrOk(w.m, w.held)
    && SaverOwned(w)
    && (w.durable.Some? ==> CapOk(w.durable.value.cap))
  }

  // ---------------------------------------------------------------- every step keeps it

  lemma {:induction false} StartOwned(cfg: Config, disk: map<int, Content>)
    ensures Owned(Start(cfg, disk))
  {
    FreshOk(cfg.numBlocks);
  }

  lemma {:induction false} ManagerOwned(w: World, a: MAct)
    requires Can(w, Manager(a)) && Owned(w)
    ensures Owned(Step(w, Manager(a)))
  {
    MgrOkKept(w.m, w.held, a);
  }

  /** Whatever ran between the saver's reads, the captured pairs have distinct keys and slots. */
  lemma {:induction false} CaptureOwned(w: World)
    requires Can(w, SaveEntries) && Durable(w) && Owned(w)
    ensures CapOk(CaptureOf(w).cap)
    ensures forall p :: p in CaptureOf(w).cap.entries ==> p.1 < w.m.numAllocated
  {
    var es := CaptureOf(w).cap.entries;
    forall i, j | 0 <= i < j < |es|
      ensures es[i].1 != es[j].1
    {
      var x := GotAt(w, es[i]);
      var y := GotAt(w, es[j]);
      LiveSlotsOwned(w.m, w.held, x);
    }
    forall p | p in es
      ensures 0 <= p.1 < w.m.numAllocated
    {
      var x := GotAt(w, p);
      LiveSlotsOwned(w.m, w.held, x);
    }
  }

  lemma {:induction false} SaverStepOwned(w: World, a: Act)
    requires Can(w, a) && Durable(w) && Owned(w) && !a.Manager? && !a.Restart?
    ensures Owned(Step(w, a))
  {
    if a.SaveFree? {
      FreeSlotsOwned(w.m, w.held);
    } else if a.SaveEntries? {
      CaptureOwned(w);
    }
  }

  /** The restart does not read a capture with a slot beyond the captured bump counter. */
  ghost predicate FindsInRange(w: World, cfg: Config) {
    Warm(w, cfg) ==> InRange(w.durable.value.cap)
  }

  /** After a restart every slot has one owner exactly when the file was in range. */
  lemma {:induction false} RestartOwnedIff(w: World, cfg: Config)
    requires Durable(w) && Owned(w)
    ensures MgrOk(RestartStep(w, cfg).m, []) <==> FindsInRange(w, cfg)
  {
    RestartOutcome(w, cfg);
    FreshOk(cfg.numBlocks);
    if Warm(w, cfg) { RebuiltOkIff(w.durable.value.cap); }
  }

  lemma {:induction false} RestartOwned(w: World, cfg: Config)
    requires Durable(w) && Owned(w) && FindsInRange(w, cfg)
    ensures Owned(Step(w, Restart(cfg)))
  {
    RestartOwnedIff(w, cfg);
    RestartOutcome(w, cfg);
  }

  lemma {:induction false} StepOwned(w: World, a: Act)
    requires Can(w, a) && Durable(w) && Owned(w) && (a.Restart? ==> FindsInRange(w, a.cfg))
    ensures Owned(Step(w, a))
  {
    match a
    case Manager(x) => ManagerOwned(w, x);
    case Restart(c) => RestartOwned(w, c);
    case _ => SaverStepOwned(w, a);
  }

  // ---------------------------------------------------------------- every run

  ghost predicate InRangeRestarts(w: World, run: seq<Act>)
    requires Runs(w, run)
  {
    run != [] ==>
      && InRangeRestarts(w, Init(run))
      && (Last(run).Restart? ==> FindsInRange(After(w, Init(run)), Last(run).cfg))
  }

  lemma {:induction false} RunOwned(w: World, run: seq<Act>)
    requires Durable(w) && Owned(w) && Runs(w, run) && InRangeRestarts(w, run)
    ensures Durable(After(w, run)) && Owned(After(w, run))
  {
    if run != [] {
      RunOwned(w, Init(run));
      StepDurable(After(w, Init(run)), Last(run));
      StepOwned(After(w, Init(run)), Last(run));
    }
  }

  /** No two keys share a slot, and the slot an allocation would return belongs to no key. */
  ghost predicate Unaliased(w: World) {
    && (forall i, j :: 0 <= i < j < |w.m.blocks| ==>
          w.m.blocks[i].slot != w.m.blocks[j].slot && w.m.blocks[i].key != w.m.blocks[j].key)
    && (Can(w, Manager(Bump)) ==> forall e :: e in w.m.blocks ==> e.slot != w.m.numAllocated)
    && (Can(w, Manager(Reuse)) ==> forall e :: e in w.m.blocks ==> e.slot != Last(w.m.free))
  }

  lemma {:induction false} OwnedIsUnaliased(w: World)
    requires Owned(w)
    ensures Unaliased(w)
  {
    forall i | 0 <= i < |w.m.blocks|
      ensures w.m.blocks[i].slot < w.m.numAllocated && w.m.blocks[i].slot !in w.m.free
      ensures forall j :: i < j < |w.m.blocks| ==> w.m.blocks[i].slot != w.m.blocks[j].slot
    {
      LiveSlotsOwned(w.m, w.held, i);
    }
  }

  /** From a cold start, through any interleaving of the two threads, any number of crashes and any
      restarts from in-range files, stale ones included, no slot has two owners. */
  lemma {:induction false} EveryRunOwned(cfg: Config, disk: map<int, Content>, run: seq<Act>)
    requires Runs(Start(cfg, disk), run) && InRangeRestarts(Start(cfg, disk), run)
    ensures var w := After(Start(cfg, disk), run);
            Durable(w) && Owned(w) && MgrOk(w.m, w.held) && Unaliased(w)
  {
    StartOwned(cfg, disk);
    RunOwned(Start(cfg, disk), run);
    OwnedIsUnaliased(After(Start(cfg, disk), run));
  }

  // ---------------------------------------------------------------- when captures are in range

  /** A fresh slot is bumped while the saver is between its first and its last read. */
  ghost predicate Overlaps(w: World, a: Act) {
    a == Manager(Bump) && (w.saver.HasAllocated? || w.saver.HasFree? || w.saver.Reading?)
  }

  ghost predicate NoOverlap(w: World, run: seq<Act>)
    requires Runs(w, run)
  {
    run != [] ==> NoOverlap(w, Init(run)) && !Overlaps(After(w, Init(run)), Last(run))
  }

  ghost predicate SaverInRange(w: World) {
    match w.saver
    case HasAllocated(n) => n == w.m.numAllocated
    case HasFree(n, _) => n == w.m.numAllocated
    case Reading(n, _, _, _, _) => n == w.m.numAllocated
    case Captured(sn) => InRange(sn.cap)
    case Written(sn) => InRange(sn.cap)
    case _ => true
  }

  ghost predicate RangeInv(w: World) {
    SaverInRange(w) && (w.durable.Some? ==> InRange(w.durable.value.cap))
  }

  /** Whatever ran between the three reads, the only captured slots that can be out of range are the
      fresh ones bumped since the first read. */
  lemma {:induction false} OnlyFreshSlotsEscape(w: World)
    requires Durable(w) && Owned(w) && Can(w, SaveEntries)
    ensures InRange(CaptureOf(w).cap) <==>
            forall s :: w.saver.n <= s < w.m.numAllocated ==> s !in w.saver.free && s !in SlotsOf(w.saver.got)
  {
    var c := CaptureOf(w).cap;
    CaptureOwned(w);
    assert forall p :: p in c.entries ==> p.1 in SlotsOf(c.entries);
    if s :| w.saver.n <= s < w.m.numAllocated && (s in w.saver.free || s in SlotsOf(w.saver.got)) {
      if s in SlotsOf(w.saver.got) {
        var p :| p in c.entries && p.1 == s;
      }
      assert !InRange(c);
    }
  }

  lemma {:induction false} RangeKept(w: World, a: Act)
    requires Durable(w) && Owned(w) && SaverInRange(w) && Can(w, a) && !Overlaps(w, a)
    ensures SaverInRange(Step(w, a))
    ensures RangeInv(w) ==> RangeInv(Step(w, a))
  {
    match a
    case SaveEntries => OnlyFreshSlotsEscape(w);
    case _ =>
  }

  /** If no fresh slot is bumped during a capture, then whatever crashes and restarts there are, stale
      files included, every file is in range and no slot ever has two owners. */
  lemma {:induction false} QuietRunsAreOwned(cfg: Config, disk: map<int, Content>, run: seq<Act>)
    requires Runs(Start(cfg, disk), run) && NoOverlap(Start(cfg, disk), run)
    ensures InRangeRestarts(Start(cfg, disk), run)
    ensures var w := After(Start(cfg, disk), run);
            Owned(w) && MgrOk(w.m, w.held) && Unaliased(w) && RangeInv(w)
  {
    var w0 := Start(cfg, disk);
    if run == [] {
      StartOwned(cfg, disk);
    } else {
      QuietRunsAreOwned(cfg, disk, Init(run));
      EveryRunOwned(cfg, disk, Init(run));
      RangeKept(After(w0, Init(run)), Last(run));
      EveryRunOwned(cfg, disk, run);
    }
  }

  lemma {:induction false} FullStep(w: World, a: Act)
    requires Can(w, a) && Owned(w) && w.m.numAllocated == w.m.numBlocks
    ensures !Overlaps(w, a)
    ensures !a.Restart? ==> Step(w, a).m.numAllocated == w.m.numBlocks == Step(w, a).m.numBlocks
  {
  }

  /** Once every slot has been bumped, every interleaving of every later capture is in range, until the
      process ends. */
  lemma {:induction false} FullTierNeverOverlaps(w: World, run: seq<Act>)
    requires Durable(w) && Owned(w) && w.m.numAllocated == w.m.numBlocks && w.saver.Idle?
    requires Runs(w, run) && forall a :: a in run ==> !a.Restart?
    ensures var z := After(w, run);
            && Durable(z) && Owned(z) && SaverInRange(z)
            && z.m.numAllocated == z.m.numBlocks
            && (Can(z, SaveEntries) ==> InRange(CaptureOf(z).cap))
    ensures NoOverlap(w, run)
  {
    if run != [] {
      assert forall a :: a in Init(run) ==> a in run;
      assert Last(run) in run;
      FullTierNeverOverlaps(w, Init(run));
      var v := After(w, Init(run));
      FullStep(v, Last(run));
      RangeKept(v, Last(run));
      StepDurable(v, Last(run));
      StepOwned(v, Last(run));
    }
    if Can(After(w, run), SaveEntries) { RangeKept(After(w, run), SaveEntries); }
  }
}
