/** How many slots the tier can still use, over every run of the step machine. */
module KvCapacity {
  import opened Common
  import opened KvIndex
  import opened KvManager
  import opened KvRestore
  import opened KvMachine
  import opened KvSafety
  import opened KvRestart
  import opened KvDurable
  import opened KvOwnership
  import opened KvContinuity

  /** Slots below the captured bump counter that the capture puts nowhere. */
  ghost function Missing(c: Capture): set<int> {
    set s | 0 <= s < c.numAllocated && s !in SlotsOf(c.entries) && s !in c.free
  }

  ghost function Range(n: nat): (r: set<int>)
    ensures |r| == n && forall s :: s in r <==> 0 <= s < n
  {
    if n == 0 then {} else Range(n - 1) + {n - 1}
  }

  lemma {:induction false} RebuiltOwns(c: Capture, s: int)
    requires CapOk(c) && InRange(c)
    ensures Pool(Rebuilt(c), [])[s] == if 0 <= s < c.numBlocks && s !in Missing(c) then 1 else 0
  {
    RebuiltPool(c, s);
    if s in SlotsOf(c.entries) {
      var p :| p in c.entries && p.1 == s;
    }
  }

  /** A rebuilt allocator owns every slot of the file but the missing ones. */
  lemma {:induction false} RebuiltSize(c: Capture)
    requires CapOk(c) && InRange(c)
    ensures |Pool(Rebuilt(c), [])| == c.numBlocks - |Missing(c)|
  {
    var kept := Range(c.numBlocks) - Missing(c);
    forall s
      ensures Pool(Rebuilt(c), [])[s] == multiset(kept)[s]
    {
      RebuiltOwns(c, s);
    }
    assert Pool(Rebuilt(c), []) == multiset(kept);
    assert Missing(c) <= Range(c.numBlocks);
  }

  /** Slots lost to the tier: what the capture of the last warm restart put nowhere; a cold start has
      lost nothing. */
  ghost function Lost(w: World, run: seq<Act>): int
    requires Runs(w, run)
  {
    if run == [] then 0
    else if Last(run).Restart? then
      if Warm(After(w, Init(run)), Last(run).cfg) then |Missing(After(w, Init(run)).durable.value.cap)| else 0
    else Lost(w, Init(run))
  }

  lemma {:induction false} RestartSize(w: World, cfg: Config)
    requires Durable(w) && Owned(w) && FindsInRange(w, cfg)
    ensures RestartStep(w, cfg).m.numBlocks == cfg.numBlocks
    ensures |Pool(RestartStep(w, cfg).m, [])| ==
            cfg.numBlocks - if Warm(w, cfg) then |Missing(w.durable.value.cap)| else 0
  {
    RestartOutcome(w, cfg);
    if Warm(w, cfg) {
      RebuiltSize(w.durable.value.cap);
    } else {
      PoolSize(Fresh(cfg.numBlocks), []);
    }
  }

  lemma {:induction false} PoolOfRun(cfg: Config, disk: map<int, Content>, run: seq<Act>)
    requires Runs(Start(cfg, disk), run) && InRangeRestarts(Start(cfg, disk), run)
    ensures var w := After(Start(cfg, disk), run);
            |Pool(w.m, w.held)| == w.m.numBlocks - Lost(Start(cfg, disk), run)
  {
    if run == [] {
      PoolSize(Fresh(cfg.numBlocks), []);
    } else {
      PoolOfRun(cfg, disk, Init(run));
      EveryRunOwned(cfg, disk, Init(run));
      var w := After(Start(cfg, disk), Init(run));
      match Last(run)
      case Manager(a) => PoolConserved(w.m, w.held, a);
      case Restart(c) => RestartSize(w, c);
      case _ =>
    }
  }

  /** In every reachable state the live and pending items, the free list, the slots in the scheduler's
      hands and the lost ones add up to the bump counter. */
  lemma {:induction false} SlotsBalance(cfg: Config, disk: map<int, Content>, run: seq<Act>)
    requires Runs(Start(cfg, disk), run) && InRangeRestarts(Start(cfg, disk), run)
    ensures var w := After(Start(cfg, disk), run);
            |w.m.blocks| + |w.m.free| + |w.held| + Lost(Start(cfg, disk), run) == w.m.numAllocated
  {
    PoolOfRun(cfg, disk, run);
    EveryRunOwned(cfg, disk, run);
    var w := After(Start(cfg, disk), run);
    PoolSize(w.m, w.held);
  }

  /** A capture that saw one manager state loses what was lost before, the pending stores and the
      slots in the scheduler's hands. */
  lemma {:induction false} ConsistentCaptureCost(cfg: Config, disk: map<int, Content>, run: seq<Act>)
    requires Runs(Start(cfg, disk), run) && InRangeRestarts(Start(cfg, disk), run)
    ensures var w := After(Start(cfg, disk), run);
            |Missing(SavedNow(w.cfg.fingerprint, w.m))| ==
            Lost(Start(cfg, disk), run) + w.m.pending + |w.held|
  {
    var w := After(Start(cfg, disk), run);
    var c := SavedNow(w.cfg.fingerprint, w.m);
    EveryRunOwned(cfg, disk, run);
    PoolOfRun(cfg, disk, run);
    RestartCost(w.cfg, w.m, w.held);
    SavedIsCapOk(w);
    SavedRebuildsSettled(w.cfg, w.m, w.held);
    RebuiltSize(c);
  }

  lemma {:induction false} SavedIsCapOk(w: World)
    requires Owned(w)
    ensures CapOk(SavedNow(w.cfg.fingerprint, w.m)) && InRange(SavedNow(w.cfg.fingerprint, w.m))
  {
    var es := ReadyPairs(w.m.blocks);
    ReadyPairsDistinct(w.m.blocks);
    FreeSlotsOwned(w.m, w.held);
    forall i, j | 0 <= i < j < |es|
      ensures es[i].1 != es[j].1
    {
      var x := ReadyAt(w.m.blocks, es[i]);
      var y := ReadyAt(w.m.blocks, es[j]);
      LiveSlotsOwned(w.m, w.held, x);
    }
    forall p | p in es
      ensures 0 <= p.1 < w.m.numAllocated
    {
      var x := ReadyAt(w.m.blocks, p);
      LiveSlotsOwned(w.m, w.held, x);
    }
  }

  lemma {:induction false} ReadyAt(b: seq<Entry>, p: (Key, int)) returns (i: nat)
    requires p in ReadyPairs(b)
    ensures i < |b| && b[i].Ready() && p == (b[i].key, b[i].slot)
  {
    ReadyPairsMember(b, p);
    i :| 0 <= i < |b| && b[i].Ready() && p == (b[i].key, b[i].slot);
  }

  lemma {:induction false} SavedRebuildsSettled(cfg: Config, m: Mgr, held: seq<int>)
    requires MgrOk(m, held) && m.numBlocks == cfg.numBlocks
    ensures Rebuilt(SavedNow(cfg.fingerprint, m)) == Settled(m)
  {
    RestartSettles(cfg, m, held);
    ReadyPairsDistinct(m.blocks);
    RestoreOfSaved(cfg, SavedNow(cfg.fingerprint, m));
  }

  // ---------------------------------------------------------------- captures of one manager state

  /** No manager step falls between the reads of a capture. */
  ghost predicate Consistent(w: World, run: seq<Act>)
    requires Runs(w, run)
  {
    run != [] ==> Consistent(w, Init(run)) && !(Last(run).Manager? && Reads(After(w, Init(run)).saver))
  }

  predicate Reads(s: Saver) {
    s.HasAllocated? || s.HasFree? || s.Reading?
  }

  /** What the saver has read so far is what the manager holds. */
  ghost predicate Still(w: World) {
    match w.saver
    case HasAllocated(n) => n == w.m.numAllocated
    case HasFree(n, free) => n == w.m.numAllocated && free == w.m.free
    case Reading(n, free, base, _, _) => n == w.m.numAllocated && free == w.m.free && base == w.m.blocks
    case _ => true
  }

  lemma {:induction false} StillKept(w: World, a: Act)
    requires Can(w, a) && Still(w) && !(a.Manager? && Reads(w.saver))
    ensures Still(Step(w, a))
  {
  }

  lemma {:induction false} ConsistentRuns(cfg: Config, disk: map<int, Content>, run: seq<Act>)
    requires Runs(Start(cfg, disk), run) && Consistent(Start(cfg, disk), run)
    ensures Still(After(Start(cfg, disk), run)) && NoOverlap(Start(cfg, disk), run)
  {
    if run != [] {
      ConsistentRuns(cfg, disk, Init(run));
      StillKept(After(Start(cfg, disk), Init(run)), Last(run));
    }
  }

  lemma {:induction false} StillIsSaved(w: World)
    requires Durable(w) && Owned(w) && Still(w) && Can(w, SaveEntries)
    ensures CaptureOf(w).cap == SavedNow(w.cfg.fingerprint, w.m)
  {
    var b := w.m.blocks;
    WalkedExact(b, b, |b|, w.saver.got);
    assert b[..|b|] == b;
  }

  lemma {:induction false} PrefixConsistent(w: World, run: seq<Act>, n: nat)
    requires Runs(w, run) && n <= |run|
    ensures Runs(w, run[..n])
    ensures Consistent(w, run) ==> Consistent(w, run[..n])
  {
    if n == |run| {
      assert run[..n] == run;
    } else {
      PrefixConsistent(w, Init(run), n);
      assert Init(run)[..n] == run[..n];
    }
  }

  /** The state whose capture is on disk after the run. */
  ghost function SavedState(w: World, run: seq<Act>): World
    requires Runs(w, run)
  {
    PrefixConsistent(w, run, DurableAt(run));
    After(w, run[..DurableAt(run)])
  }

  /** If no manager step falls between the reads of any capture, then over every run and at every point
      the file on disk holds exactly one earlier manager state: keys in recency order, slots, free list
      in order and bump counter. */
  lemma {:induction false} FileIsOneManagerState(cfg: Config, disk: map<int, Content>, run: seq<Act>)
    requires Runs(Start(cfg, disk), run) && Consistent(Start(cfg, disk), run)
    requires After(Start(cfg, disk), run).durable.Some?
    ensures var v := SavedState(Start(cfg, disk), run);
            && Owned(v)
            && After(Start(cfg, disk), run).durable.value.cap == SavedNow(v.cfg.fingerprint, v.m)
  {
    var w0, at := Start(cfg, disk), DurableAt(run);
    FileIsOneEarlierCapture(cfg, disk, run);
    PrefixConsistent(w0, run, at);
    ConsistentRuns(cfg, disk, run[..at]);
    QuietRunsAreOwned(cfg, disk, run[..at]);
    EveryRunDurable(cfg, disk, run[..at]);
    StillIsSaved(After(w0, run[..at]));
  }

  /** And a warm restart then gives that state back, with its stores in flight dropped and its loads
      released. */
  lemma {:induction false} RestartSettlesRuns(cfg: Config, disk: map<int, Content>, run: seq<Act>, now: Config)
    requires Runs(Start(cfg, disk), run) && Consistent(Start(cfg, disk), run)
    requires Warm(After(Start(cfg, disk), run), now)
    ensures RestartStep(After(Start(cfg, disk), run), now).m == Settled(SavedState(Start(cfg, disk), run).m)
  {
    FileIsOneManagerState(cfg, disk, run);
    RestartsNeverRaise(cfg, disk, run, now);
    var v := SavedState(Start(cfg, disk), run);
    SavedRebuildsSettled(v.cfg, v.m, v.held);
  }

  /** What was in flight - stores not completed, and slots in the scheduler's hands - at the saves that
      the lives of the run were started from, back to the last cold start. */
  ghost function InFlightAtSaves(w: World, run: seq<Act>): int
    requires Runs(w, run)
    decreases |run|
  {
    if run == [] then 0
    else
      var before := Init(run);
      if !Last(run).Restart? then InFlightAtSaves(w, before)
      else if !Warm(After(w, before), Last(run).cfg) then 0
      else
        PrefixConsistent(w, before, DurableAt(before));
        var v := SavedState(w, before);
        InFlightAtSaves(w, before[..DurableAt(before)]) + v.m.pending + |v.held|
  }

  lemma {:induction false} LostIsInFlight(cfg: Config, disk: map<int, Content>, run: seq<Act>)
    requires Runs(Start(cfg, disk), run) && Consistent(Start(cfg, disk), run)
    ensures Lost(Start(cfg, disk), run) == InFlightAtSaves(Start(cfg, disk), run)
    decreases |run|
  {
    if run != [] {
      var w0, before := Start(cfg, disk), Init(run);
      if !Last(run).Restart? {
        LostIsInFlight(cfg, disk, before);
      } else if Warm(After(w0, before), Last(run).cfg) {
        var saved := before[..DurableAt(before)];
        PrefixConsistent(w0, before, DurableAt(before));
        LostIsInFlight(cfg, disk, saved);
        FileIsOneManagerState(cfg, disk, before);
        ConsistentRuns(cfg, disk, saved);
        QuietRunsAreOwned(cfg, disk, saved);
        ConsistentCaptureCost(cfg, disk, saved);
      }
    }
  }

  /** Capacity over any number of restarts, warm and cold, with captures of one manager state each: the
      slots the tier can still use are all of them minus what was in flight at the saves restored. */
  lemma {:induction false} CapacityOverRestarts(cfg: Config, disk: map<int, Content>, run: seq<Act>)
    requires Runs(Start(cfg, disk), run) && Consistent(Start(cfg, disk), run)
    ensures var w := After(Start(cfg, disk), run);
            |Pool(w.m, w.held)| == w.m.numBlocks - InFlightAtSaves(Start(cfg, disk), run)
  {
    ConsistentRuns(cfg, disk, run);
    QuietRunsAreOwned(cfg, disk, run);
    PoolOfRun(cfg, disk, run);
    LostIsInFlight(cfg, disk, run);
  }
}
