/** What the slots contain: when a captured or restored pair still names its own completed bytes. */
module KvContents {
  import opened Common
  import opened KvIndex
  import opened KvManager
  import opened KvRestore
  import opened KvMachine
  import opened KvSafety
  import opened KvRestart
  import opened KvDurable
  import opened KvOwnership

  // ---------------------------------------------------------------- the scheduler's stores to one slot

  /** The last store to a slot: the key it was claimed for, and whether that store was completed. */
  datatype Store = NotStored | Store(key: Key, done: bool)

  /** What step `a` makes of the last store to slot `s`: an insert claims the slot, a completion of
      the item on the slot ends the store. */
  ghost function StoreEvent(w: World, a: Act, s: int, prev: Store): Store
    requires Can(w, a)
  {
    match a
    case Manager(Insert(k, j)) => if w.held[j] == s then Store(k, false) else prev
    case Manager(Complete(i)) => if w.m.blocks[i].slot == s then Store(w.m.blocks[i].key, true) else prev
    case _ => prev
  }

  /** The last store to slot `s` since step `from` of the run. */
  ghost function LastStore(w: World, run: seq<Act>, from: nat, s: int): Store
    requires Runs(w, run)
  {
    if |run| <= from then NotStored
    else StoreEvent(After(w, Init(run)), Last(run), s, LastStore(w, Init(run), from, s))
  }

  /** The slot was left alone, or the last store to it was of this key and completed. */
  ghost predicate Harmless(st: Store, k: Key) {
    st == NotStored || st == Store(k, true)
  }

  ghost function Bytes(st: Store, before: Content): Content {
    match st
    case NotStored => before
    case Store(k, done) => if done then Done(k) else Writing(k)
  }

  lemma {:induction false} SlotHistory(w: World, run: seq<Act>, from: nat, s: int)
    requires Runs(w, run) && from <= |run|
    ensures Runs(w, run[..from])
    ensures At(After(w, run).disk, s) == Bytes(LastStore(w, run, from, s), At(After(w, run[..from]).disk, s))
    decreases |run|
  {
    if |run| == from {
      assert run[..from] == run;
    } else {
      SlotHistory(w, Init(run), from, s);
      assert Init(run)[..from] == run[..from];
      ByteStep(After(w, Init(run)), Last(run), s);
    }
  }

  lemma {:induction false} ByteStep(w: World, a: Act, s: int)
    requires Can(w, a)
    ensures At(Step(w, a).disk, s) == Bytes(StoreEvent(w, a, s, NotStored), At(w.disk, s))
    ensures forall st :: StoreEvent(w, a, s, st) == if StoreEvent(w, a, s, NotStored) == NotStored then st
                                                    else StoreEvent(w, a, s, NotStored)
  {
  }

  ghost predicate NoneInFlight(w: World, s: int) {
    forall x :: 0 <= x < |w.m.blocks| && w.m.blocks[x].slot == s ==> w.m.blocks[x].Ready()
  }

  /** While slots have one owner a completion on a slot always ends the store that claimed the slot
      last, so LastStore is the key of the last insert into the slot and whether that item completed. */
  lemma {:induction false} OneStoreAtATime(w: World, run: seq<Act>, i: nat)
    requires Durable(w) && Owned(w) && Runs(w, run) && InRangeRestarts(w, run)
    requires i < |After(w, run).m.blocks| && !After(w, run).m.blocks[i].Ready()
    requires NoneInFlight(w, After(w, run).m.blocks[i].slot)
    ensures LastStore(w, run, 0, After(w, run).m.blocks[i].slot) == Store(After(w, run).m.blocks[i].key, false)
  {
    if run != [] {
      var v := After(w, Init(run));
      RunOwned(w, Init(run));
      var x := StillInFlight(v, Last(run), i);
      if x.Some? {
        OneStoreAtATime(w, Init(run), x.value);
        LiveSlotsOwned(v.m, v.held, x.value);
      }
    }
  }

  /** An item in flight after a step was in flight before it, at some place, or was just inserted;
      and the step did not store to its slot otherwise. */
  lemma {:induction false} StillInFlight(w: World, a: Act, i: nat) returns (x: Option<nat>)
    requires Can(w, a) && Durable(w) && Owned(w)
    requires i < |Step(w, a).m.blocks| && !Step(w, a).m.blocks[i].Ready()
    ensures var e := Step(w, a).m.blocks[i];
            && (x.Some? ==> x.value < |w.m.blocks| && w.m.blocks[x.value] == e
                            && forall st :: StoreEvent(w, a, e.slot, st) == st)
            && (x.None? ==> forall st :: StoreEvent(w, a, e.slot, st) == Store(e.key, false))
  {
    var e := Step(w, a).m.blocks[i];
    match a
    case Manager(m) =>
      x := ManagerStillInFlight(w, m, i);
    case Restart(cfg) =>
      AllReadyAfterRestart(w, cfg);
    case _ =>
      x := Some(i);
  }

  lemma {:induction false} ManagerStillInFlight(w: World, a: MAct, i: nat) returns (x: Option<nat>)
    requires Can(w, Manager(a)) && Owned(w)
    requires i < |Step(w, Manager(a)).m.blocks| && !Step(w, Manager(a)).m.blocks[i].Ready()
    ensures var e := Step(w, Manager(a)).m.blocks[i];
            && (x.Some? ==> x.value < |w.m.blocks| && w.m.blocks[x.value] == e
                            && forall st :: StoreEvent(w, Manager(a), e.slot, st) == st)
            && (x.None? ==> forall st :: StoreEvent(w, Manager(a), e.slot, st) == Store(e.key, false))
  {
    var b, e := w.m.blocks, Step(w, Manager(a)).m.blocks[i];
    if a.Insert? && i == |b| {
      x := None;
    } else {
      assert e in b by { assert e in NextM(w.m, w.held, a).blocks; }
      var y :| 0 <= y < |b| && b[y] == e;
      LiveSlotsOwned(w.m, w.held, y);
      assert a.Insert? ==> w.held[a.j] in w.held;
      assert a.Complete? ==> a.i != y;
      x := Some(y);
    }
  }

  lemma {:induction false} AllReadyAfterRestart(w: World, cfg: Config)
    requires FileWhole(w)
    ensures var b := RestartStep(w, cfg).m.blocks;
            forall x :: 0 <= x < |b| ==> b[x].Ready()
  {
    RestartOutcome(w, cfg);
    if Warm(w, cfg) { AsEntriesReady(w.durable.value.cap.entries); }
  }

  // ---------------------------------------------------------------- one capture and what follows it

  /** Single owners, and bytes of its own behind every item. */
  ghost predicate Inv(w: World) {
    Durable(w) && Owned(w) && Backed(w.m.blocks, w.disk)
  }

  /** When a capture is complete, every captured pair has its completed bytes on disk. */
  lemma {:induction false} CaptureBacked(w: World, p: (Key, int))
    requires Can(w, SaveEntries) && Inv(w) && p in CaptureOf(w).cap.entries
    ensures At(w.disk, p.1) == Done(p.0)
  {
    var i := GotAt(w, p);
    assert w.m.blocks[i] in w.m.blocks;
  }

  /** Slot contents after a capture, over any steps, crashes and restarts: a captured pair still names
      its own completed bytes exactly when its slot was left alone, or the last store to it was of
      the same key and completed. */
  lemma {:induction false} CapturedContent(w: World, run: seq<Act>, p: (Key, int))
    requires Can(w, SaveEntries) && Inv(w) && p in CaptureOf(w).cap.entries
    requires Runs(Step(w, SaveEntries), run)
    ensures At(After(Step(w, SaveEntries), run).disk, p.1) == Done(p.0) <==>
            Harmless(LastStore(Step(w, SaveEntries), run, 0, p.1), p.0)
  {
    CaptureBacked(w, p);
    SlotHistory(Step(w, SaveEntries), run, 0, p.1);
    assert run[..0] == [];
  }

  // ---------------------------------------------------------------- restarts

  /** No captured slot of the file was stored to again since its capture, unless last by the same key
      and completely. */
  ghost predicate Unstale(w: World, run: seq<Act>)
    requires Runs(w, run)
  {
    After(w, run).durable.Some? ==>
      forall p :: p in After(w, run).durable.value.cap.entries ==>
        Harmless(LastStore(w, run, DurableAt(run), p.1), p.0)
  }

  ghost predicate Admissible(w: World, run: seq<Act>, cfg: Config)
    requires Runs(w, run)
  {
    Warm(After(w, run), cfg) ==> InRange(After(w, run).durable.value.cap) && Unstale(w, run)
  }

  /** Every restart in the run finds a file that is in range and not stale. */
  ghost predicate AllAdmissible(w: World, run: seq<Act>)
    requires Runs(w, run)
  {
    run != [] ==>
      && AllAdmissible(w, Init(run))
      && (Last(run).Restart? ==> Admissible(w, Init(run), Last(run).cfg))
  }

  lemma {:induction false} PrefixAdmissible(w: World, run: seq<Act>, n: nat)
    requires Runs(w, run) && AllAdmissible(w, run) && n <= |run|
    ensures Runs(w, run[..n]) && AllAdmissible(w, run[..n])
  {
    if n == |run| {
      assert run[..n] == run;
    } else {
      PrefixAdmissible(w, Init(run), n);
      assert Init(run)[..n] == run[..n];
    }
  }

  lemma {:induction false} AdmissibleInRange(w: World, run: seq<Act>)
    requires Runs(w, run) && AllAdmissible(w, run)
    ensures InRangeRestarts(w, run)
  {
    if run != [] { AdmissibleInRange(w, Init(run)); }
  }

  /** The bytes behind a pair of the file on disk, in any run whose restarts were admissible. */
  lemma {:induction false} DurableContent(cfg: Config, disk: map<int, Content>, run: seq<Act>, p: (Key, int))
    requires Runs(Start(cfg, disk), run) && AllAdmissible(Start(cfg, disk), run)
    requires After(Start(cfg, disk), run).durable.Some?
    requires p in After(Start(cfg, disk), run).durable.value.cap.entries
    ensures At(After(Start(cfg, disk), run).disk, p.1) == Done(p.0) <==>
            Harmless(LastStore(Start(cfg, disk), run, DurableAt(run), p.1), p.0)
    decreases |run|, 2
  {
    var w0, at := Start(cfg, disk), DurableAt(run);
    FileIsOneEarlierCapture(cfg, disk, run);
    PrefixAdmissible(w0, run, at);
    EveryRunIsSound(cfg, disk, run[..at]);
    CaptureBacked(After(w0, run[..at]), p);
    SlotHistory(w0, run, at, p.1);
  }

  lemma {:induction false} RestoredBackedIff(w: World, cfg: Config)
    requires FileWhole(w)
    ensures Backed(RestartStep(w, cfg).m.blocks, w.disk) <==>
            (Warm(w, cfg) ==> forall p :: p in w.durable.value.cap.entries ==> At(w.disk, p.1) == Done(p.0))
  {
    RestartOutcome(w, cfg);
    if Warm(w, cfg) {
      var es := w.durable.value.cap.entries;
      var b := AsEntries(es);
      assert RestartStep(w, cfg).m.blocks == b;
      forall i | 0 <= i < |es|
        ensures b[i] in b && es[i] in es && b[i] == Entry(es[i].0, es[i].1, 0)
      {
      }
    }
  }

  /** After a restart every addressable key has its own completed bytes exactly when the file was not
      stale, and every slot one owner exactly when it was in range. */
  lemma {:induction false} RestartSafeIff(cfg: Config, disk: map<int, Content>, run: seq<Act>, now: Config)
    requires Runs(Start(cfg, disk), run) && AllAdmissible(Start(cfg, disk), run)
    ensures var w0, w := Start(cfg, disk), After(Start(cfg, disk), run);
            && (Backed(RestartStep(w, now).m.blocks, w.disk) <==> (Warm(w, now) ==> Unstale(w0, run)))
            && (MgrOk(RestartStep(w, now).m, []) <==> (Warm(w, now) ==> InRange(w.durable.value.cap)))
    decreases |run|, 3
  {
    var w0, w := Start(cfg, disk), After(Start(cfg, disk), run);
    AdmissibleInRange(w0, run);
    EveryRunOwned(cfg, disk, run);
    RestartOwnedIff(w, now);
    RestoredBackedIff(w, now);
    if Warm(w, now) {
      forall p | p in w.durable.value.cap.entries
        ensures At(w.disk, p.1) == Done(p.0) <==> Harmless(LastStore(w0, run, DurableAt(run), p.1), p.0)
      {
        DurableContent(cfg, disk, run, p);
      }
    }
  }

  // ---------------------------------------------------------------- every run

  /** Every addressable key has its own completed bytes. */
  ghost predicate OwnBytes(w: World) {
    forall i :: 0 <= i < |w.m.blocks| && w.m.blocks[i].Ready() ==>
      At(w.disk, w.m.blocks[i].slot) == Done(w.m.blocks[i].key)
  }

  lemma {:induction false} StepBacked(w: World, a: Act)
    requires Can(w, a) && Owned(w) && Backed(w.m.blocks, w.disk) && !a.Restart?
    ensures Backed(Step(w, a).m.blocks, Step(w, a).disk)
  {
    if a.Manager? {
      BackedKept(w.m, w.held, w.disk, a.a);
    } else {
      assert Step(w, a).m == w.m && Step(w, a).disk == w.disk;
    }
  }

  lemma {:induction false} BackedIsOwnBytes(w: World)
    requires Backed(w.m.blocks, w.disk)
    ensures OwnBytes(w)
  {
    assert forall i :: 0 <= i < |w.m.blocks| ==> w.m.blocks[i] in w.m.blocks;
  }

  lemma {:induction false} RestartBacked(cfg: Config, disk: map<int, Content>, run: seq<Act>, now: Config)
    requires Runs(Start(cfg, disk), run) && AllAdmissible(Start(cfg, disk), run)
    requires Admissible(Start(cfg, disk), run, now)
    ensures var z := RestartStep(After(Start(cfg, disk), run), now);
            Backed(z.m.blocks, z.disk)
    decreases |run|, 4
  {
    RestartSafeIff(cfg, disk, run, now);
    assert RestartStep(After(Start(cfg, disk), run), now).disk == After(Start(cfg, disk), run).disk;
  }

  lemma {:induction false} EveryRunBacked(cfg: Config, disk: map<int, Content>, run: seq<Act>)
    requires Runs(Start(cfg, disk), run) && AllAdmissible(Start(cfg, disk), run)
    ensures Backed(After(Start(cfg, disk), run).m.blocks, After(Start(cfg, disk), run).disk)
    decreases |run|, 0
  {
    if run != [] {
      var w0, before, a := Start(cfg, disk), Init(run), Last(run);
      if a.Restart? {
        RestartBacked(cfg, disk, before, a.cfg);
      } else {
        EveryRunBacked(cfg, disk, before);
        AdmissibleInRange(w0, before);
        EveryRunOwned(cfg, disk, before);
        StepBacked(After(w0, before), a);
      }
    }
  }

  /** From a cold start, through any interleaving of the two threads and any number of crashes and
      restarts, if each restart finds a file that is in range and not stale then no slot ever has two
      owners and no lookup serves another key's bytes. */
  lemma {:induction false} EveryRunIsSound(cfg: Config, disk: map<int, Content>, run: seq<Act>)
    requires Runs(Start(cfg, disk), run) && AllAdmissible(Start(cfg, disk), run)
    ensures var w := After(Start(cfg, disk), run);
            Inv(w) && Unaliased(w) && OwnBytes(w)
    decreases |run|, 1
  {
    AdmissibleInRange(Start(cfg, disk), run);
    EveryRunOwned(cfg, disk, run);
    EveryRunBacked(cfg, disk, run);
    BackedIsOwnBytes(After(Start(cfg, disk), run));
  }

  /** If no fresh slot is bumped during a capture, staleness is the only thing left to exclude. */
  lemma {:induction false} QuietRunsAreSound(cfg: Config, disk: map<int, Content>, run: seq<Act>)
    requires Runs(Start(cfg, disk), run) && NoOverlap(Start(cfg, disk), run)
    requires NoStaleRestart(Start(cfg, disk), run)
    ensures AllAdmissible(Start(cfg, disk), run)
    ensures OwnBytes(After(Start(cfg, disk), run))
  {
    if run != [] {
      QuietRunsAreSound(cfg, disk, Init(run));
      QuietRunsAreOwned(cfg, disk, Init(run));
    }
    EveryRunIsSound(cfg, disk, run);
  }

  ghost predicate NoStaleRestart(w: World, run: seq<Act>)
    requires Runs(w, run)
  {
    run != [] ==>
      && NoStaleRestart(w, Init(run))
      && (Last(run).Restart? && Warm(After(w, Init(run)), Last(run).cfg) ==> Unstale(w, Init(run)))
  }
}
