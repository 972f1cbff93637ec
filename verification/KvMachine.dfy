/** The whole tier as a step machine: the scheduler thread, the mutation hooks at the grain of
    loads and stores of `_dirty`, the saver thread at the grain of its separate reads, the two index
    paths on disk, the slot file, and restarts at any point. */
module KvMachine {
  import opened Common
  import opened KvIndex
  import opened KvManager
  import opened KvRestore

  /** What the bytes of one slot are: nothing known, a store of `key` under way, or its full bytes. */
  datatype Content = Blank | Writing(key: Key) | Done(key: Key)

  function At(disk: map<int, Content>, s: int): Content {
    if s in disk then disk[s] else Blank
  }

  /** `with self._lock: super().insert(...); self._dirty += 1` in its atomic pieces. */
  datatype Hook = NoHook | Mutated | Loaded(dirty: nat)

  /** History of one capture, kept for the statements only: the index it read, and what has
      happened to that index since. */
  datatype Since = Since(
    cap: Capture,
    index: seq<Entry>,
    hooked: bool,
    evicted: set<Key>)

  /** Program counter and locals of the saver loop. While it iterates over the index it holds the
      policy's lock; `base` is the index it began with. `ok` tells whether the last attempt, or the
      restore at startup, succeeded. */
  datatype Saver =
    | Idle(ok: bool)
    | Checked(ok: bool)
    | Cleared
    | HasAllocated(n: int)
    | HasFree(n: int, free: seq<int>)
    | Reading(n: int, free: seq<int>, base: seq<Entry>, pos: nat, got: seq<(Key, int)>)
    | Broken         // the index changed order or size under the iteration
    | Captured(since: Since)
    | Written(since: Since)

  datatype World = World(
    cfg: Config,
    m: Mgr,
    held: seq<int>,
    hook: Hook,
    dirty: nat,
    saver: Saver,
    file: File,
    tmp: File,
    disk: map<int, Content>,
    durable: Option<Since>)

  datatype Act =
    | Manager(a: MAct)
    | HookLoad
    | HookStore
    | SaveCheck
    | SaveClear
    | SaveAllocated
    | SaveFree
    | SaveBegin      // snapshot_entries: take the lock
    | SaveVisit      // look at the next item of the index
    | SaveEntries    // release the lock
    | SaveTorn       // part of the temporary file reaches the disk
    | SaveWritten    // all of it does
    | SaveReplace    // os.replace
    | SaveFail       // any exception of an attempt
    | Restart(cfg: Config)  // crash at this point, then startup

  function Start(cfg: Config, disk: map<int, Content>): World {
    World(cfg, Fresh(cfg.numBlocks), [], NoHook, 0, Idle(false), Missing, Missing, disk, None)
  }

  predicate Can(w: World, a: Act) {
    match a
    case Manager(x) =>
      && w.hook.NoHook?
      && Enabled(w.m, w.held, x)
      && (x.Insert? || x.Abort? ==> !w.saver.Reading? && !w.saver.Broken?)  // these need the lock
    case HookLoad => w.hook.Mutated?
    case HookStore => w.hook.Loaded?
    case SaveCheck => w.saver.Idle? && w.dirty != 0
    case SaveClear => w.saver.Checked?
    case SaveAllocated => w.saver.Cleared?
    case SaveFree => w.saver.HasAllocated?
    case SaveBegin => w.saver.HasFree? && w.hook.NoHook?
    case SaveVisit => w.saver.Reading? && w.saver.pos < |w.m.blocks|
    case SaveEntries => w.saver.Reading? && w.saver.pos >= |w.m.blocks|
    case SaveTorn => w.saver.Captured?
    case SaveWritten => w.saver.Captured?
    case SaveReplace => w.saver.Written?
    case SaveFail => !w.saver.Idle? && !w.saver.Checked?
    case Restart(_) => true
  }

  /** Bytes of the slot file after a manager step. */
  function DiskAfter(m: Mgr, held: seq<int>, disk: map<int, Content>, a: MAct): map<int, Content>
    requires Enabled(m, held, a)
  {
    match a
    case Insert(k, j) => disk[held[j] := Writing(k)]
    case Complete(i) => disk[m.blocks[i].slot := Done(m.blocks[i].key)]
    case _ => disk
  }

  function SinceAfter(sn: Since, m: Mgr, held: seq<int>, a: MAct): Since
    requires Enabled(m, held, a)
  {
    match a
    case Insert(_, _) => sn.(hooked := true)
    case Abort(_) => sn.(hooked := true)
    case Evict(i) => sn.(evicted := sn.evicted + {m.blocks[i].key})
    case _ => sn
  }

  function SaverAfter(s: Saver, m: Mgr, held: seq<int>, a: MAct): Saver
    requires Enabled(m, held, a)
  {
    match s
    case Captured(sn) => Captured(SinceAfter(sn, m, held, a))
    case Written(sn) => Written(SinceAfter(sn, m, held, a))
    case Reading(_, _, _, _, _) => if a.Evict? || a.Touch? then Broken else s
    case _ => s
  }

  function Visit(s: Saver, b: seq<Entry>): Saver
    requires s.Reading? && s.pos < |b|
  {
    var e := b[s.pos];
    s.(pos := s.pos + 1, got := s.got + if e.Ready() then [(e.key, e.slot)] else [])
  }

  function ManagerStep(w: World, a: MAct): World
    requires Can(w, Manager(a))
  {
    w.(m := NextM(w.m, w.held, a),
       held := NextHeld(w.m, w.held, a),
       hook := if a.Insert? || a.Abort? then Mutated else NoHook,
       saver := SaverAfter(w.saver, w.m, w.held, a),
       disk := DiskAfter(w.m, w.held, w.disk, a),
       durable := match w.durable case None => None case Some(sn) => Some(SinceAfter(sn, w.m, w.held, a)))
  }

  function CaptureOf(w: World): Since
    requires w.saver.Reading?
  {
    Since(Capture(w.cfg.fingerprint, w.cfg.numBlocks, w.saver.n, w.saver.free, w.saver.got),
          w.saver.base, false, {})
  }

  /** Everything in memory is lost; the two paths and the slot file stay. The durable capture's
      history goes on, because the slots it names can still be overwritten. */
  function RestartStep(w: World, cfg: Config): World {
    var (out, m) := Restore(cfg, Fresh(cfg.numBlocks), w.file);
    var warm := out.Returned? && m != Fresh(cfg.numBlocks);
    World(cfg, m, [], NoHook, 0, Idle(warm), w.file, w.tmp, w.disk,
          match w.durable
          case None => None
          case Some(sn) => Some(if warm then sn.(index := m.blocks, hooked := false, evicted := {})
                                else sn.(hooked := true)))
  }

  function Step(w: World, a: Act): World
    requires Can(w, a)
  {
    match a
    case Manager(x) => ManagerStep(w, x)
    case HookLoad => w.(hook := Loaded(w.dirty))
    case HookStore => w.(dirty := w.hook.dirty + 1, hook := NoHook)
    case SaveCheck => w.(saver := Checked(w.saver.ok))
    case SaveClear => w.(dirty := 0, saver := Cleared)
    case SaveAllocated => w.(saver := HasAllocated(w.m.numAllocated))
    case SaveFree => w.(saver := HasFree(w.saver.n, w.m.free))
    case SaveBegin => w.(saver := Reading(w.saver.n, w.saver.free, w.m.blocks, 0, []))
    case SaveVisit => w.(saver := Visit(w.saver, w.m.blocks))
    case SaveEntries => w.(saver := Captured(CaptureOf(w)))
    case SaveTorn => w.(tmp := Garbled)
    case SaveWritten => w.(tmp := Json(PayloadOf(w.saver.since.cap)), saver := Written(w.saver.since))
    case SaveReplace => w.(file := w.tmp, tmp := Missing, durable := Some(w.saver.since), saver := Idle(true))
    case SaveFail => w.(saver := Idle(false))
    case Restart(cfg) => RestartStep(w, cfg)
  }

  // ---------------------------------------------------------------- what the machine leaves open

  /** Between two hooks the scheduler can take any step the manager allows at any point of a save, except
      that insert and remove wait while the iteration holds the lock. */
  lemma {:induction false} SchedulerRunsOn(w: World, a: MAct)
    requires w.hook.NoHook? && Enabled(w.m, w.held, a)
    ensures Can(w, Manager(a)) <==> !((a.Insert? || a.Abort?) && (w.saver.Reading? || w.saver.Broken?))
  {
  }

  /** The process can end anywhere; an attempt to save can fail at any point, and otherwise goes on, at
      most waiting for a hook to release the lock. */
  lemma {:induction false} AnythingCanFail(w: World, cfg: Config)
    ensures Can(w, Restart(cfg))
    ensures !w.saver.Idle? && !w.saver.Checked? ==> Can(w, SaveFail) && Step(w, SaveFail).saver == Idle(false)
    ensures w.saver.Captured? ==> Can(w, SaveTorn) && Step(w, SaveTorn) == w.(tmp := Garbled)
    ensures w.saver.Checked? ==> Can(w, SaveClear) && Step(w, SaveClear) == w.(dirty := 0, saver := Cleared)
    ensures w.saver.HasFree? ==> (Can(w, SaveBegin) <==> w.hook.NoHook?)
    ensures w.saver.Idle? ==> (Can(w, SaveCheck) <==> w.dirty != 0)
  {
  }

  /** A mutation between the hook's load and its store is overwritten by the store. */
  lemma {:induction false} StoreOverwrites(w: World)
    requires w.hook.Loaded?
    ensures Can(w, HookStore) && Step(w, HookStore) == w.(dirty := w.hook.dirty + 1, hook := NoHook)
  {
  }

  /** A restart keeps the disk and forgets the process. */
  lemma {:induction false} RestartForgets(w: World, cfg: Config)
    ensures var z := RestartStep(w, cfg);
            && z.cfg == cfg && z.m == Restore(cfg, Fresh(cfg.numBlocks), w.file).1
            && z.held == [] && z.hook == NoHook && z.dirty == 0 && z.saver.Idle?
            && z.file == w.file && z.tmp == w.tmp && z.disk == w.disk
  {
  }

  // ---------------------------------------------------------------- runs

  /** Runs: a list of steps taken one after the other, each enabled when its turn comes. */
  ghost predicate Runs(w: World, run: seq<Act>)
    decreases |run|, 0
  {
    run == [] || (Runs(w, Init(run)) && Can(After(w, Init(run)), Last(run)))
  }

  ghost function After(w: World, run: seq<Act>): World
    requires Runs(w, run)
    decreases |run|, 1
  {
    if run == [] then w else Step(After(w, Init(run)), Last(run))
  }
}
