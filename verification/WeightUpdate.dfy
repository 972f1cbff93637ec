/** Weight-update sessions of the worker, with an exception possible at every engine call. */
module WeightUpdate {
  import opened Common

  type Chunk = int

  datatype Model = MainModel | DraftModel

  /** Whether a call raises, and if so before or after it took effect. */
  datatype Raise = No | Before | After

  /** The calls of one worker call: the engine's, and the runner's LoRA reset. `retarget` covers the
      checks on the draft model too. */
  datatype Faults = Faults(retarget: Raise, start: Raise, update: Raise, finish: Raise, reset: Raise, lora: Raise)

  /** A chunk for every rank, or a list indexed by global rank. */
  datatype Info = ForAll(chunk: Chunk) | PerRank(chunks: seq<Chunk>)

  datatype Op = Begin(draft: bool) | Send(info: Info) | End

  /** A chunk, the model it was loaded into, and the model its session was started for. */
  datatype Delivery = Delivery(chunk: Chunk, into: Model, wanted: Model)

  /** Worker and engine. `chosen`, `mainFinished` are history for the statements. */
  datatype State = State(
    configured: bool,
    supportsDraft: bool,
    rank: nat,
    active: bool,
    isDraft: bool,
    target: Model,
    log: seq<Delivery>,
    loraResets: nat,
    chosen: Model,
    mainFinished: nat)

  function ModelFor(draft: bool): Model {
    if draft then DraftModel else MainModel
  }

  function Reset(s: State, r: Raise): State {
    if r == Before then s else s.(target := MainModel)
  }

  /** `_start_weight_update`: the new state, and whether it returned normally. */
  function BeginStep(s: State, draft: bool, f: Faults): (State, bool) {
    if !s.configured || (draft && !s.supportsDraft) || s.active then (s, false)
    else
      var s1 := if draft && f.retarget != Before then s.(target := DraftModel) else s;
      if (draft && f.retarget != No) || f.start != No then (Reset(s1, f.reset), false)
      else (s1.(active := true, isDraft := draft, chosen := ModelFor(draft)), true)
  }

  function ChunkOf(s: State, info: Info): Option<Chunk> {
    match info
    case ForAll(c) => Some(c)
    case PerRank(cs) => if s.rank < |cs| then Some(cs[s.rank]) else None
  }

  function SendStep(s: State, info: Info, f: Faults): (State, bool) {
    if !s.configured || !s.active then (s, false)
    else
      match ChunkOf(s, info)
      case None => (Reset(s.(active := false), f.reset), false)
      case Some(c) =>
        var s1 := if f.update == Before then s else s.(log := s.log + [Delivery(c, s.target, s.chosen)]);
        if f.update != No then (Reset(s1.(active := false), f.reset), false) else (s1, true)
  }

  function EndStep(s: State, f: Faults): (State, bool) {
    if !s.configured || !s.active then (s, false)
    else if f.finish != No then (s, false)
    else
      var s1 := Reset(s, f.reset);
      if f.reset != No then (s1, false)
      else
        var s2 := s1.(active := false, mainFinished := s.mainFinished + if s.chosen == MainModel then 1 else 0);
        if s.isDraft then (s2, true)
        else (s2.(loraResets := s.loraResets + if f.lora == Before then 0 else 1), f.lora == No)
  }

  function Step(s: State, op: Op, f: Faults): State {
    match op
    case Begin(draft) => BeginStep(s, draft, f).0
    case Send(info) => SendStep(s, info, f).0
    case End => EndStep(s, f).0
  }

  /** Inactive: the engine points at the main model. Active: at the model chosen at the start. Every
      chunk so far went into its session's model. */
  ghost predicate Inv(s: State) {
    && (!s.active ==> s.target == MainModel)
    && (s.active ==> s.target == s.chosen && s.isDraft == (s.chosen == DraftModel))
    && (forall d :: d in s.log ==> d.into == d.wanted)
  }

  /** The one way to leave the invariant: resetting the target raises while a draft session is being
      abandoned (and the reset had no effect) or finished (and it had). */
  predicate Strands(s: State, op: Op, f: Faults) {
    && s.configured
    && match op
       case Begin(draft) =>
         draft && s.supportsDraft && !s.active && f.reset == Before
         && (f.retarget == After || (f.retarget == No && f.start != No))
       case Send(info) =>
         s.active && s.chosen == DraftModel && f.reset == Before && (ChunkOf(s, info) == None || f.update != No)
       case End => s.active && s.chosen == DraftModel && f.finish == No && f.reset == After
  }

  lemma {:induction false} BeginKeptIff(s: State, draft: bool, f: Faults)
    requires Inv(s)
    ensures Inv(BeginStep(s, draft, f).0) <==> !Strands(s, Begin(draft), f)
  {
  }

  lemma {:induction false} SendKeptIff(s: State, info: Info, f: Faults)
    requires Inv(s)
    ensures Inv(SendStep(s, info, f).0) <==> !Strands(s, Send(info), f)
  {
  }

  lemma {:induction false} EndKeptIff(s: State, f: Faults)
    requires Inv(s)
    ensures Inv(EndStep(s, f).0) <==> !Strands(s, End, f)
  {
  }

  /** A call keeps the invariant exactly when it does not strand a draft session. */
  lemma {:induction false} InvKeptIff(s: State, op: Op, f: Faults)
    requires Inv(s)
    ensures Inv(Step(s, op, f)) <==> !Strands(s, op, f)
  {
    match op
    case Begin(draft) => BeginKeptIff(s, draft, f);
    case Send(info) => SendKeptIff(s, info, f);
    case End => EndKeptIff(s, f);
  }

  lemma {:induction false} LogGrows(s: State, op: Op, f: Faults)
    ensures s.log <= Step(s, op, f).log
  {
  }

  function Run(s: State, ops: seq<(Op, Faults)>): State {
    if ops == [] then s else Step(Run(s, Init(ops)), Last(ops).0, Last(ops).1)
  }

  ghost predicate NeverStrands(s: State, ops: seq<(Op, Faults)>) {
    ops != [] ==> NeverStrands(s, Init(ops)) && !Strands(Run(s, Init(ops)), Last(ops).0, Last(ops).1)
  }

  /** A main session is finished and already inactive when the LoRA reset raises without effect. */
  predicate SkipsLora(s: State, op: Op, f: Faults) {
    s.configured && s.active && op == End && !s.isDraft && f.finish == No && f.reset == No && f.lora == Before
  }

  ghost function LoraSkips(s: State, ops: seq<(Op, Faults)>): nat {
    if ops == [] then 0
    else LoraSkips(s, Init(ops)) + if SkipsLora(Run(s, Init(ops)), Last(ops).0, Last(ops).1) then 1 else 0
  }

  lemma {:induction false} LoraStep(s: State, op: Op, f: Faults)
    requires Inv(s)
    ensures Step(s, op, f).mainFinished - Step(s, op, f).loraResets ==
            s.mainFinished - s.loraResets + if SkipsLora(s, op, f) then 1 else 0
  {
  }

  /** Over every sequence of calls, whatever else raises and wherever, as long as no reset strands a
      draft session: the invariant holds, and finished main sessions exceed LoRA resets by exactly the
      LoRA resets that raised without effect - draft sessions never reset LoRA. */
  lemma {:induction false} SessionsKeepInv(s: State, ops: seq<(Op, Faults)>)
    requires Inv(s) && NeverStrands(s, ops)
    ensures Inv(Run(s, ops))
    ensures s.log <= Run(s, ops).log
    ensures Run(s, ops).mainFinished - Run(s, ops).loraResets == s.mainFinished - s.loraResets + LoraSkips(s, ops)
  {
    if ops != [] {
      SessionsKeepInv(s, Init(ops));
      InvKeptIff(Run(s, Init(ops)), Last(ops).0, Last(ops).1);
      LogGrows(Run(s, Init(ops)), Last(ops).0, Last(ops).1);
      LoraStep(Run(s, Init(ops)), Last(ops).0, Last(ops).1);
    }
  }

  /** From a new worker, every finished main session has reset LoRA once exactly when no LoRA reset
      raised without effect. */
  lemma {:induction false} LoraOncePerSessionIff(s: State, ops: seq<(Op, Faults)>)
    requires Inv(s) && s.mainFinished == s.loraResets && NeverStrands(s, ops)
    ensures Run(s, ops).loraResets == Run(s, ops).mainFinished <==> LoraSkips(s, ops) == 0
  {
    SessionsKeepInv(s, ops);
  }

  lemma {:induction false} QuietResetNeverStrands(s: State, ops: seq<(Op, Faults)>)
    requires forall i :: 0 <= i < |ops| ==> ops[i].1.reset == No
    ensures NeverStrands(s, ops)
  {
    if ops != [] { QuietResetNeverStrands(s, Init(ops)); }
  }

  /** A stranded target is not repaired by the next session: the main model's update is then loaded
      into the draft model, and reported as done. */
  lemma {:induction false} StrandedUpdateGoesAstray(s: State, c: Chunk)
    requires Inv(s) && s.configured && s.supportsDraft && !s.active
    ensures var ok := Faults(No, No, No, No, No, No);
            var stranded := Faults(No, Before, No, No, Before, No);
            var z := Run(s, [(Begin(true), stranded), (Begin(false), ok), (Send(ForAll(c)), ok)]);
            z.log == s.log + [Delivery(c, DraftModel, MainModel)] && z.active
  {
    var ok := Faults(No, No, No, No, No, No);
    var a := (Begin(true), Faults(No, Before, No, No, Before, No));
    var b, d := (Begin(false), ok), (Send(ForAll(c)), ok);
    assert Init([a, b, d]) == [a, b] && Init([a, b]) == [a] && Init([a]) == [];
    assert Run(s, [a]) == s.(target := DraftModel);
    assert Run(s, [a, b]) == s.(target := DraftModel, active := true, isDraft := false, chosen := MainModel);
  }

  /** Two calls: a main session is finished, but its LoRA reset raises. No later finish makes up for it,
      because the session is already inactive. */
  lemma {:induction false} LoraResetMissed(s: State)
    requires Inv(s) && s.configured && !s.active
    ensures var ok, raised := Faults(No, No, No, No, No, No), Faults(No, No, No, No, No, Before);
            var z := Run(s, [(Begin(false), ok), (End, raised)]);
            && z.mainFinished == s.mainFinished + 1 && z.loraResets == s.loraResets && !z.active
            && forall f :: EndStep(z, f) == (z, false)
  {
    var ok, raised := Faults(No, No, No, No, No, No), Faults(No, No, No, No, No, Before);
    var a, b := (Begin(false), ok), (End, raised);
    assert Init([a, b]) == [a] && Init([a]) == [];
    assert Run(s, [a]) == s.(active := true, isDraft := false, chosen := MainModel);
  }

  // ---------------------------------------------------------------- what is delivered

  /** Whether a session is open, as the calls and what they met tell: it opens with a start that meets no
      exception, stays open over every chunk that loads, and closes with a chunk that does not or with a
      finish whose engine calls return. */
  predicate Open(s: State, ops: seq<(Op, Faults)>) {
    if ops == [] then s.active
    else
      var before, f := Open(s, Init(ops)), Last(ops).1;
      match Last(ops).0
      case Begin(draft) =>
        before || (s.configured && f.start == No && (draft ==> s.supportsDraft && f.retarget == No))
      case Send(ForAll(_)) => before && (s.configured ==> f.update == No)
      case Send(PerRank(cs)) => before && (s.configured ==> s.rank < |cs| && f.update == No)
      case End => before && (s.configured ==> f.finish != No || f.reset != No)
  }

  /** What a call delivers to this rank: nothing, or the common chunk, or the element of the list at the
      rank's own place. */
  function Own(s: State, open: bool, op: Op, f: Faults): seq<Chunk> {
    if !s.configured || !open || !op.Send? || f.update == Before then []
    else
      match op.info
      case ForAll(c) => [c]
      case PerRank(cs) => if s.rank < |cs| then [cs[s.rank]] else []
  }

  function AllOwn(s: State, ops: seq<(Op, Faults)>): seq<Chunk> {
    if ops == [] then []
    else AllOwn(s, Init(ops)) + Own(s, Open(s, Init(ops)), Last(ops).0, Last(ops).1)
  }

  function Chunks(log: seq<Delivery>): (r: seq<Chunk>)
    ensures |r| == |log| && forall i :: 0 <= i < |r| ==> r[i] == log[i].chunk
  {
    seq(|log|, i requires 0 <= i < |log| => log[i].chunk)
  }

  lemma {:induction false} StepDelivers(s: State, op: Op, f: Faults)
    ensures Chunks(Step(s, op, f).log) == Chunks(s.log) + Own(s, s.active, op, f)
  {
  }

  lemma {:induction false} StepOpens(s: State, op: Op, f: Faults)
    ensures Step(s, op, f).active == Open(s, [(op, f)])
    ensures var z := Step(s, op, f);
            z.configured == s.configured && z.supportsDraft == s.supportsDraft && z.rank == s.rank
  {
    assert Init([(op, f)]) == [];
    assert Open(s, []) == s.active;
  }

  /** Over every sequence of calls with exceptions anywhere: the chunks loaded are exactly this rank's own,
      of the sends that took effect in an open session, in order. */
  lemma {:induction false} ChunksDelivered(s: State, ops: seq<(Op, Faults)>)
    ensures var z := Run(s, ops);
            && Chunks(z.log) == Chunks(s.log) + AllOwn(s, ops)
            && z.active == Open(s, ops)
            && z.configured == s.configured && z.supportsDraft == s.supportsDraft && z.rank == s.rank
  {
    if ops != [] {
      ChunksDelivered(s, Init(ops));
      var v, a := Run(s, Init(ops)), Last(ops);
      StepDelivers(v, a.0, a.1);
      StepOpens(v, a.0, a.1);
      assert Init([a]) == [] && Open(v, []) == v.active;
    }
  }

  // ---------------------------------------------------------------- the worker's methods

  class WeightTransferEngine {
    const supportsDraft: bool
    var target: Model
    var log: seq<Delivery>

    constructor (supportsDraft: bool)
      ensures this.supportsDraft == supportsDraft && target == MainModel && log == []
    {
      this.supportsDraft := supportsDraft;
      target, log := MainModel, [];
    }
  }

  class Worker {
    const engine: WeightTransferEngine?
    const globalRank: nat
    var active: bool
    var isDraft: bool
    var loraResets: nat
    var chosen: Model        // history
    var mainFinished: nat    // history

    constructor (engine: WeightTransferEngine?, globalRank: nat)
      requires engine != null ==> engine.target == MainModel && engine.log == []
      ensures this.engine == engine && Inv(View()) && View().mainFinished == View().loraResets
    {
      this.engine, this.globalRank := engine, globalRank;
      active, isDraft, loraResets := false, false, 0;
      chosen, mainFinished := MainModel, 0;
    }

    ghost function View(): State
      reads this, engine
    {
      if engine == null
      then State(false, false, globalRank, active, isDraft, MainModel, [], loraResets, chosen, mainFinished)
      else State(true, engine.supportsDraft, globalRank, active, isDraft, engine.target, engine.log,
                 loraResets, chosen, mainFinished)
    }

    method ResetTarget(r: Raise)
      requires engine != null
      modifies engine
      ensures View() == Reset(old(View()), r)
    {
      if r != Before { engine.target := MainModel; }
    }

    method StartWeightUpdate(draft: bool, f: Faults) returns (ok: bool)
      modifies this, engine
      ensures (View(), ok) == BeginStep(old(View()), draft, f)
      ensures ok <==> engine != null && !old(active) && f.start == No
                      && (draft ==> engine.supportsDraft && f.retarget == No)
      ensures ok ==> active && isDraft == draft
                     && engine.target == (if draft then DraftModel else old(engine.target))
      ensures !ok ==> active == old(active) && isDraft == old(isDraft)
      ensures !ok && engine != null && (old(active) || (draft && !engine.supportsDraft)) ==>
                engine.target == old(engine.target)
      ensures !ok && engine != null && !old(active) && (draft ==> engine.supportsDraft) && f.reset != Before ==>
                engine.target == MainModel
      ensures loraResets == old(loraResets) && (engine != null ==> engine.log == old(engine.log))
    {
      if engine == null { return false; }
      if draft && !engine.supportsDraft { return false; }
      if active { return false; }
      if draft {
        if f.retarget != Before { engine.target := DraftModel; }
        if f.retarget != No {
          ResetTarget(f.reset);
          return false;
        }
      }
      if f.start != No {
        ResetTarget(f.reset);
        return false;
      }
      active, isDraft := true, draft;
      chosen := ModelFor(draft);
      ok := true;
    }

    method UpdateWeights(info: Info, f: Faults) returns (ok: bool)
      modifies this, engine
      ensures (View(), ok) == SendStep(old(View()), info, f)
      ensures ok <==> engine != null && old(active) && f.update == No && (info.PerRank? ==> globalRank < |info.chunks|)
      ensures ok ==> |engine.log| == |old(engine.log)| + 1 && engine.log[..|old(engine.log)|] == old(engine.log)
                     && engine.log[|old(engine.log)|].into == engine.target == old(engine.target)
      ensures ok && info.ForAll? ==> engine.log[|old(engine.log)|].chunk == info.chunk
      ensures ok && info.PerRank? ==> engine.log[|old(engine.log)|].chunk == info.chunks[globalRank]
      ensures active == (old(active) && (engine == null || ok))
      ensures engine != null && old(active) && !ok && f.reset != Before ==> engine.target == MainModel
      ensures isDraft == old(isDraft) && loraResets == old(loraResets)
    {
      if engine == null || !active { return false; }
      if info.PerRank? && globalRank >= |info.chunks| {
        active := false;
        ResetTarget(f.reset);
        return false;
      }
      var chunk := if info.PerRank? then info.chunks[globalRank] else info.chunk;
      if f.update != Before {
        // the engine loads the chunk into whatever it points at
        engine.log := engine.log + [Delivery(chunk, engine.target, chosen)];
      }
      if f.update != No {
        active := false;
        ResetTarget(f.reset);
        return false;
      }
      ok := true;
    }

    method FinishWeightUpdate(f: Faults) returns (ok: bool)
      modifies this, engine
      ensures (View(), ok) == EndStep(old(View()), f)
      ensures ok <==> engine != null && old(active) && f.finish == No && f.reset == No && (!isDraft ==> f.lora == No)
      ensures active == (old(active) && (engine == null || f.finish != No || f.reset != No))
      ensures ok ==> loraResets == old(loraResets) + if isDraft then 0 else 1
      ensures engine != null && old(active) && f.finish == No && f.reset != Before ==> engine.target == MainModel
      ensures engine != null && (!old(active) || f.finish != No) ==> engine.target == old(engine.target)
      ensures isDraft == old(isDraft) && (engine != null ==> engine.log == old(engine.log))
    {
      if engine == null || !active { return false; }
      if f.finish != No { return false; }
      ResetTarget(f.reset);
      if f.reset != No { return false; }
      active := false;
      if chosen == MainModel { mainFinished := mainFinished + 1; }
      ok := true;
      if !isDraft {
        if f.lora != Before { loraResets := loraResets + 1; }
        ok := f.lora == No;
      }
    }
  }
}
