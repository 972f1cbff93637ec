/** Saving the model's buffers before a level-2 sleep and copying them back on wake-up. */
module SleepWake {
  import opened Common

  type Tensor = seq<int>

  type Buffers = seq<(string, Tensor)>

  datatype State = State(
    main: Buffers,
    draft: Option<Buffers>,
    saved: map<string, Tensor>,
    savedDraft: map<string, Tensor>)

  /** `{name: buffer.clone() for name, buffer in named_buffers()}` */
  function Save(b: Buffers): (r: map<string, Tensor>)
    ensures forall n :: n in r <==> exists i :: 0 <= i < |b| && b[i].0 == n
  {
    if b == [] then map[] else
      var r := Save(Init(b));
      assert forall i :: 0 <= i < |b| - 1 ==> Init(b)[i] == b[i];
      r[Last(b).0 := Last(b).1]
  }

  /** Copy back every buffer whose name was saved. */
  function CopyBack(b: Buffers, saved: map<string, Tensor>): (r: Buffers)
    ensures |r| == |b|
    ensures forall i :: 0 <= i < |b| ==> r[i] == (b[i].0, if b[i].0 in saved then saved[b[i].0] else b[i].1)
  {
    seq(|b|, i requires 0 <= i < |b| => (b[i].0, if b[i].0 in saved then saved[b[i].0] else b[i].1))
  }

  datatype Op =
    | Sleep(level: int)
    | Wake(tags: Option<set<string>>)
    | Change(main: Buffers, draft: Option<Buffers>)  // anything else: discarded memory, reloads, updates

  predicate CoversWeights(tags: Option<set<string>>) {
    tags.None? || "weights" in tags.value
  }

  function SleepStep(s: State, level: int): State {
    if level != 2 then s
    else s.(saved := Save(s.main), savedDraft := if s.draft.Some? then Save(s.draft.value) else s.savedDraft)
  }

  function WakeStep(s: State, tags: Option<set<string>>): State {
    if !CoversWeights(tags) then s
    else
      State(CopyBack(s.main, s.saved),
            match s.draft case Some(d) => Some(CopyBack(d, s.savedDraft)) case None => None,
            map[], map[])
  }

  function Step(s: State, op: Op): State {
    match op
    case Sleep(level) => SleepStep(s, level)
    case Wake(tags) => WakeStep(s, tags)
    case Change(main, draft) => s.(main := main, draft := draft)
  }

  function Run(s: State, ops: seq<Op>): State {
    if ops == [] then s else Step(Run(s, Init(ops)), Last(ops))
  }

  ghost predicate DistinctNames(b: Buffers) {
    forall i, j :: 0 <= i < j < |b| ==> b[i].0 != b[j].0
  }

  /** Neither wakes the weights nor saves again. */
  predicate Asleep(op: Op) {
    match op
    case Sleep(level) => level != 2
    case Wake(tags) => !CoversWeights(tags)
    case Change(_, _) => true
  }

  lemma {:induction false} SavedValue(b: Buffers, i: nat)
    requires DistinctNames(b) && i < |b|
    ensures b[i].0 in Save(b) && Save(b)[b[i].0] == b[i].1
  {
    if i < |b| - 1 { SavedValue(Init(b), i); }
  }

  /** `now` is `then` for every name both have, and its own value for the others. */
  ghost predicate RestoredTo(before: Buffers, lost: Buffers, now: Buffers) {
    && |now| == |lost|
    && (forall i :: 0 <= i < |now| ==> now[i].0 == lost[i].0)
    && (forall i, j :: 0 <= i < |now| && 0 <= j < |before| && now[i].0 == before[j].0 ==> now[i].1 == before[j].1)
    && (forall i :: 0 <= i < |now| && (forall j :: 0 <= j < |before| ==> before[j].0 != now[i].0) ==> now[i] == lost[i])
  }

  lemma {:induction false} CopyRestores(before: Buffers, lost: Buffers)
    requires DistinctNames(before)
    ensures RestoredTo(before, lost, CopyBack(lost, Save(before)))
  {
    forall i, j | 0 <= i < |lost| && 0 <= j < |before| && lost[i].0 == before[j].0
      ensures CopyBack(lost, Save(before))[i].1 == before[j].1
    {
      SavedValue(before, j);
    }
  }

  lemma {:induction false} AsleepKeepsSaved(s: State, ops: seq<Op>)
    requires forall op :: op in ops ==> Asleep(op)
    ensures Run(s, ops).saved == s.saved && Run(s, ops).savedDraft == s.savedDraft
  {
    if ops != [] {
      assert Last(ops) in ops;
      assert forall op :: op in Init(ops) ==> op in ops;
      AsleepKeepsSaved(s, Init(ops));
    }
  }

  /** After a level-2 sleep, whatever partial wakes, shallow sleeps and memory changes come in between,
      the first wake that covers the weights puts every named buffer of target and draft back to its
      value at that sleep. An earlier, unfinished sleep does not matter. */
  lemma {:induction false} FirstWeightWakeRestores(s: State, ops: seq<Op>, tags: Option<set<string>>)
    requires DistinctNames(s.main) && (s.draft.Some? ==> DistinctNames(s.draft.value))
    requires (forall op :: op in ops ==> Asleep(op)) && CoversWeights(tags)
    ensures var lost := Run(SleepStep(s, 2), ops);
            var z := WakeStep(lost, tags);
            && RestoredTo(s.main, lost.main, z.main)
            && (s.draft.Some? && lost.draft.Some? ==>
                  z.draft.Some? && RestoredTo(s.draft.value, lost.draft.value, z.draft.value))
            && z.saved == map[] && z.savedDraft == map[]
  {
    AsleepKeepsSaved(SleepStep(s, 2), ops);
    var lost := Run(SleepStep(s, 2), ops);
    CopyRestores(s.main, lost.main);
    if s.draft.Some? && lost.draft.Some? { CopyRestores(s.draft.value, lost.draft.value); }
  }

  lemma {:induction false} CopyNothing(b: Buffers)
    ensures CopyBack(b, map[]) == b
  {
  }

  /** What the last outside change left. */
  function LastChange(s: State, ops: seq<Op>): (Buffers, Option<Buffers>) {
    if ops == [] then (s.main, s.draft)
    else if Last(ops).Change? then (Last(ops).main, Last(ops).draft)
    else LastChange(s, Init(ops))
  }

  /** Once restored, wakes and shallow sleeps never write a buffer again: its value is always the
      newest one the model was given. */
  lemma {:induction false} LaterWakesOverwriteNothing(s: State, ops: seq<Op>)
    requires s.saved == map[] && s.savedDraft == map[]
    requires forall op :: op in ops ==> op.Sleep? ==> op.level != 2
    ensures (Run(s, ops).main, Run(s, ops).draft) == LastChange(s, ops)
    ensures Run(s, ops).saved == map[] && Run(s, ops).savedDraft == map[]
  {
    if ops != [] {
      assert Last(ops) in ops;
      assert forall op :: op in Init(ops) ==> op in ops;
      LaterWakesOverwriteNothing(s, Init(ops));
      var p := Run(s, Init(ops));
      CopyNothing(p.main);
      if p.draft.Some? { CopyNothing(p.draft.value); }
    }
  }

  /** `now` and `then` agree on a buffer exactly when `mid` and `then` do. */
  ghost predicate AsGoodAs(before: Buffers, mid: Buffers, now: Buffers) {
    forall i, j, k :: 0 <= i < |before| && 0 <= j < |mid| && 0 <= k < |now| && before[i].0 == mid[j].0 == now[k].0 ==>
      (now[k].1 == before[i].1 <==> mid[j].1 == before[i].1)
  }

  /** A second level-2 sleep before the weights wake, whatever partial wakes and changes come before
      and after it: the good copy is overwritten, so a buffer of target or draft comes back as it was
      at the first sleep exactly if it still was, or again was, that at the second. */
  lemma {:induction false} RepeatedSleepIff(s: State, ops1: seq<Op>, ops2: seq<Op>, tags: Option<set<string>>)
    requires forall op :: op in ops1 + ops2 ==> Asleep(op)
    requires CoversWeights(tags)
    requires var mid := Run(SleepStep(s, 2), ops1);
             DistinctNames(mid.main) && (mid.draft.Some? ==> DistinctNames(mid.draft.value))
    ensures var mid := Run(SleepStep(s, 2), ops1);
            var lost := Run(SleepStep(mid, 2), ops2);
            var z := WakeStep(lost, tags);
            && AsGoodAs(s.main, mid.main, z.main)
            && (s.draft.Some? && mid.draft.Some? && lost.draft.Some? ==>
                  z.draft.Some? && AsGoodAs(s.draft.value, mid.draft.value, z.draft.value))
  {
    assert forall op :: op in ops2 ==> op in ops1 + ops2;
    FirstWeightWakeRestores(Run(SleepStep(s, 2), ops1), ops2, tags);
  }

  // ---------------------------------------------------------------- the worker's methods

  /** A model's named buffers: the names are fixed, the contents are written in place. */
  class Model {
    const names: seq<string>
    var data: seq<Tensor>

    constructor (names: seq<string>, data: seq<Tensor>)
      requires |names| == |data|
      ensures this.names == names && this.data == data
    {
      this.names, this.data := names, data;
    }

    ghost predicate Valid()
      reads this
    {
      |names| == |data|
    }

    function NamedBuffers(): (r: Buffers)
      requires Valid()
      reads this
      ensures |r| == |names| && forall i :: 0 <= i < |r| ==> r[i] == (names[i], data[i])
    {
      seq(|names|, i requires 0 <= i < |names| && |names| == |data| reads this => (names[i], data[i]))
    }

    method Clone() returns (r: map<string, Tensor>)
      requires Valid()
      ensures r == Save(NamedBuffers())
    {
      r := map[];
      var i := 0;
      while i < |names|
        invariant 0 <= i <= |names|
        invariant r == Save(NamedBuffers()[..i])
      {
        PrefixStep(NamedBuffers(), i);
        r := r[names[i] := data[i]];
        i := i + 1;
      }
      assert NamedBuffers()[..i] == NamedBuffers();
    }

    /** `buffer.data.copy_(saved[name])` for every saved name. */
    method CopyFrom(saved: map<string, Tensor>)
      requires Valid()
      modifies this
      ensures Valid() && NamedBuffers() == CopyBack(old(NamedBuffers()), saved)
    {
      var i := 0;
      while i < |names|
        invariant 0 <= i <= |names| == |data|
        invariant forall k :: 0 <= k < i ==> data[k] == CopyBack(old(NamedBuffers()), saved)[k].1
        invariant forall k :: i <= k < |names| ==> data[k] == old(data)[k]
      {
        if names[i] in saved { data := data[i := saved[names[i]]]; }
        i := i + 1;
      }
    }
  }

  class SleepingWorker {
    const model: Model
    const draft: Model?
    var saved: map<string, Tensor>
    var savedDraft: map<string, Tensor>

    constructor (model: Model, draft: Model?)
      ensures this.model == model && this.draft == draft && saved == map[] && savedDraft == map[]
    {
      this.model, this.draft, saved, savedDraft := model, draft, map[], map[];
    }

    ghost predicate Valid()
      reads model, draft
    {
      && model.Valid()
      && (draft != null ==> draft.Valid() && draft != model)
    }

    function View(): State
      requires Valid()
      reads this, model, draft
    {
      State(model.NamedBuffers(), if draft == null then None else Some(draft.NamedBuffers()), saved, savedDraft)
    }

    method SleepAt(level: int)
      requires Valid()
      modifies this
      ensures Valid() && View() == SleepStep(old(View()), level)
      ensures level != 2 ==> saved == old(saved) && savedDraft == old(savedDraft)
      ensures level == 2 ==> saved.Keys == set n | n in model.names
      ensures level == 2 && draft != null ==> savedDraft.Keys == set n | n in draft.names
    {
      if level == 2 {
        saved := model.Clone();
        if draft != null { savedDraft := draft.Clone(); }
      }
    }

    method WakeUp(tags: Option<set<string>>)
      requires Valid()
      modifies this, model, draft
      ensures Valid() && View() == WakeStep(old(View()), tags)
      ensures tags.Some? && "weights" !in tags.value ==> View() == old(View())
      ensures tags.None? || "weights" in tags.value ==>
                && saved == map[] && savedDraft == map[]
                && (forall i :: 0 <= i < |model.names| ==>
                      model.data[i] == if model.names[i] in old(saved) then old(saved)[model.names[i]]
                                       else old(model.data)[i])
                && (draft != null ==> forall i :: 0 <= i < |draft.names| ==>
                      draft.data[i] == if draft.names[i] in old(savedDraft) then old(savedDraft)[draft.names[i]]
                                       else old(draft.data)[i])
    {
      var wakeWeights := tags.None? || "weights" in tags.value;
      CopyNothing(model.NamedBuffers());
      if draft != null { CopyNothing(draft.NamedBuffers()); }
      if wakeWeights && |saved| != 0 {
        model.CopyFrom(saved);
        saved := map[];
      }
      if wakeWeights && |savedDraft| != 0 {
        if draft != null { draft.CopyFrom(savedDraft); }
        savedDraft := map[];
      }
    }
  }
}
