/** Putting runs together, and the run of a save that nothing interrupts. */
module KvRuns {
  import opened Common
  import opened KvIndex
  import opened KvRestore
  import opened KvMachine
  import opened KvContinuity

  lemma {:induction false} Extend(w: World, run: seq<Act>, more: seq<Act>)
    requires Runs(w, run) && Runs(After(w, run), more)
    ensures Runs(w, run + more) && After(w, run + more) == After(After(w, run), more)
    decreases |more|
  {
    if more == [] {
      assert run + more == run;
    } else {
      Extend(w, run, Init(more));
      var whole := run + more;
      assert Init(whole) == run + Init(more) && Last(whole) == Last(more);
      assert Runs(w, Init(whole)) && Can(After(w, Init(whole)), Last(whole));
    }
  }

  lemma {:induction false} Snoc(w: World, run: seq<Act>, a: Act)
    requires Runs(w, run) && Can(After(w, run), a)
    ensures Runs(w, run + [a]) && After(w, run + [a]) == Step(After(w, run), a)
  {
    assert Init(run + [a]) == run;
  }

  /** The saver walks over the rest of the index. */
  lemma {:induction false} VisitAll(w: World) returns (run: seq<Act>)
    requires w.saver.Reading? && w.saver.pos <= |w.m.blocks|
    requires w.saver.got == ReadyPairs(w.m.blocks[..w.saver.pos])
    ensures Runs(w, run)
    ensures After(w, run) == w.(saver := w.saver.(pos := |w.m.blocks|, got := ReadyPairs(w.m.blocks)))
    decreases |w.m.blocks| - w.saver.pos
  {
    var b, i := w.m.blocks, w.saver.pos;
    if i == |b| {
      assert b[..i] == b;
      run := [];
    } else {
      PrefixStep(b, i);
      Snoc(w, [], SaveVisit);
      assert [] + [SaveVisit] == [SaveVisit];
      var more := VisitAll(Step(w, SaveVisit));
      Extend(w, [SaveVisit], more);
      run := [SaveVisit] + more;
    }
  }

  lemma {:induction false} SaveWrites(w: World) returns (run: seq<Act>)
    requires Can(w, SaveEntries)
    ensures Runs(w, run)
    ensures After(w, run) == w.(saver := Idle(true), file := Json(PayloadOf(CaptureOf(w).cap)), tmp := Missing,
                                durable := Some(CaptureOf(w)))
  {
    run := [SaveEntries];
    assert [] + [SaveEntries] == run;
    Snoc(w, [], SaveEntries);
    Snoc(w, run, SaveWritten);
    run := run + [SaveWritten];
    Snoc(w, run, SaveReplace);
    run := run + [SaveReplace];
  }

  /** The saver alone, from its second read to the replaced file. */
  lemma {:induction false} SaveFinishes(w: World) returns (run: seq<Act>)
    requires w.saver.HasAllocated? && w.hook == NoHook
    ensures Runs(w, run)
    ensures var c := Capture(w.cfg.fingerprint, w.cfg.numBlocks, w.saver.n, w.m.free, ReadyPairs(w.m.blocks));
            After(w, run) == w.(saver := Idle(true), file := Json(PayloadOf(c)), tmp := Missing,
                                durable := Some(Since(c, w.m.blocks, false, {})))
  {
    Snoc(w, [], SaveFree);
    Snoc(w, [SaveFree], SaveBegin);
    assert [] + [SaveFree] == [SaveFree] && [SaveFree] + [SaveBegin] == [SaveFree, SaveBegin];
    var w1 := After(w, [SaveFree, SaveBegin]);
    assert w1 == w.(saver := Reading(w.saver.n, w.m.free, w.m.blocks, 0, []));
    var visits := VisitAll(w1);
    Extend(w, [SaveFree, SaveBegin], visits);
    run := [SaveFree, SaveBegin] + visits;
    var rest := SaveWrites(After(w, run));
    Extend(w, run, rest);
    run := run + rest;
  }

  /** The saver notices a mutation and takes its first read. */
  lemma {:induction false} SaveStarts(w: World) returns (run: seq<Act>)
    requires w.saver.Idle? && w.dirty != 0
    ensures Runs(w, run)
    ensures After(w, run) == w.(dirty := 0, saver := HasAllocated(w.m.numAllocated))
  {
    run := [SaveCheck];
    assert [] + [SaveCheck] == [SaveCheck];
    Snoc(w, [], SaveCheck);
    Snoc(w, run, SaveClear);
    run := run + [SaveClear];
    Snoc(w, run, SaveAllocated);
    run := run + [SaveAllocated];
  }

  /** In the step machine too, a save that nothing interrupts writes exactly the current state. */
  lemma {:induction false} UninterruptedSave(w: World) returns (run: seq<Act>)
    requires w.saver.Idle? && w.dirty != 0 && w.hook == NoHook && w.m.numBlocks == w.cfg.numBlocks
    ensures Runs(w, run)
    ensures After(w, run).file == Json(PayloadOf(SavedNow(w.cfg.fingerprint, w.m)))
    ensures After(w, run).m == w.m && After(w, run).dirty == 0 && After(w, run).saver == Idle(true)
  {
    run := SaveStarts(w);
    var more := SaveFinishes(After(w, run));
    Extend(w, run, more);
    run := run + more;
  }
}
