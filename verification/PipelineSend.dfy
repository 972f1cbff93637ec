/** Communication handles of pipeline-parallel steps: sends waited for at the top of the next step,
    receives waited for on the first read of the tensors. */
module PipelineSend {
  import opened Common

  /** Device sends are numbered in the order they are issued. */
  type Handle = nat

  datatype Event =
    | Send(h: Handle)      // device send issued
    | Waited(h: Handle)    // handle.wait() returned
    | Callback(c: int)     // a receive wait or a postprocess call began
    | Forward              // the model forward started
    | Read                 // `.tensors` was handed out

  // ---------------------------------------------------------------- lazily received tensors

  /** Object state and event log. `callbacks` are the handle waits followed by the postprocess calls. */
  datatype Lazy = Lazy(callbacks: seq<int>, waited: bool, log: seq<Event>)

  function Calls(cs: seq<int>): (r: seq<Event>)
    ensures |r| == |cs| && forall i :: 0 <= i < |cs| ==> r[i] == Callback(cs[i])
  {
    seq(|cs|, i requires 0 <= i < |cs| => Callback(cs[i]))
  }

  function Reads(k: nat): (r: seq<Event>)
    ensures |r| == k && forall i :: 0 <= i < k ==> r[i] == Read
  {
    seq(k, _ => Read)
  }

  /** One read of `.tensors`; `fault` is the position of the callback that raises, if any. */
  function Access(s: Lazy, fault: Option<nat>): Lazy {
    if s.waited then s.(log := s.log + [Read])
    else if fault.Some? && fault.value < |s.callbacks|
    then s.(log := s.log + Calls(s.callbacks[..fault.value + 1]))
    else s.(waited := true, log := s.log + Calls(s.callbacks) + [Read])
  }

  function Accesses(s: Lazy, faults: seq<Option<nat>>): Lazy {
    if faults == [] then s else Access(Accesses(s, Init(faults)), Last(faults))
  }

  predicate Fails(callbacks: seq<int>, fault: Option<nat>) {
    fault.Some? && fault.value < |callbacks|
  }

  /** Everything a list of failed reads ran. */
  function Prefixes(callbacks: seq<int>, bad: seq<Option<nat>>): seq<Event> {
    if bad == [] then []
    else
      Prefixes(callbacks, Init(bad)) +
      if Fails(callbacks, Last(bad)) then Calls(callbacks[..Last(bad).value + 1]) else []
  }

  /** The position of the first read that does not fail, or the length if all do. */
  function FirstGood(callbacks: seq<int>, faults: seq<Option<nat>>): (n: nat)
    ensures n <= |faults|
  {
    if faults == [] then 0
    else
      var n := FirstGood(callbacks, Init(faults));
      if n < |faults| - 1 || !Fails(callbacks, Last(faults)) then n else |faults|
  }

  lemma {:induction false} FirstGoodIs(cs: seq<int>, faults: seq<Option<nat>>)
    ensures forall i :: 0 <= i < FirstGood(cs, faults) ==> Fails(cs, faults[i])
    ensures FirstGood(cs, faults) < |faults| ==> !Fails(cs, faults[FirstGood(cs, faults)])
  {
    if faults != [] {
      FirstGoodIs(cs, Init(faults));
      assert forall i :: 0 <= i < |faults| - 1 ==> Init(faults)[i] == faults[i];
    }
  }

  /** One more read after `k` successful ones (0: none yet); `failed` is what the failed reads ran. */
  lemma {:induction false} OneMoreAccess(cs: seq<int>, s: Lazy, failed: seq<Event>, k: nat, f: Option<nat>)
    requires s.callbacks == cs && s.waited == (k > 0)
    requires s.log == failed + if k > 0 then Calls(cs) + Reads(k) else []
    ensures Access(s, f).callbacks == cs
    ensures Access(s, f).waited == (k > 0 || !Fails(cs, f))
    ensures Access(s, f).log == if k == 0 && Fails(cs, f) then failed + Calls(cs[..f.value + 1])
                                else failed + (Calls(cs) + Reads(k + 1))
  {
    assert Reads(k + 1) == Reads(k) + [Read];
    if k > 0 {
      Assoc(failed, Calls(cs), Reads(k));
    } else {
      assert Reads(1) == [Read];
    }
  }

  lemma {:induction false} Assoc(a: seq<Event>, b: seq<Event>, c: seq<Event>)
    ensures a + (b + c) + [Read] == a + (b + (c + [Read]))
  {
  }

  lemma {:induction false} FirstGoodLast(cs: seq<int>, faults: seq<Option<nat>>)
    requires faults != []
    ensures var n := FirstGood(cs, Init(faults));
            FirstGood(cs, faults) == if n < |faults| - 1 || !Fails(cs, Last(faults)) then n else |faults|
  {
  }

  lemma {:induction false} PrefixesLast(cs: seq<int>, bad: seq<Option<nat>>)
    requires bad != [] && Fails(cs, Last(bad))
    ensures Prefixes(cs, bad) == Prefixes(cs, Init(bad)) + Calls(cs[..Last(bad).value + 1])
  {
  }

  /** For every sequence of reads: the failed ones first re-run a prefix each; then one complete pass
      over the handle waits and postprocess calls, in order; from there on only reads. */
  lemma {:induction false} ReadsFollowOnePass(cs: seq<int>, faults: seq<Option<nat>>)
    ensures var z, n := Accesses(Lazy(cs, false, []), faults), FirstGood(cs, faults);
            && z.callbacks == cs
            && z.waited == (n < |faults|)
            && z.log == Prefixes(cs, faults[..n]) + if n < |faults| then Calls(cs) + Reads(|faults| - n) else []
  {
    if faults == [] {
      assert faults[..0] == [];
    } else {
      var init, f := Init(faults), Last(faults);
      ReadsFollowOnePass(cs, init);
      FirstGoodLast(cs, faults);
      var n, z := FirstGood(cs, init), Accesses(Lazy(cs, false, []), init);
      OneMoreAccess(cs, z, Prefixes(cs, init[..n]), |init| - n, f);
      assert Accesses(Lazy(cs, false, []), faults) == Access(z, f);
      if n == |init| && Fails(cs, f) {
        assert init[..n] == init && faults[..|faults|] == faults;
        PrefixesLast(cs, faults);
      } else {
        assert faults[..n] == init[..n];
      }
    }
  }

  lemma {:induction false} PrefixesSize(cs: seq<int>, bad: seq<Option<nat>>)
    requires forall i :: 0 <= i < |bad| ==> Fails(cs, bad[i])
    ensures |Prefixes(cs, bad)| >= |bad|
  {
    if bad != [] { PrefixesSize(cs, Init(bad)); }
  }

  lemma {:induction false} LateCallback(cs: seq<int>, log: seq<Event>, at: nat)
    requires |cs| <= at < |log| && log[at].Callback?
    ensures forall k :: log != Calls(cs) + Reads(k)
  {
    forall k
      ensures log != Calls(cs) + Reads(k)
    {
      var other := Calls(cs) + Reads(k);
      assert |other| == |log| ==> other[at] == Reads(k)[at - |cs|];
    }
  }

  /** Each wait and postprocess has run exactly once before the first read exactly when no read failed
      before it. */
  lemma {:induction false} RunOnceIff(cs: seq<int>, faults: seq<Option<nat>>)
    requires Accesses(Lazy(cs, false, []), faults).waited
    ensures (exists k :: Accesses(Lazy(cs, false, []), faults).log == Calls(cs) + Reads(k))
            <==> !Fails(cs, faults[0])
  {
    ReadsFollowOnePass(cs, faults);
    FirstGoodIs(cs, faults);
    var log, n := Accesses(Lazy(cs, false, []), faults).log, FirstGood(cs, faults);
    if n == 0 {
      assert log == Calls(cs) + Reads(|faults|);
    } else {
      PrefixesSize(cs, faults[..n]);
      var failed := Prefixes(cs, faults[..n]);
      var at := |failed| + |cs| - 1;
      assert log == failed + (Calls(cs) + Reads(|faults| - n));
      assert log[at] == Calls(cs)[|cs| - 1];
      LateCallback(cs, log, at);
    }
  }

  // ---------------------------------------------------------------- sends

  datatype Output = Final | Intermediate

  /** The end of a step that has tensors to pass on: the rank may not send, the send raised after
      issuing some of its device sends, or it returned the handles of all of them behind the metadata
      handle, which the coordinator reaps. */
  datatype Sending = Refused | CutShort(devices: nat) | Returned(devices: nat)

  /** One call of execute_model: which send wait raises, whether the receive or a check before the model
      call raises, whether the model call does, what it returns, and what becomes of the send. */
  datatype Call = Call(waitFault: Option<nat>, setupRaises: bool, modelRaises: bool, output: Output, sending: Sending)

  /** `_pp_send_work`, the number of device sends so far, and the log. History: how many of the handles
      a raising wait loop had already waited for, and the handles of sends cut short. */
  datatype State = State(work: seq<Handle>, next: nat, log: seq<Event>, partial: nat, lost: seq<Handle>)

  function Waits(hs: seq<Handle>): (r: seq<Event>)
    ensures |r| == |hs| && forall i :: 0 <= i < |hs| ==> r[i] == Waited(hs[i])
  {
    seq(|hs|, i requires 0 <= i < |hs| => Waited(hs[i]))
  }

  function Sends(hs: seq<Handle>): (r: seq<Event>)
    ensures |r| == |hs| && forall i :: 0 <= i < |hs| ==> r[i] == Send(hs[i])
  {
    seq(|hs|, i requires 0 <= i < |hs| => Send(hs[i]))
  }

  /** The handles of the next `k` device sends. */
  function Issue(next: nat, k: nat): (r: seq<Handle>)
    ensures |r| == k && forall i :: 0 <= i < k ==> r[i] == next + i
  {
    seq(k, i => next + i)
  }

  function Max(a: nat, b: nat): nat {
    if a < b then b else a
  }

  /** The wait loop at the top of the step returns. */
  predicate WaitsReturn(s: State, c: Call) {
    !(c.waitFault.Some? && c.waitFault.value < |s.work|)
  }

  /** And so does what lies between it and the model call: the forward starts. */
  predicate StartsForward(s: State, c: Call) {
    WaitsReturn(s, c) && !c.setupRaises
  }

  /** The step's send raises with at least one device send issued. */
  predicate LosesSends(s: State, c: Call) {
    StartsForward(s, c) && !c.modelRaises && c.output == Intermediate && c.sending.CutShort? && c.sending.devices > 0
  }

  /** The state after the wait loop. */
  function AfterWaits(s: State): State {
    s.(work := [], log := s.log + Waits(s.work), partial := 0)
  }

  /** What follows the forward. */
  function PassOn(s: State, c: Call): (State, bool) {
    if c.modelRaises then (s, false)
    else if c.output == Final then (s, true)
    else
      match c.sending
      case Refused => (s, false)
      case CutShort(k) =>
        var hs := Issue(s.next, k);
        (s.(next := s.next + k, log := s.log + Sends(hs), lost := s.lost + hs), false)
      case Returned(k) =>
        var hs := Issue(s.next, k);
        (s.(work := hs, next := s.next + k, log := s.log + Sends(hs)), true)
  }

  function Execute(s: State, c: Call): (State, bool) {
    if WaitsReturn(s, c) then
      var s1 := AfterWaits(s);
      if c.setupRaises then (s1, false) else PassOn(s1.(log := s1.log + [Forward]), c)
    else (s.(log := s.log + Waits(s.work[..c.waitFault.value]), partial := Max(s.partial, c.waitFault.value)), false)
  }

  const Idle := State([], 0, [], 0, [])

  function Run(s: State, cs: seq<Call>): State {
    if cs == [] then s else Execute(Run(s, Init(cs)), Last(cs)).0
  }

  function Remove(hs: seq<Handle>, h: Handle): seq<Handle> {
    if hs == [] then [] else if hs[0] == h then hs[1..] else [hs[0]] + Remove(hs[1..], h)
  }

  /** Device sends issued and not waited for, in order. */
  function Outstanding(log: seq<Event>): seq<Handle> {
    if log == [] then []
    else
      match Last(log)
      case Send(h) => Outstanding(Init(log)) + [h]
      case Waited(h) => Remove(Outstanding(Init(log)), h)
      case _ => Outstanding(Init(log))
  }

  /** No device send is outstanding when a forward starts. */
  ghost predicate ForwardsClear(log: seq<Event>) {
    forall k :: 0 <= k < |log| && log[k] == Forward ==> Outstanding(log[..k]) == []
  }

  ghost predicate Inv(s: State) {
    && s.partial <= |s.work|
    && Distinct(s.lost + s.work)
    && (forall h :: h in s.lost + s.work ==> h < s.next)
    && Outstanding(s.log) == s.lost + s.work[s.partial..]
  }

  lemma {:induction false} RemoveAbsent(hs: seq<Handle>, h: Handle)
    requires h !in hs
    ensures Remove(hs, h) == hs
  {
    if hs != [] { RemoveAbsent(hs[1..], h); }
  }

  lemma {:induction false} RemoveBehind(a: seq<Handle>, b: seq<Handle>, h: Handle)
    requires h !in a
    ensures Remove(a + b, h) == a + Remove(b, h)
  {
    if a == [] {
      assert a + b == b;
    } else {
      RemoveBehind(a[1..], b, h);
      assert (a + b)[1..] == a[1..] + b;
    }
  }

  /** Waiting for the first n handles again: those already waited for change nothing. */
  lemma {:induction false} WaitPrefix(log: seq<Event>, lost: seq<Handle>, work: seq<Handle>, partial: nat, n: nat)
    requires partial <= |work| && n <= |work| && Distinct(lost + work)
    requires Outstanding(log) == lost + work[partial..]
    ensures Outstanding(log + Waits(work[..n])) == lost + work[Max(partial, n)..]
  {
    if n == 0 {
      assert log + Waits(work[..0]) == log;
    } else {
      WaitPrefix(log, lost, work, partial, n - 1);
      WaitsSnoc(log, work, n);
      WaitedRemoves(log + Waits(work[..n - 1]), work[n - 1]);
      WaitOne(lost, work, Max(partial, n - 1), n);
    }
  }

  lemma {:induction false} WaitsSnoc(log: seq<Event>, work: seq<Handle>, n: nat)
    requires 1 <= n <= |work|
    ensures log + Waits(work[..n]) == log + Waits(work[..n - 1]) + [Waited(work[n - 1])]
  {
    assert Waits(work[..n]) == Waits(work[..n - 1]) + [Waited(work[n - 1])];
  }

  lemma {:induction false} WaitedRemoves(log: seq<Event>, h: Handle)
    ensures Outstanding(log + [Waited(h)]) == Remove(Outstanding(log), h)
  {
    assert Init(log + [Waited(h)]) == log;
  }

  lemma {:induction false} WaitOne(lost: seq<Handle>, work: seq<Handle>, m: nat, n: nat)
    requires Distinct(lost + work) && 1 <= n <= |work| && n - 1 <= m <= |work|
    ensures Remove(lost + work[m..], work[n - 1]) == lost + work[Max(m, n)..]
  {
    var h, all := work[n - 1], lost + work;
    assert all[|lost| + n - 1] == h;
    assert forall i :: 0 <= i < |lost| ==> all[i] == lost[i];
    assert forall i :: 0 <= i < |work| ==> all[|lost| + i] == work[i];
    RemoveBehind(lost, work[m..], h);
    if m > n - 1 {
      assert h !in work[m..];
      RemoveAbsent(work[m..], h);
    } else {
      assert work[m..][0] == h && work[m..][1..] == work[n..];
    }
  }

  /** One more event keeps the forwards clear, unless it is a forward with sends outstanding. */
  lemma {:induction false} OneMoreEvent(log: seq<Event>, e: Event)
    ensures ForwardsClear(log + [e]) <==> ForwardsClear(log) && (e == Forward ==> Outstanding(log) == [])
  {
    var more := log + [e];
    assert more[..|log|] == log && more[|log|] == e;
    assert forall k :: 0 <= k < |log| ==> more[k] == log[k] && more[..k] == log[..k];
  }

  lemma {:induction false} EventsQuiet(log: seq<Event>, es: seq<Event>)
    requires Forward !in es
    ensures ForwardsClear(log + es) <==> ForwardsClear(log)
  {
    if es == [] {
      assert log + es == log;
    } else {
      assert es == Init(es) + [Last(es)];
      assert Forward !in Init(es) && Last(es) != Forward;
      EventsQuiet(log, Init(es));
      OneMoreEvent(log + Init(es), Last(es));
      assert log + es == log + Init(es) + [Last(es)];
    }
  }

  lemma {:induction false} SentAdds(log: seq<Event>, h: Handle)
    ensures Outstanding(log + [Send(h)]) == Outstanding(log) + [h]
  {
    assert Init(log + [Send(h)]) == log;
  }

  lemma {:induction false} SendsSnoc(log: seq<Event>, hs: seq<Handle>)
    requires hs != []
    ensures log + Sends(hs) == log + Sends(Init(hs)) + [Send(Last(hs))]
  {
    assert Sends(hs) == Sends(Init(hs)) + [Send(Last(hs))];
  }

  lemma {:induction false} SendAll(log: seq<Event>, hs: seq<Handle>)
    ensures Outstanding(log + Sends(hs)) == Outstanding(log) + hs
  {
    if hs == [] {
      assert log + Sends(hs) == log;
    } else {
      SendAll(log, Init(hs));
      SendsSnoc(log, hs);
      SentAdds(log + Sends(Init(hs)), Last(hs));
      assert hs == Init(hs) + [Last(hs)];
    }
  }

  lemma {:induction false} WaitsDone(s: State)
    requires Inv(s)
    ensures Inv(AfterWaits(s)) && Outstanding(AfterWaits(s).log) == s.lost
    ensures ForwardsClear(AfterWaits(s).log) <==> ForwardsClear(s.log)
  {
    WaitPrefix(s.log, s.lost, s.work, s.partial, |s.work|);
    assert s.work[..|s.work|] == s.work && s.lost + s.work[|s.work|..] == s.lost;
    EventsQuiet(s.log, Waits(s.work));
    var all := s.lost + s.work;
    assert forall i :: 0 <= i < |s.lost| ==> all[i] == s.lost[i] && all[i] in all;
    assert s.lost + [] == s.lost;
  }

  lemma {:induction false} ForwardReached(s: State)
    requires Inv(s) && s.work == []
    ensures Inv(s.(log := s.log + [Forward]))
    ensures ForwardsClear(s.log + [Forward]) <==> ForwardsClear(s.log) && s.lost == []
  {
    assert s.lost + s.work[s.partial..] == s.lost;
    OneMoreEvent(s.log, Forward);
    assert Init(s.log + [Forward]) == s.log;
  }

  lemma {:induction false} WaitFails(s: State, c: Call)
    requires Inv(s) && !WaitsReturn(s, c)
    ensures Inv(Execute(s, c).0)
    ensures ForwardsClear(Execute(s, c).0.log) <==> ForwardsClear(s.log)
  {
    WaitPrefix(s.log, s.lost, s.work, s.partial, c.waitFault.value);
    EventsQuiet(s.log, Waits(s.work[..c.waitFault.value]));
  }

  /** More device sends, all new, with nothing recorded before them. */
  lemma {:induction false} SendsAreNew(s: State, k: nat)
    requires Inv(s) && s.work == []
    ensures var hs := Issue(s.next, k);
            && Outstanding(s.log + Sends(hs)) == s.lost + hs
            && Distinct(s.lost + hs)
            && (forall h :: h in s.lost + hs ==> h < s.next + k)
            && (ForwardsClear(s.log + Sends(hs)) <==> ForwardsClear(s.log))
  {
    SendAll(s.log, Issue(s.next, k));
    EventsQuiet(s.log, Sends(Issue(s.next, k)));
    assert s.lost + s.work == s.lost;
    assert s.lost + s.work[s.partial..] == s.lost;
    assert forall i :: 0 <= i < |s.lost| ==> s.lost[i] in s.lost;
  }

  lemma {:induction false} PassOnKeeps(s: State, c: Call)
    requires Inv(s) && s.work == []
    ensures Inv(PassOn(s, c).0)
    ensures ForwardsClear(PassOn(s, c).0.log) <==> ForwardsClear(s.log)
  {
    if !c.modelRaises && c.output == Intermediate && !c.sending.Refused? {
      var hs := Issue(s.next, c.sending.devices);
      SendsAreNew(s, c.sending.devices);
      assert s.lost + hs + [] == s.lost + hs && hs[0..] == hs;
    }
  }

  lemma {:induction false} ExecuteKeeps(s: State, c: Call)
    requires Inv(s)
    ensures Inv(Execute(s, c).0)
    ensures ForwardsClear(Execute(s, c).0.log) <==> ForwardsClear(s.log) && (StartsForward(s, c) ==> s.lost == [])
    ensures Execute(s, c).0.lost != [] <==> s.lost != [] || LosesSends(s, c)
  {
    if WaitsReturn(s, c) {
      var s1 := AfterWaits(s);
      WaitsDone(s);
      if !c.setupRaises {
        ForwardReached(s1);
        PassOnKeeps(s1.(log := s1.log + [Forward]), c);
      }
    } else {
      WaitFails(s, c);
    }
  }

  /** Some send of the run raised after its first device send. */
  ghost predicate LostSends(cs: seq<Call>) {
    cs != [] && (LostSends(Init(cs)) || LosesSends(Run(Idle, Init(cs)), Last(cs)))
  }

  /** A forward started after that. */
  ghost predicate ForwardAfterLoss(cs: seq<Call>) {
    cs != [] && (ForwardAfterLoss(Init(cs)) || (LostSends(Init(cs)) && StartsForward(Run(Idle, Init(cs)), Last(cs))))
  }

  /** Over every run of steps with exceptions anywhere: every forward starts with no device send
      outstanding exactly when none starts after a send that raised between its device sends. What is
      outstanding are the sends so lost and, behind them, `_pp_send_work` without the handles that a
      raising wait loop had already finished. */
  lemma {:induction false} SendDiscipline(cs: seq<Call>)
    ensures var z := Run(Idle, cs);
            && Inv(z)
            && (ForwardsClear(z.log) <==> !ForwardAfterLoss(cs))
            && (z.lost != [] <==> LostSends(cs))
            && Outstanding(z.log) == z.lost + z.work[z.partial..]
  {
    if cs != [] {
      SendDiscipline(Init(cs));
      ExecuteKeeps(Run(Idle, Init(cs)), Last(cs));
    }
  }

  /** When neither a wait loop nor a send was cut short, `_pp_send_work` is exactly what is outstanding. */
  lemma {:induction false} UncutRuns(cs: seq<Call>)
    requires forall c :: c in cs ==> c.waitFault == None && !c.sending.CutShort?
    ensures ForwardsClear(Run(Idle, cs).log) && Outstanding(Run(Idle, cs).log) == Run(Idle, cs).work
  {
    SendDiscipline(cs);
    UncutKeeps(cs);
    var z := Run(Idle, cs);
    assert z.lost == [] && z.work[z.partial..] == z.work;
    assert [] + z.work == z.work;
  }

  lemma {:induction false} UncutKeeps(cs: seq<Call>)
    requires forall c :: c in cs ==> c.waitFault == None && !c.sending.CutShort?
    ensures !LostSends(cs) && !ForwardAfterLoss(cs) && Run(Idle, cs).partial == 0
  {
    if cs != [] {
      assert Last(cs) in cs;
      assert forall c :: c in Init(cs) ==> c in cs;
      UncutKeeps(Init(cs));
    }
  }

  /** Two steps: the first one's send raises after one device send, and the next forward starts with
      that send outstanding. */
  lemma {:induction false} CutSendReachesForward()
    ensures var lost := Call(None, false, false, Intermediate, CutShort(1));
            var next := Call(None, false, false, Final, Refused);
            !ForwardsClear(Run(Idle, [lost, next]).log)
  {
    var lost, next := Call(None, false, false, Intermediate, CutShort(1)), Call(None, false, false, Final, Refused);
    assert Init([lost, next]) == [lost] && Init([lost]) == [];
    assert LosesSends(Run(Idle, []), lost);
    assert LostSends([lost]);
    SendDiscipline([lost, next]);
  }

  // ---------------------------------------------------------------- what is sent

  /** The handles of the device sends in a log, and the number of forwards it starts. */
  function SentHandles(log: seq<Event>): seq<Handle> {
    if log == [] then [] else SentHandles(Init(log)) + if Last(log).Send? then [Last(log).h] else []
  }

  function Forwards(log: seq<Event>): nat {
    if log == [] then 0 else Forwards(Init(log)) + if Last(log) == Forward then 1 else 0
  }

  /** Device sends that the steps of a run issue: a step whose forward started and returned tensors to
      pass on issues all of them, or those before its send raised. */
  function Issued(cs: seq<Call>): nat {
    if cs == [] then 0
    else
      var c := Last(cs);
      Issued(Init(cs)) +
      if StartsForward(Run(Idle, Init(cs)), c) && !c.modelRaises && c.output == Intermediate && !c.sending.Refused?
      then c.sending.devices else 0
  }

  function Started(cs: seq<Call>): nat {
    if cs == [] then 0
    else Started(Init(cs)) + if StartsForward(Run(Idle, Init(cs)), Last(cs)) then 1 else 0
  }

  lemma {:induction false} OneMoreLogged(log: seq<Event>, e: Event)
    ensures SentHandles(log + [e]) == SentHandles(log) + if e.Send? then [e.h] else []
    ensures Forwards(log + [e]) == Forwards(log) + if e == Forward then 1 else 0
  {
    assert Init(log + [e]) == log;
  }

  lemma {:induction false} WaitsSendNothing(log: seq<Event>, hs: seq<Handle>)
    ensures SentHandles(log + Waits(hs)) == SentHandles(log) && Forwards(log + Waits(hs)) == Forwards(log)
  {
    if hs == [] {
      assert log + Waits(hs) == log;
    } else {
      WaitsSendNothing(log, Init(hs));
      assert Waits(hs) == Waits(Init(hs)) + [Waited(Last(hs))];
      assert log + Waits(hs) == log + Waits(Init(hs)) + [Waited(Last(hs))];
      OneMoreLogged(log + Waits(Init(hs)), Waited(Last(hs)));
    }
  }

  lemma {:induction false} SendsLogged(log: seq<Event>, hs: seq<Handle>)
    ensures SentHandles(log + Sends(hs)) == SentHandles(log) + hs && Forwards(log + Sends(hs)) == Forwards(log)
  {
    if hs == [] {
      assert log + Sends(hs) == log;
    } else {
      SendsLogged(log, Init(hs));
      SendsSnoc(log, hs);
      OneMoreLogged(log + Sends(Init(hs)), Send(Last(hs)));
      assert hs == Init(hs) + [Last(hs)];
    }
  }

  lemma {:induction false} StepLogged(s: State, c: Call)
    ensures var z, n := Execute(s, c).0,
                        if StartsForward(s, c) && !c.modelRaises && c.output == Intermediate && !c.sending.Refused?
                        then c.sending.devices else 0;
            && z.next == s.next + n
            && SentHandles(z.log) == SentHandles(s.log) + Issue(s.next, n)
            && Forwards(z.log) == Forwards(s.log) + if StartsForward(s, c) then 1 else 0
  {
    if !WaitsReturn(s, c) {
      WaitsSendNothing(s.log, s.work[..c.waitFault.value]);
    } else {
      WaitsSendNothing(s.log, s.work);
      var l := s.log + Waits(s.work);
      if !c.setupRaises {
        OneMoreLogged(l, Forward);
        if !c.sending.Refused? { SendsLogged(l + [Forward], Issue(s.next, c.sending.devices)); }
      }
    }
  }

  lemma {:induction false} IssueMore(m: nat, n: nat)
    ensures Issue(0, m) + Issue(m, n) == Issue(0, m + n)
  {
  }

  /** Over every run: the device sends in the log are exactly those of the steps that had tensors to pass
      on, each once and in order, and one forward started for each step that got that far. */
  lemma {:induction false} EverySendIssued(cs: seq<Call>)
    ensures var z := Run(Idle, cs);
            && z.next == Issued(cs)
            && SentHandles(z.log) == Issue(0, Issued(cs))
            && Forwards(z.log) == Started(cs)
  {
    if cs != [] {
      EverySendIssued(Init(cs));
      StepLogged(Run(Idle, Init(cs)), Last(cs));
      IssueMore(Issued(Init(cs)), Issued(cs) - Issued(Init(cs)));
    }
  }

  // ---------------------------------------------------------------- the source's classes

  class AsyncIntermediateTensors {
    const callbacks: seq<int>
    var waited: bool
    var log: seq<Event>

    constructor (handles: seq<int>, postprocess: seq<int>)
      ensures View() == Lazy(handles + postprocess, false, [])
    {
      callbacks := handles + postprocess;
      waited, log := false, [];
    }

    function View(): Lazy
      reads this
    {
      Lazy(callbacks, waited, log)
    }

    method WaitForComm(fault: Option<nat>) returns (ok: bool)
      modifies this
      ensures ok == (old(waited) || !Fails(callbacks, fault)) && waited == ok
      ensures log == old(log) + if old(waited) then []
                                else if ok then Calls(callbacks) else Calls(callbacks[..fault.value + 1])
    {
      if waited { return true; }
      var i := 0;
      while i < |callbacks|
        invariant 0 <= i <= |callbacks| && !waited
        invariant fault.Some? ==> i <= fault.value
        invariant log == old(log) + Calls(callbacks[..i])
      {
        log := log + [Callback(callbacks[i])];
        assert Calls(callbacks[..i + 1]) == Calls(callbacks[..i]) + [Callback(callbacks[i])];
        if fault == Some(i) { return false; }
        i := i + 1;
      }
      assert callbacks[..i] == callbacks;
      waited, ok := true, true;
    }

    /** Attribute access: waits first, and hands the tensors out only if that succeeded. */
    method Tensors(fault: Option<nat>) returns (ok: bool)
      modifies this
      ensures View() == Access(old(View()), fault)
      ensures ok == waited
    {
      ok := WaitForComm(fault);
      if ok { log := log + [Read]; }
    }
  }

  class PipelineWorker {
    var ppSendWork: seq<Handle>
    var next: nat          // the communicator's count of device sends
    var log: seq<Event>
    ghost var partial: nat
    ghost var lost: seq<Handle>

    constructor ()
      ensures View() == Idle
    {
      ppSendWork, next, log, partial, lost := [], 0, [], 0, [];
    }

    ghost function View(): State
      reads this
    {
      State(ppSendWork, next, log, partial, lost)
    }

    /** isend_tensor_dict: some or all of the device sends are issued; false if it raised. */
    method SendTensors(sending: Sending) returns (ok: bool, handles: seq<Handle>)
      requires !sending.Refused?
      modifies this`next, this`log, this`lost
      ensures ok == sending.Returned? && handles == Issue(old(next), sending.devices)
      ensures next == old(next) + sending.devices && log == old(log) + Sends(handles)
      ensures lost == if ok then old(lost) else old(lost) + handles
    {
      handles := Issue(next, sending.devices);
      next, log := next + sending.devices, log + Sends(handles);
      ok := sending.Returned?;
      if !ok { lost := lost + handles; }
    }

    /** The second group of clauses says it for each way a step can end. */
    method ExecuteModel(c: Call) returns (ok: bool)
      modifies this
      ensures (View(), ok) == Execute(old(View()), c)
      ensures c.waitFault.Some? && c.waitFault.value < |old(ppSendWork)| ==>
                !ok && ppSendWork == old(ppSendWork) && log == old(log) + Waits(ppSendWork[..c.waitFault.value])
      ensures c.waitFault == None && c.setupRaises ==>
                !ok && ppSendWork == [] && log == old(log) + Waits(old(ppSendWork))
      ensures c.waitFault == None && !c.setupRaises && (c.modelRaises || c.output == Final || c.sending.Refused?) ==>
                && ok == (!c.modelRaises && c.output == Final)
                && ppSendWork == [] && log == old(log) + Waits(old(ppSendWork)) + [Forward]
      ensures c.waitFault == None && !c.setupRaises && !c.modelRaises && c.output == Intermediate && !c.sending.Refused?
                ==>
                && next == old(next) + c.sending.devices
                && |log| == |old(log)| + |old(ppSendWork)| + 1 + c.sending.devices
                && log[..|old(log)| + |old(ppSendWork)|] == old(log) + Waits(old(ppSendWork))
                && log[|old(log)| + |old(ppSendWork)|] == Forward
                && (forall j :: |old(log)| + |old(ppSendWork)| < j < |log| ==>
                      log[j] == Send(old(next) + (j - |old(log)| - |old(ppSendWork)| - 1)))
                && ok == c.sending.Returned?
                && (ok ==> |ppSendWork| == c.sending.devices
                           && forall i :: 0 <= i < |ppSendWork| ==> ppSendWork[i] == old(next) + i)
                && (!ok ==> ppSendWork == [])
    {
      var i := 0;
      while i < |ppSendWork|
        invariant 0 <= i <= |ppSendWork|
        invariant c.waitFault.Some? ==> i <= c.waitFault.value || c.waitFault.value >= |ppSendWork|
        invariant View() == old(View()).(log := log)
        invariant log == old(log) + Waits(ppSendWork[..i])
      {
        if c.waitFault == Some(i) {
          partial := Max(partial, i);
          return false;
        }
        assert Waits(ppSendWork[..i + 1]) == Waits(ppSendWork[..i]) + [Waited(ppSendWork[i])];
        log := log + [Waited(ppSendWork[i])];
        i := i + 1;
      }
      assert ppSendWork[..i] == ppSendWork;
      ppSendWork, partial := [], 0;
      if c.setupRaises { return false; }
      log := log + [Forward];
      if c.modelRaises { return false; }
      if c.output == Final { return true; }
      if c.sending.Refused? { return false; }
      var handles;
      ok, handles := SendTensors(c.sending);
      if ok { ppSendWork := handles; }
    }
  }
}
