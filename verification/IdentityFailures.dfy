/** When a caller of the identity file returns false, and how soon a caller left alone returns. */
module IdentityFailures {
  import opened Bits
  import opened Finite
  import opened IdentityProtocol

  datatype Act = Act(caller: Pid, event: Event)

  /** A run with the events that made it. */
  ghost predicate Traced(c: Config, run: seq<State>, acts: seq<Act>) {
    && |run| == |acts| + 1 && Init(run[0])
    && forall k :: 0 <= k < |acts| ==> Stepped(c, run[k], acts[k], run[k + 1])
  }

  ghost predicate Stepped(c: Config, s: State, a: Act, s': State) {
    Enabled(c, s, a.caller, a.event) && s' == Apply(c, s, a.caller, a.event)
  }

  lemma TraceSize(c: Config, run: seq<State>, acts: seq<Act>)
    requires Traced(c, run, acts)
    ensures |run| == |acts| + 1
  {}

  lemma TracedIsRun(c: Config, run: seq<State>, acts: seq<Act>)
    requires Traced(c, run, acts)
    ensures Run(c, run)
  {
    hide Init, Enabled, Apply;
    forall k | 0 <= k < |run| - 1 ensures Next(c, run[k], run[k + 1]) {
      assert Stepped(c, run[k], acts[k], run[k + 1]);
    }
  }

  /** Every run has such events. */
  lemma {:induction false} RunIsTraced(c: Config, run: seq<State>) returns (acts: seq<Act>)
    requires Run(c, run)
    ensures Traced(c, run, acts)
  {
    hide Init, Enabled, Apply;
    if |run| == 1 {
      acts := [];
    } else {
      var n := |run| - 2;
      var init := run[..n + 1];
      forall k | 0 <= k < |init| - 1 ensures Next(c, init[k], init[k + 1]) {
        assert Next(c, run[k], run[k + 1]);
      }
      acts := RunIsTraced(c, init);
      assert Next(c, run[n], run[n + 1]);
      var p, e :| Enabled(c, run[n], p, e) && run[n + 1] == Apply(c, run[n], p, e);
      assert forall k :: 0 <= k < |acts| ==> Stepped(c, init[k], acts[k], init[k + 1]);
      acts := acts + [Act(p, e)];
    }
  }

  // ----- what makes a caller fail

  /** A system call reports an error, other than a file in the way of a new one. */
  predicate CallFails(e: Event) {
    match e
    case CreateError(retry) => !retry
    case WriteError(retry) => !retry
    case _ => e.OpenError? || e.ReadError? || e.DrawError? || e.LinkError?
  }

  /** Its temporary is gone when it comes to link it. */
  ghost predicate Robbed(s: State, a: Act) {
    a.caller in s.callers && s.callers[a.caller].Linking? && a.event.Link? &&
    Temp(s.callers[a.caller].temp) !in s.names
  }

  /** The identity it has read to the end is not 16 bytes. */
  ghost predicate ReadsTorn(s: State, a: Act) {
    a.caller in s.callers && s.callers[a.caller].Reading? && a.event.ReadEnd? && |s.callers[a.caller].got| != 16
  }

  ghost predicate Fails(s: State, a: Act) {
    CallFails(a.event) || Robbed(s, a) || ReadsTorn(s, a)
  }

  /** One of the caller's own first k events failed. */
  ghost predicate FailedBefore(run: seq<State>, acts: seq<Act>, k: nat, p: Pid)
    requires k <= |acts| < |run|
  {
    exists j :: 0 <= j < k && acts[j].caller == p && Fails(run[j], acts[j])
  }

  /** On its way to returning false. */
  predicate Doomed(pc: Pc) {
    match pc
    case Failed => true
    case Discarding(_, _, retry) => !retry
    case Unlinking(_, _, outcome) => outcome.Error?
    case UnlinkingAgain(_, outcome) => !outcome.Exists?
    case _ => false
  }

  ghost predicate DoomedByFailure(s: State, a: Act, s': State) {
    var p := a.caller;
    p in s.callers && p in s'.callers && (Doomed(s'.callers[p]) <==> Doomed(s.callers[p]) || Fails(s, a))
  }

  lemma EarlyStepDooms(c: Config, s: State, a: Act, s': State)
    requires Stepped(c, s, a, s') && !HasTemp(s.callers[a.caller])
    ensures DoomedByFailure(s, a, s')
  {}

  lemma OwnerStepDooms(c: Config, s: State, a: Act, s': State)
    requires Stepped(c, s, a, s') && Owns(s.callers[a.caller])
    ensures DoomedByFailure(s, a, s')
  {}

  lemma UnlinkerStepDooms(c: Config, s: State, a: Act, s': State)
    requires Stepped(c, s, a, s') && HasTemp(s.callers[a.caller]) && !Owns(s.callers[a.caller])
    ensures DoomedByFailure(s, a, s')
  {}

  lemma StepDooms(c: Config, s: State, a: Act, s': State, p: Pid)
    requires Stepped(c, s, a, s') && p in s'.callers
    ensures p in s.callers
    ensures Doomed(s'.callers[p]) <==> Doomed(s.callers[p]) || (a.caller == p && Fails(s, a))
  {
    OnlyItsCaller(c, s, a, s', p);
    hide Apply, Enabled, Doomed, Fails;
    if a.caller == p {
      if !HasTemp(s.callers[p]) {
        EarlyStepDooms(c, s, a, s');
      } else if Owns(s.callers[p]) {
        OwnerStepDooms(c, s, a, s');
      } else {
        UnlinkerStepDooms(c, s, a, s');
      }
    }
  }

  lemma OnlyItsCaller(c: Config, s: State, a: Act, s': State, p: Pid)
    requires Stepped(c, s, a, s') && p in s'.callers
    ensures p in s.callers && (p != a.caller ==> s'.callers[p] == s.callers[p])
  {}

  /** A caller is on its way to returning false exactly when one of its own events failed: losing the race, or finding
      a file in the way, never does it. */
  lemma {:induction false} DoomedExactlyWhen(c: Config, run: seq<State>, acts: seq<Act>, k: nat, p: Pid)
    requires Traced(c, run, acts) && k <= |acts| && p in run[k].callers
    ensures Doomed(run[k].callers[p]) <==> FailedBefore(run, acts, k, p)
  {
    hide Stepped, Fails, Doomed;
    if k == 0 {
      StartsSound(run[0], p);
    } else {
      var j := k - 1;
      assert Stepped(c, run[j], acts[j], run[j + 1]);
      StepDooms(c, run[j], acts[j], run[k], p);
      DoomedExactlyWhen(c, run, acts, j, p);
    }
  }

  lemma StartsSound(s: State, p: Pid)
    requires Init(s) && p in s.callers
    ensures !Doomed(s.callers[p])
  {}

  /** So a caller that returns false met a failure of its own, and one that returns true met none. */
  lemma ReturnsByItsEvents(c: Config, run: seq<State>, acts: seq<Act>, k: nat, p: Pid)
    requires Traced(c, run, acts) && k <= |acts| && p in run[k].callers
    ensures run[k].callers[p].Failed? ==> FailedBefore(run, acts, k, p)
    ensures run[k].callers[p].Done? ==> !FailedBefore(run, acts, k, p)
  {
    hide Traced, FailedBefore;
    DoomedExactlyWhen(c, run, acts, k, p);
  }

  // ----- callers whose calls all succeed

  /** None of the caller's system calls reports an error. */
  ghost predicate Calm(acts: seq<Act>, p: Pid) {
    forall j :: 0 <= j < |acts| && acts[j].caller == p ==> !CallFails(acts[j].event)
  }

  /** An identity that is there from the start is whole. */
  ghost predicate StartsWhole(s: State) {
    Identity in s.names ==> HoldsSixteen(s)
  }

  lemma StaysWhole(c: Config, run: seq<State>, k: nat)
    requires Run(c, run) && Safe(c) && k < |run| && StartsWhole(run[0])
    ensures StartsWhole(run[k])
  {
    hide Next, Init, Safe;
    if Identity in run[k].names {
      if Identity in run[0].names {
        PublishedForGood(c, run, 0, k);
      } else {
        NeverPartial(c, run, k);
      }
    }
  }

  lemma NotRobbed(c: Config, s: State, a: Act)
    requires Inv(c, s) && !c.namesRepeat
    ensures !Robbed(s, a)
  {
    hide CallerOk;
  }

  lemma NotTorn(c: Config, s: State, a: Act)
    requires Inv(c, s) && StartsWhole(s) && Enabled(c, s, a.caller, a.event)
    ensures !ReadsTorn(s, a)
  {
    hide TempsOwned;
    assert CallerOk(s, s.callers[a.caller]);
  }

  /** Without repeated temporary names, a caller none of whose calls reports an error never fails, and what it returns
      is the 16 bytes published. */
  lemma CalmNeverFails(c: Config, run: seq<State>, acts: seq<Act>, p: Pid)
    requires Traced(c, run, acts) && !c.namesRepeat && StartsWhole(run[0]) && Calm(acts, p)
    requires p in run[|acts|].callers
    ensures !Doomed(run[|acts|].callers[p])
    ensures run[|acts|].callers[p].Done? ==> Published(run[|acts|], run[|acts|].callers[p].id)
  {
    hide Init, Inv, StartsWhole, Enabled, Apply, Robbed, ReadsTorn, Doomed, CallFails, Published, Run;
    TracedIsRun(c, run, acts);
    forall j | 0 <= j < |acts| && acts[j].caller == p ensures !Fails(run[j], acts[j]) {
      assert Stepped(c, run[j], acts[j], run[j + 1]);
      RunKeepsInv(c, run, j);
      StaysWhole(c, run, j);
      NotRobbed(c, run[j], acts[j]);
      NotTorn(c, run[j], acts[j]);
    }
    DoomedExactlyWhen(c, run, acts, |acts|, p);
    RunKeepsInv(c, run, |acts|);
    DoneIsPublished(c, run[|acts|], p);
  }

  lemma DoneIsPublished(c: Config, s: State, p: Pid)
    requires Inv(c, s) && p in s.callers
    ensures s.callers[p].Done? ==> Published(s, s.callers[p].id)
  {
    hide TempsOwned;
    assert CallerOk(s, s.callers[p]);
  }

  // ----- a caller left alone

  /** No event of an error at all, not even of a file in the way. */
  predicate Errs(e: Event) {
    e.OpenError? || e.ReadError? || e.DrawError? || e.CreateError? || e.WriteError? || e.LinkError?
  }

  /** The steps a caller left alone has before it returns, at most. */
  ghost function Rank(s: State, pc: Pc): (r: nat)
    ensures r <= 44
  {
    match pc
    case Failed => 0
    case Done(_) => 0
    case Reading(_, got) => if |got| <= 17 then 18 - |got| else 1
    case Unlinking(_, _, outcome) =>
      if outcome.Exists? then (if Identity in s.names then 21 else 44) else if outcome.Linked? then 1 else 2
    case UnlinkingAgain(_, outcome) => if outcome.Exists? then Restart(s) + 1 else 1
    case Discarding(_, _, retry) => if retry then Restart(s) + 1 else 1
    case Opening => Restart(s)
    case Linking(_, _, _) => 22
    case Writing(_, _, _, written) => if written <= 16 then 39 - written else 23
    case Creating(_) => 40
    case Drawing => 41
  }

  /** Opening a published identity leads to reading it; opening none, to making one. */
  ghost function Restart(s: State): nat {
    if Identity in s.names then 19 else 42
  }

  ghost predicate Tires(s: State, a: Act, s': State) {
    a.caller in s.callers && a.caller in s'.callers &&
    Rank(s', s'.callers[a.caller]) < Rank(s, s.callers[a.caller])
  }

  lemma EarlyStepTires(c: Config, s: State, a: Act, s': State)
    requires Stepped(c, s, a, s') && !Errs(a.event) && !HasTemp(s.callers[a.caller])
    ensures Tires(s, a, s')
  {}

  lemma OwnerStepTires(c: Config, s: State, a: Act, s': State)
    requires Stepped(c, s, a, s') && !Errs(a.event) && Owns(s.callers[a.caller])
    requires CallerOk(s, s.callers[a.caller])
    ensures Tires(s, a, s')
  {}

  lemma UnlinkerStepTires(c: Config, s: State, a: Act, s': State)
    requires Stepped(c, s, a, s') && !Errs(a.event) && HasTemp(s.callers[a.caller]) && !Owns(s.callers[a.caller])
    ensures Tires(s, a, s')
  {}

  lemma StepTires(c: Config, s: State, a: Act, s': State)
    requires Inv(c, s) && Stepped(c, s, a, s') && !Errs(a.event)
    ensures Tires(s, a, s')
  {
    hide TempsOwned, Apply, Errs, Tires;
    assert CallerOk(s, s.callers[a.caller]);
    hide Inv, CallerOk;
    if !HasTemp(s.callers[a.caller]) {
      EarlyStepTires(c, s, a, s');
    } else if Owns(s.callers[a.caller]) {
      OwnerStepTires(c, s, a, s');
    } else {
      UnlinkerStepTires(c, s, a, s');
    }
  }

  /** The caller alone acts from j to k, and meets no error. */
  ghost predicate Alone(acts: seq<Act>, j: nat, k: nat, p: Pid) {
    j <= k <= |acts| && forall m :: j <= m < k ==> acts[m].caller == p && !Errs(acts[m].event)
  }

  /** A caller left alone, wherever the others are, returns within 44 steps. */
  lemma {:induction false} AloneReturns(c: Config, run: seq<State>, acts: seq<Act>, j: nat, k: nat, p: Pid)
    requires Traced(c, run, acts) && Safe(c) && Alone(acts, j, k, p) && p in run[k].callers
    ensures p in run[j].callers && k - j + Rank(run[k], run[k].callers[p]) <= Rank(run[j], run[j].callers[p]) <= 44
  {
    hide Inv, Init, Errs, Rank, Safe, Apply, Enabled;
    if j < k {
      TracedIsRun(c, run, acts);
      RunKeepsInv(c, run, k - 1);
      assert Stepped(c, run[k - 1], acts[k - 1], run[k - 1 + 1]);
      OnlyItsCaller(c, run[k - 1], acts[k - 1], run[k], p);
      StepTires(c, run[k - 1], acts[k - 1], run[k]);
      AloneReturns(c, run, acts, j, k - 1, p);
    }
  }

  /** A caller that has not returned has a step without an error to take. */
  lemma NeverStuck(c: Config, s: State, p: Pid) returns (e: Event)
    requires Inv(c, s) && p in s.callers && !s.callers[p].Failed? && !s.callers[p].Done?
    ensures Enabled(c, s, p, e) && !Errs(e)
  {
    hide TempsOwned;
    assert CallerOk(s, s.callers[p]);
    if s.callers[p].Creating? {
      var t := Unused(s.used);
      assert Temp(t) !in s.names;
      e := Create(t);
    } else {
      hide Inv;
      e := NextCall(c, s, p);
    }
  }

  lemma NextCall(c: Config, s: State, p: Pid) returns (e: Event)
    requires p in s.callers && !s.callers[p].Failed? && !s.callers[p].Done? && !s.callers[p].Creating?
    requires CallerOk(s, s.callers[p])
    ensures Enabled(c, s, p, e) && !Errs(e)
  {
    match s.callers[p]
    case Opening => e := Open;
    case Reading(i, got) =>
      e := if |got| == 17 || |got| == |s.data[i]| then ReadEnd else ReadSome(1);
    case Drawing => e := Draw(seq(16, _ => 0));
    case Writing(id, _, _, written) =>
      e := if written == 16 then Close else Write(1);
    case Linking(_, _, _) => e := Link;
    case _ => e := Unlink;
  }

  lemma {:induction false} Unused(used: set<nat>) returns (t: nat)
    ensures t !in used && forall u :: u in used ==> u < t
    decreases |used|
  {
    if used == {} {
      t := 0;
    } else {
      var u :| u in used;
      var v := Unused(used - {u});
      assert forall w :: w in used ==> w == u || w in used - {u};
      t := if v <= u then u + 1 else v;
    }
  }

  lemma ExtendTraced(c: Config, run: seq<State>, acts: seq<Act>, a: Act) returns (s: State)
    requires Traced(c, run, acts) && Enabled(c, run[|acts|], a.caller, a.event)
    ensures s == Apply(c, run[|acts|], a.caller, a.event) && Traced(c, run + [s], acts + [a])
  {
    hide Init, Enabled, Apply;
    s := Apply(c, run[|acts|], a.caller, a.event);
    var longer, more := run + [s], acts + [a];
    forall k | 0 <= k < |more| ensures Stepped(c, longer[k], more[k], longer[k + 1]) {
      if k < |acts| {
        assert Stepped(c, run[k], acts[k], run[k + 1]);
      }
    }
  }

  /** From every reachable state a caller can return by its own next 44 steps. */
  lemma {:induction false} FinishAlone(c: Config, run: seq<State>, acts: seq<Act>, p: Pid)
    returns (run': seq<State>, acts': seq<Act>)
    requires Traced(c, run, acts) && Safe(c) && p in run[|acts|].callers
    ensures Traced(c, run', acts') && run <= run' && acts <= acts'
    ensures Alone(acts', |acts|, |acts'|, p) && p in run'[|acts'|].callers
    ensures |acts'| <= |acts| + Rank(run[|acts|], run[|acts|].callers[p]) <= |acts| + 44
    ensures run'[|acts'|].callers[p].Failed? || run'[|acts'|].callers[p].Done?
    decreases Rank(run[|acts|], run[|acts|].callers[p])
  {
    hide Init, Inv, Enabled, Apply, Rank, Errs, Safe;
    var s := run[|acts|];
    if s.callers[p].Failed? || s.callers[p].Done? {
      run', acts' := run, acts;
    } else {
      TracedIsRun(c, run, acts);
      RunKeepsInv(c, run, |acts|);
      var e := NeverStuck(c, s, p);
      var next := ExtendTraced(c, run, acts, Act(p, e));
      StepTires(c, s, Act(p, e), next);
      run', acts' := FinishAlone(c, run + [next], acts + [Act(p, e)], p);
    }
  }

  /** A caller none of whose calls reported an error can always return true, left alone, with the published identity. */
  lemma CalmReturns(c: Config, run: seq<State>, acts: seq<Act>, p: Pid)
    returns (run': seq<State>, acts': seq<Act>, id: Bytes)
    requires Traced(c, run, acts) && !c.namesRepeat && StartsWhole(run[0]) && Calm(acts, p)
    requires p in run[|acts|].callers
    ensures Traced(c, run', acts') && run <= run' && acts <= acts'
    ensures Alone(acts', |acts|, |acts'|, p) && |acts'| <= |acts| + 44
    ensures p in run'[|acts'|].callers && run'[|acts'|].callers[p] == Done(id) && Published(run'[|acts'|], id)
  {
    hide Traced, Rank, StartsWhole, Published;
    run', acts' := FinishAlone(c, run, acts, p);
    forall j | 0 <= j < |acts'| && acts'[j].caller == p ensures !CallFails(acts'[j].event) {
      if j < |acts| {
        assert acts[j] == acts'[j];
      }
    }
    TraceSize(c, run, acts);
    TraceSize(c, run', acts');
    assert run'[0] == run[0];
    CalmNeverFails(c, run', acts', p);
    id := run'[|acts'|].callers[p].id;
  }

  // ----- why repeated temporary names matter: a loser's second unlink robs the next writer

  /** In no run that starts without a torn identity does a caller fail whose calls all succeeded. */
  ghost predicate CalmSucceed(c: Config) {
    forall run: seq<State>, acts: seq<Act>, p: Pid ::
      Traced(c, run, acts) && StartsWhole(run[0]) && Calm(acts, p) && p in run[|acts|].callers ==>
        !run[|acts|].callers[p].Failed?
  }

  /** A trace under construction: it ends in s, and nobody met an error. */
  ghost predicate Built(c: Config, run: seq<State>, acts: seq<Act>, s: State) {
    Traced(c, run, acts) && run[|acts|] == s && Identity !in run[0].names &&
    forall j :: 0 <= j < |acts| ==> !Errs(acts[j].event)
  }

  lemma Build(c: Config, run: seq<State>, acts: seq<Act>, s: State, p: Pid, e: Event)
    returns (longer: seq<State>, more: seq<Act>, s': State)
    requires Built(c, run, acts, s) && Enabled(c, s, p, e) && !Errs(e)
    ensures s' == Apply(c, s, p, e) && Built(c, longer, more, s')
  {
    hide Traced, Enabled, Apply, Errs;
    TraceSize(c, run, acts);
    s' := ExtendTraced(c, run, acts, Act(p, e));
    longer, more := run + [s'], acts + [Act(p, e)];
  }

  lemma BuildEmpty(c: Config, run: seq<State>, acts: seq<Act>, s: State, p: Pid, id: Bytes, t: nat)
    returns (longer: seq<State>, more: seq<Act>, s': State)
    requires Built(c, run, acts, s) && p in s.callers && s.callers[p] == Drawing && |id| == 16
    requires c.namesRepeat && Temp(t) !in s.names
    ensures s' == State(s.names[Temp(t) := s.next], s.data[s.next := []], s.next + 1, s.used + {t},
                        s.callers[p := Writing(id, t, s.next, 0)])
    ensures Built(c, longer, more, s')
  {
    hide Built;
    longer, more, s' := Build(c, run, acts, s, p, Draw(id));
    longer, more, s' := Build(c, longer, more, s', p, Create(t));
    assert s'.callers == s.callers[p := Writing(id, t, s.next, 0)];
  }

  /** A caller that found no identity writes its own to a temporary whose name is free. */
  lemma BuildFile(c: Config, run: seq<State>, acts: seq<Act>, s: State, p: Pid, id: Bytes, t: nat)
    returns (longer: seq<State>, more: seq<Act>, s': State)
    requires Built(c, run, acts, s) && p in s.callers && s.callers[p] == Drawing && |id| == 16
    requires c.namesRepeat && Temp(t) !in s.names
    ensures s' == State(s.names[Temp(t) := s.next], s.data[s.next := id], s.next + 1, s.used + {t},
                        s.callers[p := Linking(id, t, s.next)])
    ensures Built(c, longer, more, s')
  {
    hide Built;
    longer, more, s' := BuildEmpty(c, run, acts, s, p, id, t);
    longer, more, s' := Build(c, longer, more, s', p, Write(16));
    assert [] + id[0..16] == id;
    assert s'.data == s.data[s.next := id];
    longer, more, s' := Build(c, longer, more, s', p, Close);
    assert s'.callers == s.callers[p := Linking(id, t, s.next)];
  }

  lemma BuildDrawing(c: Config) returns (run: seq<State>, acts: seq<Act>, s: State)
    ensures s == State(map[], map[], 0, {}, map[0 := Drawing, 1 := Drawing, 2 := Drawing])
    ensures Built(c, run, acts, s)
  {
    s := State(map[], map[], 0, {}, map[0 := Opening, 1 := Opening, 2 := Opening]);
    InitOfEmpty(s);
    run, acts := [s], [];
    assert Built(c, run, acts, s);
    hide Built;
    run, acts, s := Build(c, run, acts, s, 0, Open);
    run, acts, s := Build(c, run, acts, s, 1, Open);
    run, acts, s := Build(c, run, acts, s, 2, Open);
  }

  lemma BuildPublished(c: Config, id: Bytes) returns (run: seq<State>, acts: seq<Act>, s: State)
    requires c.namesRepeat && |id| == 16
    ensures s == State(map[Identity := 0], map[0 := id], 1, {0}, map[0 := Done(id), 1 := Drawing, 2 := Drawing])
    ensures Built(c, run, acts, s)
  {
    hide Built;
    run, acts, s := BuildDrawing(c);
    run, acts, s := BuildFile(c, run, acts, s, 0, id, 0);
    run, acts, s := Build(c, run, acts, s, 0, Link);
    assert s.names == map[Temp(0) := 0, Identity := 0];
    run, acts, s := Build(c, run, acts, s, 0, Unlink);
    assert s.names == map[Identity := 0];
  }

  /** The first caller publishes; the second loses the race and has unlinked once. */
  lemma BuildLoser(c: Config, id: Bytes) returns (run: seq<State>, acts: seq<Act>, s: State)
    requires c.namesRepeat && |id| == 16
    ensures s == State(map[Identity := 0], map[0 := id, 1 := id], 2, {0},
                       map[0 := Done(id), 1 := UnlinkingAgain(0, Exists), 2 := Drawing])
    ensures Built(c, run, acts, s)
  {
    hide Built;
    run, acts, s := BuildPublished(c, id);
    run, acts, s := BuildFile(c, run, acts, s, 1, id, 0);
    run, acts, s := Build(c, run, acts, s, 1, Link);
    run, acts, s := Build(c, run, acts, s, 1, Unlink);
    assert s.names == map[Identity := 0];
  }

  /** The third caller takes the free name again, and loses it to the second's second unlink. */
  lemma BuildRobbed(c: Config, id: Bytes) returns (run: seq<State>, acts: seq<Act>, s: State)
    requires c.namesRepeat && |id| == 16
    ensures s == State(map[Identity := 0], map[0 := id, 1 := id, 2 := id], 3, {0},
                       map[0 := Done(id), 1 := Opening, 2 := Linking(id, 0, 2)])
    ensures Built(c, run, acts, s)
  {
    hide Built;
    run, acts, s := BuildLoser(c, id);
    run, acts, s := BuildFile(c, run, acts, s, 2, id, 0);
    run, acts, s := Build(c, run, acts, s, 1, Unlink);
    assert s.names == map[Identity := 0];
  }

  /** It returns false, though the identity is there and no call before its link reported an error. */
  lemma RobbedCallerFails(c: Config, id: Bytes) returns (run: seq<State>, acts: seq<Act>, s: State)
    requires c.namesRepeat && |id| == 16
    ensures s == State(map[Identity := 0], map[0 := id, 1 := id, 2 := id], 3, {0},
                       map[0 := Done(id), 1 := Opening, 2 := Failed])
    ensures Built(c, run, acts, s)
  {
    hide Built;
    run, acts, s := BuildRobbed(c, id);
    run, acts, s := Build(c, run, acts, s, 2, Link);
    run, acts, s := Build(c, run, acts, s, 2, Unlink);
    assert s.names == map[Identity := 0];
    run, acts, s := Build(c, run, acts, s, 2, Unlink);
    assert s.names == map[Identity := 0];
  }

  /** Callers whose calls all succeed never fail, exactly when temporary names do not repeat. */
  lemma CalmSucceedExactlyWhen(c: Config)
    ensures CalmSucceed(c) <==> !c.namesRepeat
  {
    hide Stepped, Init, StartsWhole, Calm;
    if c.namesRepeat {
      var id: Bytes := seq(16, _ => 0);
      var run, acts, s := RobbedCallerFails(c, id);
      BuiltIsCalm(c, run, acts, s, 2);
    } else {
      forall run: seq<State>, acts: seq<Act>, p: Pid |
        Traced(c, run, acts) && StartsWhole(run[0]) && Calm(acts, p) && p in run[|acts|].callers
        ensures !run[|acts|].callers[p].Failed?
      {
        CalmNeverFails(c, run, acts, p);
      }
    }
  }

  lemma BuiltIsCalm(c: Config, run: seq<State>, acts: seq<Act>, s: State, p: Pid)
    requires Built(c, run, acts, s)
    ensures |run| == |acts| + 1 && Traced(c, run, acts) && StartsWhole(run[0]) && Calm(acts, p) && run[|acts|] == s
  {}
}
