/** Which checkouts are on disk, in every run, and what becomes of those that are not. */
module BrokerDurability {
  import opened Base
  import opened RegistrySpec
  import opened BrokerSteps
  import opened BrokerRuns

  /** While the broker is up, a remembered checkout is on disk exactly when it is not one whose failed write is still outstanding. */
  ghost predicate Written(s: State) {
    if s.up then forall id :: id in s.live ==> (id in s.file <==> id !in s.unsaved) else s.unsaved == {}
  }

  lemma AddWritten(s: State, t: nat, disk: bool)
    requires Inv(s) && Written(s) && Enabled(s, Add(t, disk))
    ensures Written(Do(s, Add(t, disk)))
  {
    assert PhaseOk(s, PhaseOf(s, t));
  }

  lemma BeginWritten(s: State, t: nat)
    requires Written(s) && Enabled(s, Begin(t))
    ensures Written(Do(s, Begin(t)))
  {
    assert Do(s, Begin(t)).live.Keys == s.live.Keys;
  }

  lemma SettleWritten(s: State, t: nat)
    requires Written(s) && Enabled(s, Settle(t))
    ensures Written(Do(s, Settle(t)))
  {
    SettledLive(s, t);
  }

  lemma SaveWritten(s: State, t: nat, disk: bool)
    requires Written(s) && Enabled(s, Save(t, disk))
    ensures Written(Do(s, Save(t, disk)))
  {
  }

  lemma ProcessWritten(s: State, step: Step)
    requires Written(s) && Enabled(s, step) && (step.Tick? || step.Crash? || step.Restart?)
    requires !s.up ==> s.unsaved == {}
    ensures Written(Do(s, step))
  {
  }

  lemma StepWritten(s: State, step: Step)
    requires Inv(s) && Written(s) && Enabled(s, step)
    ensures Written(Do(s, step))
  {
    match step
    case Add(t, disk) => AddWritten(s, t, disk);
    case Begin(t) => BeginWritten(s, t);
    case Settle(t) => SettleWritten(s, t);
    case Save(t, disk) => SaveWritten(s, t, disk);
    case Tick(_) => ProcessWritten(s, step);
    case Crash => ProcessWritten(s, step);
    case Restart(_, _) => ProcessWritten(s, step);
    case _ => QuietMoves(s, step);
  }

  lemma {:induction false} RunWritten(s: State, steps: seq<Step>)
    requires Inv(s) && Written(s) && Runs(s, steps)
    ensures Written(After(s, steps))
    decreases |steps|
  {
    if steps != [] {
      StepInv(s, steps[0]);
      StepWritten(s, steps[0]);
      RunWritten(Do(s, steps[0]), steps[1..]);
    }
  }

  /**
   In every run, a checkout whose value is about to be shared is on disk, with
   the handle it was issued with, exactly when no failed write of its own is
   still outstanding.
   */
  lemma SharedIsFiledIff(steps: seq<Step>, t: nat, id: string)
    requires Runs(INIT, steps) && Enabled(After(INIT, steps), Reuse(t, Some(id)))
    ensures var s := After(INIT, steps);
            && id in s.live && id in s.issued
            && (id in s.file <==> id !in s.unsaved)
            && (id in s.file ==> s.file[id].info.handle == s.issued[id].handle)
  {
    RunInv(INIT, steps);
    RunWritten(INIT, steps);
    SharedFiled(After(INIT, steps), t, id);
  }

  lemma SharedFiled(s: State, t: nat, id: string)
    requires Inv(s) && Written(s) && Enabled(s, Reuse(t, Some(id)))
    ensures id in s.live && id in s.issued && (id in s.file <==> id !in s.unsaved)
    ensures id in s.file ==> s.file[id].info.handle == s.issued[id].handle
  {
  }

  // ---------------------------------------------------------------- lost for good

  /** Issued, and known to neither memory, nor disk, nor any thread. */
  ghost predicate Lost(s: State, id: string) {
    && id in s.issued && id !in s.live && id !in s.file
    && forall t :: t in s.threads ==> !Busy(s.threads[t], id) && !(s.threads[t].Holding? && s.threads[t].info.id == id)
  }

  lemma StillLost(s: State, step: Step, id: string)
    requires Inv(s) && Lost(s, id) && Enabled(s, step)
    ensures Lost(Do(s, step), id) && (id in Do(s, step).confirmed <==> id in s.confirmed)
  {
    match step
    case Begin(t) => LostBegin(s, t, id);
    case Settle(t) => LostSettle(s, t, id);
    case Call(t, ok) => LostCall(s, t, ok, id);
    case Add(t, disk) => LostAdd(s, t, disk, id);
    case _ => LostQuiet(s, step, id);
  }

  lemma LostQuiet(s: State, step: Step, id: string)
    requires Lost(s, id) && Enabled(s, step) && !step.Begin? && !step.Settle? && !step.Call? && !step.Add?
    ensures Lost(Do(s, step), id) && (id in Do(s, step).confirmed <==> id in s.confirmed)
  {
    forall u | u in Do(s, step).threads ensures !Busy(Do(s, step).threads[u], id) {
      if u in s.threads && Do(s, step).threads[u] == s.threads[u] {
      } else {
        assert BrokerSteps.Targets(Do(s, step).threads[u]) == [];
      }
    }
  }

  lemma LostAdd(s: State, t: nat, disk: bool, id: string)
    requires Lost(s, id) && Enabled(s, Add(t, disk))
    ensures Lost(Do(s, Add(t, disk)), id) && Do(s, Add(t, disk)).confirmed == s.confirmed
  {
    var s' := Do(s, Add(t, disk));
    forall u | u in s'.threads ensures !Busy(s'.threads[u], id) {
      assert u != t ==> s'.threads[u] == s.threads[u];
    }
  }

  lemma LostBegin(s: State, t: nat, id: string)
    requires Inv(s) && Lost(s, id) && Enabled(s, Begin(t))
    ensures Lost(Do(s, Begin(t)), id) && Do(s, Begin(t)).confirmed == s.confirmed
  {
    var s' := Do(s, Begin(t));
    BeginTargets(s, PhaseOf(s, t).ids);
    forall u | u in s'.threads ensures !Busy(s'.threads[u], id) {
      assert u != t ==> s'.threads[u] == s.threads[u];
    }
  }

  lemma LostSettle(s: State, t: nat, id: string)
    requires Lost(s, id) && Enabled(s, Settle(t))
    ensures Lost(Do(s, Settle(t)), id) && Do(s, Settle(t)).confirmed == s.confirmed
  {
    var s' := Do(s, Settle(t));
    var asked := PhaseOf(s, t).asked;
    forall u | u in s'.threads ensures !Busy(s'.threads[u], id) {
      if u == t {
        if Busy(s'.threads[t], id) { LaterBusy(asked, PhaseOf(s, t).ok, id); }
      }
    }
  }

  lemma LaterBusy(asked: seq<Info>, ok: bool, id: string)
    requires asked != [] && Busy(Next(asked), id)
    ensures Busy(Returned(asked, ok), id)
  {
    var k :| 0 <= k < |BrokerSteps.Targets(Next(asked))| && BrokerSteps.Targets(Next(asked))[k].id == id;
    assert BrokerSteps.Targets(Returned(asked, ok))[k + 1].id == id;
  }

  lemma LostCall(s: State, t: nat, ok: bool, id: string)
    requires Lost(s, id) && Enabled(s, Call(t, ok))
    ensures Lost(Do(s, Call(t, ok)), id) && (id in Do(s, Call(t, ok)).confirmed <==> id in s.confirmed)
  {
    var s' := Do(s, Call(t, ok));
    var p := PhaseOf(s, t);
    assert BrokerSteps.Targets(p)[0] == p.todo[0];
    forall u | u in s'.threads ensures !Busy(s'.threads[u], id) {
      if u == t { assert BrokerSteps.Targets(s'.threads[t]) == BrokerSteps.Targets(p); }
    }
  }

  /** No later step of any run ever revokes it. */
  lemma {:induction false} LostForever(s: State, steps: seq<Step>, id: string)
    requires Inv(s) && Lost(s, id) && Runs(s, steps)
    ensures Lost(After(s, steps), id) && (id in After(s, steps).confirmed <==> id in s.confirmed)
    decreases |steps|
  {
    if steps != [] {
      StepInv(s, steps[0]);
      StillLost(s, steps[0], id);
      LostForever(Do(s, steps[0]), steps[1..], id);
    }
  }

  /**
   What a crash does to a checkout that still needs revoking. If it is on disk,
   the next recovery asks its issuer; if it is not, no later run ever does.
   */
  lemma CrashDecides(steps: seq<Step>, id: string, t: nat, ids: seq<string>, later: seq<Step>)
    requires Runs(INIT, steps) && After(INIT, steps).up && id in After(INIT, steps).issued && id !in After(INIT, steps).confirmed
    requires var down := Do(After(INIT, steps), Crash);
             Enabled(down, Restart(t, ids)) && Runs(down, later)
    ensures var s := After(INIT, steps);
            var down := Do(s, Crash);
            var begun := Do(Do(down, Restart(t, ids)), Begin(t));
            && (Busy(begun.threads[t], id) <==> id in s.file)
            && (id !in s.file ==> id !in After(down, later).confirmed)
            && (id in s.live ==> (id in s.file <==> id !in s.unsaved))
  {
    var s := After(INIT, steps);
    RunInv(INIT, steps);
    RunWritten(INIT, steps);
    StepInv(s, Crash);
    RecoveryAsks(Do(s, Crash), t, ids, id);
    if id !in s.file { LostForever(Do(s, Crash), later, id); }
  }

  lemma RecoveryAsks(down: State, t: nat, ids: seq<string>, id: string)
    requires Inv(down) && Enabled(down, Restart(t, ids))
    ensures Busy(Do(Do(down, Restart(t, ids)), Begin(t)).threads[t], id) <==> id in down.file
  {
    RecoveryPlans(down, t, ids);
  }

  /**
   The failure that shows it: a checkout whose `add` could not write the state
   file is refused to the worker that asked, then shared with the next one; a
   crash then leaves its credential where no recovery will ever revoke it.
   */
  lemma SharedThenLost(info: Info, value: Fields, later: seq<Step>) returns (steps: seq<Step>)
    requires info.expiresAt == 60.0
    requires Runs(Do(SharedUnsaved(info, value), Crash), later)
    ensures Runs(INIT, steps) && After(INIT, steps) == SharedUnsaved(info, value)
    ensures var s := After(INIT, steps);
            && |s.handouts| == 1 && s.handouts[0].entry == Entry(info, false, Some(value))
            && info.id !in s.file && info.id in s.unsaved
            && info.id !in After(Do(s, Crash), later).confirmed
  {
    var q := Query(info.capability, info.session, info.harness, 0.0, 60.0);
    var s1 := Do(INIT, Issue(0, info, value));
    var s2 := Do(s1, Add(0, false));
    var s3 := Do(s2, Look(1, q));
    steps := [];
    steps := Before(s3, Reuse(1, Some(info.id)), steps);
    steps := Before(s2, Look(1, q), steps);
    steps := Before(s1, Add(0, false), steps);
    steps := Before(INIT, Issue(0, info, value), steps);
    RunInv(INIT, steps);
    StepInv(After(INIT, steps), Crash);
    LostForever(Do(After(INIT, steps), Crash), later, info.id);
  }

  /** The state after: issue, a failed add, a second worker's lookup, the value shared. */
  ghost function SharedUnsaved(info: Info, value: Fields): State
    requires info.expiresAt == 60.0
  {
    var q := Query(info.capability, info.session, info.harness, 0.0, 60.0);
    Do(Do(Do(Do(INIT, Issue(0, info, value)), Add(0, false)), Look(1, q)), Reuse(1, Some(info.id)))
  }
}
