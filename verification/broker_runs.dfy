/** What holds over every run of the broker, whatever interleaves, fails or crashes. */
module BrokerRuns {
  import opened Base
  import opened RegistrySpec
  import opened BrokerSteps

  /** The invariant survives every step, the crash and the restart included. */
  lemma StepInv(s: State, step: Step)
    requires Inv(s) && Enabled(s, step)
    ensures Inv(Do(s, step))
  {
    match step {
      case Add(t, disk) => AddStores(s, t, disk); AddThreads(s, t, disk); AddValues(s, t, disk);
      case Begin(t) => BeginStores(s, t); BeginThreads(s, t); BeginValues(s, t);
      case Settle(t) => SettleStores(s, t); SettleThreads(s, t); SettleValues(s, t);
      case Save(t, disk) => SaveStores(s, t, disk); SaveValues(s, t, disk);
      case Tick(d) => TickStep(s, d);
      case Crash => CrashStep(s);
      case Restart(t, ids) => RestartStores(s, t, ids); RestartThreads(s, t, ids); RestartValues(s, t, ids);
      case _ => QuietStep(s, step);
    }
  }

  /** The invariant holds in every reachable state. */
  lemma {:induction false} RunInv(s: State, steps: seq<Step>)
    requires Inv(s) && Runs(s, steps)
    ensures Inv(After(s, steps))
    decreases |steps|
  {
    if steps != [] {
      StepInv(s, steps[0]);
      RunInv(Do(s, steps[0]), steps[1..]);
    }
  }

  /**
   However the threads interleave, whichever writes and issuer calls fail, and
   wherever the process crashes: a checkout whose `add` returned and whose issuer
   revocation has not succeeded is in the state file with the handle it was
   issued with. While the broker is up it is also still in memory, and the file
   lists nothing beyond memory but checkouts already revoked.
   */
  lemma NoHandleLost(steps: seq<Step>)
    requires Runs(INIT, steps)
    ensures var s := After(INIT, steps);
      && (forall id :: id in s.added && id !in s.confirmed ==>
            id in s.issued && id in s.file && s.file[id].info.handle == s.issued[id].handle)
      && (s.up ==> forall id :: id in s.added && id !in s.confirmed ==>
            id in s.issued && id in s.live && s.live[id].info.handle == s.issued[id].handle)
      && (s.up ==> forall id :: id in s.file && id !in s.live ==> id in s.confirmed)
  {
    RunInv(INIT, steps);
  }

  /**
   After any run that ended in a crash, restarting and beginning the recovery
   puts exactly the recorded checkouts on the recovering thread's list of issuer
   calls, without their values; every checkout that was added and still needs
   revoking is among them.
   */
  lemma RecoveryRetries(steps: seq<Step>, t: nat, ids: seq<string>)
    requires Runs(INIT, steps) && Enabled(After(INIT, steps), Restart(t, ids))
    ensures var s := After(INIT, steps);
      var begun := Do(Do(s, Restart(t, ids)), Begin(t));
      && (forall id :: Busy(begun.threads[t], id) <==> id in s.file)
      && (forall id :: id in begun.live <==> id in s.file)
      && (forall id :: id in begun.live ==> begun.live[id].value.None?)
      && (forall id :: id in s.added && id !in s.confirmed ==> id in s.file)
  {
    RunInv(INIT, steps);
    RecoveryPlans(After(INIT, steps), t, ids);
  }

  lemma RecoveryPlans(s: State, t: nat, ids: seq<string>)
    requires Inv(s) && Enabled(s, Restart(t, ids))
    ensures var begun := Do(Do(s, Restart(t, ids)), Begin(t));
      && (forall id :: Busy(begun.threads[t], id) <==> id in s.file)
      && (forall id :: id in begun.live <==> id in s.file)
      && (forall id :: id in begun.live ==> begun.live[id].value.None?)
  {
    var up := Do(s, Restart(t, ids));
    StepInv(s, Restart(t, ids));
    BeginTargets(up, ids);
    var ts := Picked(up.live, Dedup(ids));
    forall id ensures Busy(Do(up, Begin(t)).threads[t], id) <==> id in s.file { BegunBusy(ts, id); }
  }

  lemma BegunBusy(ts: seq<Info>, id: string)
    ensures id in IdSet(ts) <==> ts != [] && Busy(Calling(ts), id)
  {
    if id in IdSet(ts) {
      var k :| 0 <= k < |ts| && ts[k].id == id;
      assert BrokerSteps.Targets(Calling(ts))[k].id == id;
    }
  }

  /** When no operation is under way, a checkout has no value exactly when its revocation is pending. */
  lemma QuiescentValues(steps: seq<Step>)
    requires Runs(INIT, steps)
    requires forall t :: t in After(INIT, steps).threads ==> BrokerSteps.Targets(After(INIT, steps).threads[t]) == []
    ensures var s := After(INIT, steps);
      forall id :: id in s.live ==> (s.live[id].value.None? <==> s.live[id].pending)
  {
    RunInv(INIT, steps);
  }

  /**
   Every value ever handed to a helper came from a checkout of the helper's own
   capability, session and harness whose revocation had not begun. Its remaining
   life at the lookup was at least the minimum asked for, less the time the
   worker waited between reading the clock and taking the lock.
   */
  lemma HandoutsSound(steps: seq<Step>, i: nat)
    requires Runs(INIT, steps) && i < |After(INIT, steps).handouts|
    ensures HandoutOk(After(INIT, steps).handouts[i])
  {
    RunInv(INIT, steps);
  }

  /** How long the worker waited for the lock after reading the clock. */
  function Waited(h: Handout): real {
    h.at - h.query.now
  }

  /** In every run, a value handed out after this wait, for a helper with this minimum, has life left. */
  ghost predicate AlwaysLive(minimum: real, wait: real) {
    forall steps, i :: Runs(INIT, steps) && 0 <= i < |After(INIT, steps).handouts| ==>
      var h := After(INIT, steps).handouts[i];
      h.query.minRemaining == minimum && Waited(h) == wait ==> h.entry.info.expiresAt - h.at > 0.0
  }

  /** A helper is certain of a live value exactly when its wait for the lock was shorter than the minimum it asked for. */
  lemma AlwaysLiveIff(minimum: real, wait: real)
    requires minimum > 0.0 && wait >= 0.0
    ensures AlwaysLive(minimum, wait) <==> wait < minimum
  {
    if wait < minimum {
      forall steps, i | Runs(INIT, steps) && 0 <= i < |After(INIT, steps).handouts|
        ensures var h := After(INIT, steps).handouts[i];
                h.query.minRemaining == minimum && Waited(h) == wait ==> h.entry.info.expiresAt - h.at > 0.0
      {
        HandoutsSound(steps, i);
      }
    } else {
      var info := Info("c", "p", "h", "s", 0.0, minimum, "k", "a", None, None, None, None);
      var steps := LateLookup(info, map[], minimum, wait);
      assert After(INIT, steps).handouts[0].query.minRemaining == minimum;
    }
  }

  /** With any longer wait a run exists that hands out a value already expired. */
  lemma LateLookup(info: Info, value: Fields, minimum: real, wait: real) returns (steps: seq<Step>)
    requires 0.0 < minimum <= wait && info.expiresAt == minimum
    ensures Runs(INIT, steps) && |After(INIT, steps).handouts| == 1
    ensures var h := After(INIT, steps).handouts[0];
            h.query.minRemaining == minimum && Waited(h) == wait && h.entry.value == Some(value) &&
            h.entry.info.expiresAt - h.at <= 0.0
  {
    var q := Query(info.capability, info.session, info.harness, 0.0, minimum);
    LateSteps(info, value, q, wait);
    var s1 := Do(INIT, Issue(0, info, value));
    var s2 := Do(s1, Add(0, true));
    var s3 := Do(s2, Look(0, q));
    var s4 := Do(s3, Tick(wait));
    steps := [];
    steps := Before(s4, Reuse(0, Some(info.id)), steps);
    steps := Before(s3, Tick(wait), steps);
    steps := Before(s2, Look(0, q), steps);
    steps := Before(s1, Add(0, true), steps);
    steps := Before(INIT, Issue(0, info, value), steps);
  }

  lemma LateSteps(info: Info, value: Fields, q: Query, wait: real)
    requires 0.0 < q.minRemaining <= wait && info.expiresAt == q.minRemaining && q.now == 0.0
    requires q.capability == info.capability && q.session == info.session && q.harness == info.harness
    ensures var s1 := Do(INIT, Issue(0, info, value));
            var s2 := Do(s1, Add(0, true));
            var s3 := Do(s2, Look(0, q));
            var s4 := Do(s3, Tick(wait));
            && Enabled(INIT, Issue(0, info, value)) && Enabled(s1, Add(0, true)) && Enabled(s2, Look(0, q))
            && Enabled(s3, Tick(wait)) && Enabled(s4, Reuse(0, Some(info.id)))
            && Do(s4, Reuse(0, Some(info.id))).handouts == [Handout(q, Entry(info, false, Some(value)), wait, false)]
  {
  }

  lemma Before(s: State, step: Step, rest: seq<Step>) returns (steps: seq<Step>)
    requires Enabled(s, step) && Runs(Do(s, step), rest)
    ensures steps == [step] + rest && Runs(s, steps) && After(s, steps) == After(Do(s, step), rest)
  {
    steps := [step] + rest;
    assert steps[1..] == rest;
  }
}
