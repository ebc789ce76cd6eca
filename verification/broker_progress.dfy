/** No thread of the broker is ever stuck, and every operation comes to its end. */
module BrokerProgress {
  import opened Base
  import opened RegistrySpec
  import opened BrokerSteps

  // ---------------------------------------------------------------- nothing blocks

  /** A thread that is to ask issuers has one to ask about. */
  ghost predicate Working(s: State) {
    forall t :: t in s.threads ==> HasWork(s.threads[t])
  }

  predicate HasWork(p: Phase) {
    (p.Calling? ==> p.todo != []) && (p.Returned? ==> p.asked != [])
  }

  lemma StepWorks(s: State, step: Step)
    requires Working(s) && Enabled(s, step)
    ensures Working(Do(s, step))
  {
  }

  lemma {:induction false} RunWorks(s: State, steps: seq<Step>)
    requires Working(s) && Runs(s, steps)
    ensures Working(After(s, steps))
    decreases |steps|
  {
    if steps != [] {
      StepWorks(s, steps[0]);
      RunWorks(Do(s, steps[0]), steps[1..]);
    }
  }

  /** The thread can go on, whatever the disk and the issuers answer. */
  ghost predicate CanGoOn(s: State, t: nat) {
    match PhaseOf(s, t)
    case Idle => true
    case Holding(_, _) => forall disk :: Enabled(s, Add(t, disk))
    case Looking(_) => exists found :: Enabled(s, Reuse(t, found))
    case Planned(_) => Enabled(s, Begin(t))
    case Calling(_) => forall ok :: Enabled(s, Call(t, ok))
    case Returned(_, _) => Enabled(s, Settle(t))
    case Saving => forall disk :: Enabled(s, Save(t, disk))
  }

  /**
   In every reachable state every thread can take its next step, whatever the
   others do; an idle one can take up any request, or a new id; the process may
   crash, and one that has can be started again.
   */
  lemma NeverStuck(steps: seq<Step>, t: nat)
    requires Runs(INIT, steps)
    ensures var s := After(INIT, steps);
            && (s.up ==> CanGoOn(s, t) && Enabled(s, Crash))
            && (s.up && PhaseOf(s, t) == Idle ==>
                  (forall ids :: Enabled(s, Plan(t, ids))) && (forall q: Query :: q.now == s.clock ==> Enabled(s, Look(t, q))) &&
                  forall info: Info, value: Fields :: info.id !in s.issued ==> Enabled(s, Issue(t, info, value)))
            && (!s.up ==> exists ids :: Enabled(s, Restart(t, ids)))
  {
    var s := After(INIT, steps);
    RunWorks(INIT, steps);
    if s.up && PhaseOf(s, t).Looking? {
      var q := PhaseOf(s, t).query;
      if id :| id in s.live && Reusable(s.live[id], q.capability, q.session, q.harness, q.now, q.minRemaining) {
        assert Enabled(s, Reuse(t, Some(id)));
      } else {
        assert Enabled(s, Reuse(t, None));
      }
    }
    if !s.up {
      var ids := Listed(s.file.Keys);
      assert Enabled(s, Restart(t, ids));
    }
  }

  lemma {:induction false} Listed(ids: set<string>) returns (q: seq<string>)
    ensures forall id :: id in q <==> id in ids
    decreases |ids|
  {
    q := [];
    if ids != {} {
      var id :| id in ids;
      var more := Listed(ids - {id});
      q := [id] + more;
    }
  }

  // ---------------------------------------------------------------- everything ends

  /** The thread that takes the step, if one does. */
  function Taker(step: Step): Option<nat> {
    match step
    case Issue(t, _, _) => Some(t)
    case Add(t, _) => Some(t)
    case Look(t, _) => Some(t)
    case Reuse(t, _) => Some(t)
    case Plan(t, _) => Some(t)
    case Begin(t) => Some(t)
    case Call(t, _) => Some(t)
    case Settle(t) => Some(t)
    case Save(t, _) => Some(t)
    case _ => None
  }

  /** The most steps a thread still has to take before it is idle. */
  function Left(p: Phase): nat {
    match p
    case Idle => 0
    case Holding(_, _) => 1
    case Looking(_) => 1
    case Planned(ids) => 2 * |Dedup(ids)| + 2
    case Calling(todo) => 2 * |todo| + 1
    case Returned(asked, _) => 2 * |asked|
    case Saving => 1
  }

  lemma {:induction false} PickedFew(live: map<string, Entry>, ids: seq<string>)
    ensures |Picked(live, ids)| <= |ids|
  {
    if ids != [] { PickedFew(live, ids[1..]); }
  }

  /** Each step of a busy thread brings it nearer to its end; no step of another, and no passing of time, takes it away. */
  lemma StepNearer(s: State, step: Step, t: nat)
    requires Enabled(s, step) && !step.Crash? && !step.Restart? && PhaseOf(s, t) != Idle
    ensures var s1 := Do(s, step);
            if Taker(step) == Some(t) then Left(PhaseOf(s1, t)) < Left(PhaseOf(s, t)) else PhaseOf(s1, t) == PhaseOf(s, t)
  {
    if step == Begin(t) {
      PickedFew(s.live, Dedup(PhaseOf(s, t).ids));
    }
  }

  function Taken(steps: seq<Step>, t: nat): nat {
    if steps == [] then 0 else (if Taker(steps[0]) == Some(t) then 1 else 0) + Taken(steps[1..], t)
  }

  ghost predicate StaysBusy(s: State, steps: seq<Step>, t: nat)
    requires Runs(s, steps)
    decreases |steps|
  {
    steps != [] ==> PhaseOf(s, t) != Idle && !steps[0].Crash? && !steps[0].Restart? && StaysBusy(Do(s, steps[0]), steps[1..], t)
  }

  /** So an operation that no crash cuts short is over after so many steps of its own, whatever else goes on. */
  lemma {:induction false} EndsAfter(s: State, steps: seq<Step>, t: nat)
    requires Runs(s, steps) && StaysBusy(s, steps, t)
    ensures Taken(steps, t) + Left(PhaseOf(After(s, steps), t)) <= Left(PhaseOf(s, t))
    decreases |steps|
  {
    if steps != [] {
      StepNearer(s, steps[0], t);
      EndsAfter(Do(s, steps[0]), steps[1..], t);
    }
  }
}
