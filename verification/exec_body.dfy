/** What a path's try and finally blocks guarantee, wherever an exception arrives. */
module ExecBody {
  import opened Base
  import opened JsonTree
  import opened ExecSpec

  // ---------------------------------------------------------------- running statements

  lemma {:induction false} BodyAppend(w: World, argv: seq<string>, l: Local, a: seq<Stmt>, b: seq<Stmt>, k: nat)
    ensures RunBody(w, argv, l, a + b, k) ==
            var (l1, e) := RunBody(w, argv, l, a, k);
            if e.Some? then (l1, e) else RunBody(w, argv, l1, b, k + |a|)
    decreases |a|
  {
    if a == [] {
      assert a + b == b;
    } else {
      assert (a + b)[0] == a[0] && (a + b)[1..] == a[1..] + b;
      if !w.interrupts(k) {
        var (l1, e) := Execute(w, argv, l, a[0]);
        if e.None? { BodyAppend(w, argv, l1, a[1..], b, k + 1); }
      }
    }
  }

  /** Statements before the child is started. */
  ghost predicate Early(body: seq<Stmt>) {
    forall i :: 0 <= i < |body| ==> body[i] != RunChild && body[i] != Record
  }

  /** No child yet, no result, and a terminal record that claims nothing was applied. */
  predicate Untold(l: Local) {
    l.child == None && l.completed == None && l.result == None && l.pending == None && !l.terminal.applied
  }

  lemma EarlyStep(w: World, argv: seq<string>, l: Local, st: Stmt)
    requires Untold(l) && st != RunChild && st != Record
    ensures Untold(Execute(w, argv, l, st).0)
  {
  }

  lemma {:induction false} EarlyKeeps(w: World, argv: seq<string>, l: Local, body: seq<Stmt>, k: nat)
    requires Untold(l) && Early(body)
    ensures Untold(RunBody(w, argv, l, body, k).0)
    decreases |body|
  {
    if body != [] && !w.interrupts(k) {
      EarlyStep(w, argv, l, body[0]);
      var (l1, e) := Execute(w, argv, l, body[0]);
      if e.None? { EarlyKeeps(w, argv, l1, body[1..], k + 1); }
    }
  }

  const END: seq<Stmt> := [RunChild, Record]

  /** How the last two statements can end. */
  ghost predicate Ends(w: World, argv: seq<string>, l: Local, k: nat, l1: Local, e: Option<Error>) {
    if w.interrupts(k) then l1 == l && e == Some(Interrupted)
    else
      l1.child == Some(l.env) && l1.resolved == l.resolved &&
      match w.run(argv, l.env)
      case Exited(code) =>
        if w.interrupts(k + 1) then e == Some(Interrupted) && l1.terminal == l.terminal
        else e == None && l1.result == Some(code) && l1.pending == None && l1.terminal == Standing(code == 0, l.action)
      case LaunchFailed =>
        (e == Some(Interrupted) || (e == None && l1.pending == Some(NotLaunched))) && l1.terminal == Standing(false, l.action)
      case Broken => e == Some(Interrupted) && l1.terminal == l.terminal
  }

  lemma EndIs(w: World, argv: seq<string>, l: Local, k: nat)
    requires Untold(l)
    ensures var (l1, e) := RunBody(w, argv, l, END, k); Ends(w, argv, l, k, l1, e)
  {
    assert END[1..] == [Record] && [Record][1..] == [];
  }

  // ---------------------------------------------------------------- the record

  /** The start record was written and its write returned, and the try block was entered. */
  predicate Begins(w: World) {
    w.emits(0) && !w.gap
  }

  /** A terminal record is in the log. */
  predicate Reports(w: World) {
    Begins(w) && !w.cleanup && Lands(w, 1)
  }

  /** A child ran and exited with this code, and no exception arrived before that was noted, at statement `last`. */
  predicate Noted(w: World, argv: seq<string>, last: nat, x: Exec, code: int) {
    x.child.Some? && w.run(argv, x.child.value) == Exited(code) && !w.interrupts(last)
  }

  /** No exception arrived after the exit code was noted, and the terminal record's write returned. */
  predicate Undisturbed(w: World, last: nat) {
    !w.interrupts(last + 1) && !w.cleanup && w.emits(1) && !w.late
  }

  /**
   What a path that got as far as its start record leaves, exactly: nothing, its
   start alone, or its start and one terminal record. The terminal record says
   applied exactly when a child's exit with 0 was noted; the path returns a code
   exactly when that exit was noted and nothing disturbed the path afterwards.
   */
  ghost predicate Recorded(w: World, target: string, argv: seq<string>, last: nat, x: Exec) {
    && (x.events == [] <==> !Lands(w, 0))
    && (x.events == [Started(target)] <==> Lands(w, 0) && !Reports(w))
    && (Reports(w) ==>
          |x.events| == 2 && x.events[0] == Started(target) && x.events[1].Terminal? && x.events[1].target == target &&
          (x.events[1].applied <==> Noted(w, argv, last, x, 0)))
    && (forall code :: x.result == Ok(code) <==> Begins(w) && Noted(w, argv, last, x, code) && Undisturbed(w, last))
    && (!Begins(w) ==> x.resolved == [] && x.child == None)
  }

  /** Refused before it started, with nothing recorded, resolved or run; or recorded as above. */
  ghost predicate Honest(w: World, target: string, argv: seq<string>, last: nat, x: Exec) {
    (x.events == [] && x.resolved == [] && x.child == None && x.result.Raised?) || Recorded(w, target, argv, last, x)
  }

  /** The whole try block: its early statements, then the child, then the moment after. */
  lemma TryIs(w: World, argv: seq<string>, start: Local, early: seq<Stmt>)
    requires Untold(start) && Early(early)
    ensures var (l, e) := RunBody(w, argv, start, early, 0);
            && Untold(l)
            && Try(w, argv, start, early + END) == (if e.Some? then (l, e) else Ended(w, argv, l, |early|))
            && (e.None? ==> var (l1, e1) := RunBody(w, argv, l, END, |early|); Ends(w, argv, l, |early|, l1, e1))
  {
    BodyAppend(w, argv, start, early, END, 0);
    EarlyKeeps(w, argv, start, early, 0);
    var (l, e) := RunBody(w, argv, start, early, 0);
    if e.None? { EndIs(w, argv, l, |early|); }
  }

  /** The last two statements, and whether an exception arrives after them. */
  function Ended(w: World, argv: seq<string>, l: Local, k: nat): (r: (Local, Option<Error>)) {
    var (l1, e) := RunBody(w, argv, l, END, k);
    (l1, if e.None? && w.interrupts(k + 2) then Some(Interrupted) else e)
  }

  lemma FinallyRecords(w: World, target: string, argv: seq<string>, l: Local, raised: Option<Error>, last: nat)
    requires Begins(w)
    requires l.terminal.applied <==> l.child.Some? && w.run(argv, l.child.value) == Exited(0) && !w.interrupts(last)
    requires forall code :: Returned(l, raised) == Ok(code) <==>
               l.child.Some? && w.run(argv, l.child.value) == Exited(code) && !w.interrupts(last) && !w.interrupts(last + 1)
    ensures Recorded(w, target, argv, last, Finally(w, target, l, raised))
  {
  }

  /** Whatever the early statements are, and wherever an exception arrives, the record is honest. */
  lemma PerformHonest(w: World, target: string, argv: seq<string>, start: Local, early: seq<Stmt>)
    requires Untold(start) && Early(early)
    ensures Recorded(w, target, argv, |early| + 1, Perform(w, target, argv, start, early + END))
  {
    TryIs(w, argv, start, early);
    if Begins(w) {
      var (l1, e1) := Try(w, argv, start, early + END);
      FinallyRecords(w, target, argv, l1, e1, |early| + 1);
    }
  }

  /** A child that was started got the environment the early statements built; and then all of them had run. */
  lemma ChildIs(w: World, target: string, argv: seq<string>, start: Local, early: seq<Stmt>)
    requires Untold(start) && Early(early)
    ensures var x := Perform(w, target, argv, start, early + END);
            var (l, e) := RunBody(w, argv, start, early, 0);
            && (x.child.Some? ==> e == None && x.child == Some(l.env))
            && x.resolved == if Begins(w) then l.resolved else []
  {
    TryIs(w, argv, start, early);
  }

  /** What the terminal record claims was injected, when nothing was claimed before the last statements. */
  lemma ClaimIs(w: World, target: string, argv: seq<string>, start: Local, early: seq<Stmt>)
    requires Untold(start) && Early(early)
    requires var (l, e) := RunBody(w, argv, start, early, 0); l.terminal.injected == {}
    ensures var x := Perform(w, target, argv, start, early + END);
            var (l, e) := RunBody(w, argv, start, early, 0);
            |x.events| == 2 && x.events[1].Terminal? && x.events[1].injected != {} ==>
            x.child.Some? && x.events[1].injected == l.action
  {
    TryIs(w, argv, start, early);
  }

  // ---------------------------------------------------------------- one capability, and all of them

  /** Nothing of these is touched while capabilities are resolved; a failure reports the action as it is. */
  predicate Kept(l: Local, l1: Local) {
    l1.child == l.child && l1.completed == l.completed && l1.result == l.result && l1.pending == l.pending &&
    l1.action == l.action && l1.receipt == l.receipt && (l1.terminal == l.terminal || l1.terminal == Standing(false, l.action))
  }

  lemma Three(w: World, argv: seq<string>, l: Local, a: Stmt, b: Stmt, c: Stmt, k: nat)
    ensures RunBody(w, argv, l, [a, b, c], k) ==
            if w.interrupts(k) then (l, Some(Interrupted)) else
            var (l1, e1) := Execute(w, argv, l, a);
            if e1.Some? then (l1, e1) else if w.interrupts(k + 1) then (l1, Some(Interrupted)) else
            var (l2, e2) := Execute(w, argv, l1, b);
            if e2.Some? then (l2, e2) else if w.interrupts(k + 2) then (l2, Some(Interrupted)) else
            var (l3, e3) := Execute(w, argv, l2, c);
            (l3, e3)
  {
    BodyAppend(w, argv, l, [a], [b, c], k);
    assert [a] + [b, c] == [a, b, c];
    OneStmt(w, argv, l, a, k);
    var (l1, e1) := Execute(w, argv, l, a);
    Two(w, argv, l1, b, c, k + 1);
  }

  lemma CapRun(w: World, argv: seq<string>, cap: Cap, plan: Plan, l: Local, k: nat)
    ensures var (l1, e) := RunBody(w, argv, l, CapStmts(cap, plan), k);
            && Kept(l, l1)
            && (l1.resolved == l.resolved || l1.resolved == l.resolved + [cap.id])
            && (e == None ==>
                  w.resolve(cap).Some? && Named(w.resolve(cap).value) == plan.Keys &&
                  l1.env == Inject(l.env, plan, w.resolve(cap).value) && l1.resolved == l.resolved + [cap.id])
  {
    Three(w, argv, l, Resolve(cap), Compare(plan), InjectAs(plan), k);
  }

  /** Resolving capability by capability asks for a prefix of them in order, and without an exception yields what `ResolveAll` says. */
  lemma {:induction false} CapsRun(w: World, argv: seq<string>, caps: seq<Cap>, plans: seq<Plan>, l: Local, k: nat)
    requires |caps| == |plans|
    ensures var (l1, e) := RunBody(w, argv, l, CapsBody(caps, plans), k);
            && Kept(l, l1)
            && l.resolved <= l1.resolved <= l.resolved + Ids(caps)
            && (e == None ==> ResolveAll(w, caps, plans, l.env) == Ok(l1.env) && l1.resolved == l.resolved + Ids(caps))
    decreases |caps|
  {
    if caps == [] {
      assert Ids(caps) == [];
    } else {
      CapRun(w, argv, caps[0], plans[0], l, k);
      BodyAppend(w, argv, l, CapStmts(caps[0], plans[0]), CapsBody(caps[1..], plans[1..]), k);
      assert Ids(caps) == [caps[0].id] + Ids(caps[1..]);
      var (l1, e) := RunBody(w, argv, l, CapStmts(caps[0], plans[0]), k);
      if e.None? {
        CapsRun(w, argv, caps[1..], plans[1..], l1, k + 3);
        assert l.resolved + [caps[0].id] + Ids(caps[1..]) == l.resolved + Ids(caps);
      }
    }
  }

  lemma {:induction false} CapsEarly(caps: seq<Cap>, plans: seq<Plan>)
    requires |caps| == |plans|
    ensures Early(CapsBody(caps, plans)) && |CapsBody(caps, plans)| == 3 * |caps|
    decreases |caps|
  {
    if caps != [] { CapsEarly(caps[1..], plans[1..]); }
  }

  // ---------------------------------------------------------------- the strict body

  function StrictEarly(caps: seq<Cap>, plans: seq<Plan>): seq<Stmt>
    requires |caps| == |plans|
  {
    [CopyEnv] + CapsBody(caps, plans) + [SetReceipt, Claim(Vars(plans))]
  }

  lemma StrictShape(caps: seq<Cap>, plans: seq<Plan>)
    requires |caps| == |plans|
    ensures StrictBody(caps, plans) == StrictEarly(caps, plans) + END
    ensures Early(StrictEarly(caps, plans)) && |StrictEarly(caps, plans)| == 3 * |caps| + 3
  {
    CapsEarly(caps, plans);
  }

  lemma Two(w: World, argv: seq<string>, l: Local, a: Stmt, b: Stmt, k: nat)
    ensures RunBody(w, argv, l, [a, b], k) ==
            if w.interrupts(k) then (l, Some(Interrupted)) else
            var (l1, e1) := Execute(w, argv, l, a);
            if e1.Some? then (l1, e1) else if w.interrupts(k + 1) then (l1, Some(Interrupted)) else
            Execute(w, argv, l1, b)
  {
    BodyAppend(w, argv, l, [a], [b], k);
    assert [a] + [b] == [a, b];
    OneStmt(w, argv, l, a, k);
    var (l1, e1) := Execute(w, argv, l, a);
    OneStmt(w, argv, l1, b, k + 1);
  }

  lemma OneStmt(w: World, argv: seq<string>, l: Local, a: Stmt, k: nat)
    ensures RunBody(w, argv, l, [a], k) == if w.interrupts(k) then (l, Some(Interrupted)) else Execute(w, argv, l, a)
  {
    assert [a][1..] == [];
  }

  /** The strict path up to the child, from its start. */
  lemma StrictRun(w: World, argv: seq<string>, caps: seq<Cap>, plans: seq<Plan>, receipt: string)
    requires |caps| == |plans|
    ensures var (l1, e) := RunBody(w, argv, Before(map[], receipt, {}), StrictEarly(caps, plans), 0);
            && l1.terminal == Standing(false, {}) && l1.resolved <= Ids(caps)
            && (e == None ==>
                  l1.resolved == Ids(caps) && l1.action == Vars(plans) &&
                  ResolveAll(w, caps, plans, w.environ).Ok? &&
                  l1.env == ResolveAll(w, caps, plans, w.environ).value[RECEIPT := receipt])
  {
    var start := Before(map[], receipt, {});
    var copied := start.(env := w.environ);
    var tail := [SetReceipt, Claim(Vars(plans))];
    assert [] <= Ids(caps);
    BodyAppend(w, argv, start, [CopyEnv] + CapsBody(caps, plans), tail, 0);
    BodyAppend(w, argv, start, [CopyEnv], CapsBody(caps, plans), 0);
    OneStmt(w, argv, start, CopyEnv, 0);
    CapsRun(w, argv, caps, plans, copied, 1);
    assert [] + Ids(caps) == Ids(caps);
    var (l1, e) := RunBody(w, argv, copied, CapsBody(caps, plans), 1);
    if e.None? { StrictTail(w, argv, l1, Vars(plans), 1 + |CapsBody(caps, plans)|); }
  }

  lemma StrictTail(w: World, argv: seq<string>, l: Local, names: set<string>, k: nat)
    ensures var (l1, e) := RunBody(w, argv, l, [SetReceipt, Claim(names)], k);
            && l1.terminal == l.terminal && l1.resolved == l.resolved
            && (e == None ==> l1.env == l.env[RECEIPT := l.receipt] && l1.action == names)
  {
    Two(w, argv, l, SetReceipt, Claim(names), k);
  }

  // ---------------------------------------------------------------- the bare and suite bodies

  const BARE_MIDDLE: seq<Stmt> := [PlanBare, CopyEnv, InjectBare]

  function BareEarly(cap: Cap): seq<Stmt> {
    [Resolve(cap)] + BARE_MIDDLE + [MakeReceipt(cap.id), SetReceipt, ClaimBare]
  }

  lemma BareShape(cap: Cap)
    ensures BareBody(cap) == BareEarly(cap) + END && Early(BareEarly(cap)) && |BareEarly(cap)| == 7
  {
  }

  /** Nothing is claimed as injected yet. */
  predicate Unclaimed(l: Local) {
    l.action == {} && l.terminal.injected == {}
  }

  lemma BareRun(w: World, argv: seq<string>, cap: Cap)
    ensures var (l, e) := RunBody(w, argv, Before(map[], "", {}), BareEarly(cap), 0);
            && (l.resolved == [] || l.resolved == [cap.id]) && l.terminal.injected == {}
            && (e == None ==>
                  w.resolve(cap).Some? &&
                  var ps := w.resolve(cap).value;
                  var plan := BarePlan(w, ps);
                  l.action == plan.Values &&
                  l.env == Inject(w.environ, plan, ps)[RECEIPT := Receipt(w, [CheckoutJson(cap.id, plan)])])
  {
    var start := Before(map[], "", {});
    var tail := [MakeReceipt(cap.id), SetReceipt, ClaimBare];
    BodyAppend(w, argv, start, [Resolve(cap)] + BARE_MIDDLE, tail, 0);
    BodyAppend(w, argv, start, [Resolve(cap)], BARE_MIDDLE, 0);
    OneStmt(w, argv, start, Resolve(cap), 0);
    assert [] + [cap.id] == [cap.id];
    var (l1, e1) := RunBody(w, argv, start, [Resolve(cap)], 0);
    if e1.None? {
      BareMiddle(w, argv, l1);
      var (l2, e2) := RunBody(w, argv, l1, BARE_MIDDLE, 1);
      if e2.None? { BareTail(w, argv, l2, cap.id); }
    }
  }

  lemma BareMiddle(w: World, argv: seq<string>, l: Local)
    requires Unclaimed(l)
    ensures var (l1, e) := RunBody(w, argv, l, BARE_MIDDLE, 1);
            && l1.resolved == l.resolved && Unclaimed(l1)
            && (e == None ==> l1.plan == BarePlan(w, l.fields) && l1.env == Inject(w.environ, l1.plan, l.fields))
  {
    Three(w, argv, l, PlanBare, CopyEnv, InjectBare, 1);
  }

  lemma BareTail(w: World, argv: seq<string>, l: Local, id: string)
    requires Unclaimed(l)
    ensures var (l1, e) := RunBody(w, argv, l, [MakeReceipt(id), SetReceipt, ClaimBare], 4);
            && l1.resolved == l.resolved && l1.terminal.injected == {}
            && (e == None ==> l1.action == l.plan.Values && l1.env == l.env[RECEIPT := Receipt(w, [CheckoutJson(id, l.plan)])])
  {
    Three(w, argv, l, MakeReceipt(id), SetReceipt, ClaimBare, 4);
  }

  function SuiteEarly(cap: Cap, plan: Plan): seq<Stmt> {
    [Resolve(cap)] + [CopyAllowed(plan), InjectAs(plan), SetReceipt]
  }

  lemma SuiteShape(cap: Cap, plan: Plan)
    ensures SuiteBody(cap, plan) == SuiteEarly(cap, plan) + END && Early(SuiteEarly(cap, plan)) && |SuiteEarly(cap, plan)| == 4
  {
  }

  lemma SuiteRun(w: World, argv: seq<string>, cap: Cap, plan: Plan, receipt: string)
    ensures var (l, e) := RunBody(w, argv, Before(map[], receipt, plan.Values), SuiteEarly(cap, plan), 0);
            && (l.resolved == [] || l.resolved == [cap.id])
            && (e == None ==>
                  w.resolve(cap).Some? && Named(w.resolve(cap).value) <= plan.Keys &&
                  l.env == Inject(SuiteEnv(w, plan, w.resolve(cap).value), plan, w.resolve(cap).value)[RECEIPT := receipt])
  {
    var start := Before(map[], receipt, plan.Values);
    BodyAppend(w, argv, start, [Resolve(cap)], [CopyAllowed(plan), InjectAs(plan), SetReceipt], 0);
    OneStmt(w, argv, start, Resolve(cap), 0);
    assert [] + [cap.id] == [cap.id];
    var (l1, e1) := RunBody(w, argv, start, [Resolve(cap)], 0);
    if e1.None? { Three(w, argv, l1, CopyAllowed(plan), InjectAs(plan), SetReceipt, 1); }
  }
}
