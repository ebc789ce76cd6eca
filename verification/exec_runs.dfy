/** When a checkout's child is started, exactly, and what a run that nothing disturbs comes to. */
module ExecRuns {
  import opened Base
  import opened JsonTree
  import opened ExecSpec
  import opened ExecBody
  import T = ExecTheorems

  /** No exception arrives before any of these statements. */
  ghost predicate Quiet(w: World, from: nat, to: nat) {
    forall k :: from <= k < to ==> !w.interrupts(k)
  }

  lemma QuietOne(w: World, k: nat)
    ensures Quiet(w, k, k + 1) <==> !w.interrupts(k)
  {
  }

  lemma QuietSplit(w: World, a: nat, b: nat, c: nat)
    requires a <= b <= c
    ensures Quiet(w, a, c) <==> Quiet(w, a, b) && Quiet(w, b, c)
  {
  }

  // ---------------------------------------------------------------- any path

  /** A child is started exactly when the path begins, its early statements run through, and nothing arrives before the next. */
  lemma ChildIff(w: World, target: string, argv: seq<string>, start: Local, early: seq<Stmt>)
    requires Untold(start) && Early(early)
    ensures var x := Perform(w, target, argv, start, early + END);
            x.child.Some? <==> Begins(w) && RunBody(w, argv, start, early, 0).1 == None && !w.interrupts(|early|)
  {
    TryIs(w, argv, start, early);
    EarlyKeeps(w, argv, start, early, 0);
  }

  /** Nothing arrives at all, and every record is written. */
  ghost predicate Calm(w: World) {
    && w.emits(0) && w.emits(1) && !w.gap && !w.cleanup && !w.late
    && forall k :: !w.interrupts(k)
  }

  /** How a calm run of a path ends, by the child or by what its early statements raised. */
  lemma CalmEnds(w: World, target: string, argv: seq<string>, start: Local, early: seq<Stmt>)
    requires Untold(start) && Early(early) && Calm(w)
    ensures var x := Perform(w, target, argv, start, early + END);
            var (l, e) := RunBody(w, argv, start, early, 0);
            x.result == if e.Some? then Raised(e.value)
                        else match w.run(argv, l.env)
                             case Exited(code) => Ok(code)
                             case LaunchFailed => Raised(NotLaunched)
                             case Broken => Raised(Interrupted)
  {
    TryIs(w, argv, start, early);
    EarlyKeeps(w, argv, start, early, 0);
    var (l, e) := RunBody(w, argv, start, early, 0);
    if e.None? { CalmEnd(w, argv, l, |early|); }
  }

  lemma CalmEnd(w: World, argv: seq<string>, l: Local, k: nat)
    requires Untold(l) && Calm(w)
    ensures var (l1, e) := RunBody(w, argv, l, END, k);
            match w.run(argv, l.env)
            case Exited(code) => e == None && l1.pending == None && l1.result == Some(code)
            case LaunchFailed => e == None && l1.pending == Some(NotLaunched)
            case Broken => e == Some(Interrupted)
  {
    Two(w, argv, l, RunChild, Record, k);
  }

  // ---------------------------------------------------------------- the strict path

  ghost predicate Resolves(w: World, cap: Cap, plan: Plan) {
    w.resolve(cap).Some? && Named(w.resolve(cap).value) == plan.Keys
  }

  lemma CapRunIff(w: World, argv: seq<string>, cap: Cap, plan: Plan, l: Local, k: nat)
    ensures RunBody(w, argv, l, CapStmts(cap, plan), k).1 == None <==> Quiet(w, k, k + 3) && Resolves(w, cap, plan)
  {
    Three(w, argv, l, Resolve(cap), Compare(plan), InjectAs(plan), k);
    assert Quiet(w, k, k + 3) <==> !w.interrupts(k) && !w.interrupts(k + 1) && !w.interrupts(k + 2);
  }

  lemma {:induction false} CapsRunIff(w: World, argv: seq<string>, caps: seq<Cap>, plans: seq<Plan>, l: Local, k: nat)
    requires |caps| == |plans|
    ensures RunBody(w, argv, l, CapsBody(caps, plans), k).1 == None <==>
            Quiet(w, k, k + 3 * |caps|) && forall i :: 0 <= i < |caps| ==> Resolves(w, caps[i], plans[i])
    decreases |caps|
  {
    if caps != [] {
      BodyAppend(w, argv, l, CapStmts(caps[0], plans[0]), CapsBody(caps[1..], plans[1..]), k);
      CapRunIff(w, argv, caps[0], plans[0], l, k);
      QuietSplit(w, k, k + 3, k + 3 * |caps|);
      var (l1, e) := RunBody(w, argv, l, CapStmts(caps[0], plans[0]), k);
      CapsRunIff(w, argv, caps[1..], plans[1..], l1, k + 3);
      assert forall i :: 0 < i < |caps| ==> caps[i] == caps[1..][i - 1] && plans[i] == plans[1..][i - 1];
      assert forall i :: 0 <= i < |caps| - 1 ==> caps[1..][i] == caps[i + 1] && plans[1..][i] == plans[i + 1];
    }
  }

  /** The strict body is its three parts in order. */
  lemma StrictParts(w: World, argv: seq<string>, caps: seq<Cap>, plans: seq<Plan>, start: Local)
    requires |caps| == |plans|
    ensures var (l, e) := RunBody(w, argv, start.(env := w.environ), CapsBody(caps, plans), 1);
            RunBody(w, argv, start, StrictEarly(caps, plans), 0).1 ==
            if w.interrupts(0) then Some(Interrupted) else if e.Some? then e
            else RunBody(w, argv, l, [SetReceipt, Claim(Vars(plans))], 1 + 3 * |caps|).1
  {
    CapsEarly(caps, plans);
    BodyAppend(w, argv, start, [CopyEnv] + CapsBody(caps, plans), [SetReceipt, Claim(Vars(plans))], 0);
    BodyAppend(w, argv, start, [CopyEnv], CapsBody(caps, plans), 0);
    OneStmt(w, argv, start, CopyEnv, 0);
  }

  lemma LastTwo(w: World, argv: seq<string>, l: Local, names: set<string>, k: nat)
    ensures RunBody(w, argv, l, [SetReceipt, Claim(names)], k).1 == None <==> Quiet(w, k, k + 2)
  {
    Two(w, argv, l, SetReceipt, Claim(names), k);
    assert Quiet(w, k, k + 2) <==> !w.interrupts(k) && !w.interrupts(k + 1);
  }

  lemma StrictRunIff(w: World, argv: seq<string>, caps: seq<Cap>, plans: seq<Plan>, receipt: string)
    requires |caps| == |plans|
    ensures RunBody(w, argv, Before(map[], receipt, {}), StrictEarly(caps, plans), 0).1 == None <==>
            Quiet(w, 0, 3 * |caps| + 3) && forall i :: 0 <= i < |caps| ==> Resolves(w, caps[i], plans[i])
  {
    var start := Before(map[], receipt, {});
    StrictParts(w, argv, caps, plans, start);
    CapsRunIff(w, argv, caps, plans, start.(env := w.environ), 1);
    var n := 1 + 3 * |caps|;
    LastTwo(w, argv, RunBody(w, argv, start.(env := w.environ), CapsBody(caps, plans), 1).0, Vars(plans), n);
    QuietSplit(w, 0, 1, n + 2);
    QuietSplit(w, 1, n, n + 2);
    QuietOne(w, 0);
  }

  ghost predicate Fits(w: World, caps: seq<Cap>, plans: seq<Plan>)
    requires |caps| == |plans|
  {
    |Receipt(w, CheckoutRows(Ids(caps), plans))| <= 16384
  }

  /**
   A strict checkout's child is started exactly when every capability is planned,
   the receipt is no longer than 16 KiB, the start record's write returns, each
   capability resolves to just the fields planned, and nothing arrives before.
   */
  lemma StrictRunsIff(w: World, caps: seq<Cap>, argv: seq<string>)
    ensures var plans := PlanAll(w, caps, {}, Folded(w, w.environ.Keys));
            ExecStrict(w, caps, argv).child.Some? <==>
            plans.Ok? && Fits(w, caps, plans.value) && Begins(w) && Quiet(w, 0, 3 * |caps| + 4) &&
            forall i :: 0 <= i < |caps| ==> Resolves(w, caps[i], plans.value[i])
  {
    var plans := PlanAll(w, caps, {}, Folded(w, w.environ.Keys));
    if plans.Ok? {
      var receipt := Receipt(w, CheckoutRows(Ids(caps), plans.value));
      StrictShape(caps, plans.value);
      StrictRunIff(w, argv, caps, plans.value, receipt);
      ChildIff(w, Join(Ids(caps)), argv, Before(map[], receipt, {}), StrictEarly(caps, plans.value));
      QuietSplit(w, 0, 3 * |caps| + 3, 3 * |caps| + 4);
      QuietOne(w, 3 * |caps| + 3);
    }
  }

  // ---------------------------------------------------------------- what it comes to when nothing disturbs it

  /** The first capability that does not resolve as planned, and why. */
  ghost predicate Stumbles(w: World, caps: seq<Cap>, plans: seq<Plan>, i: nat, e: Error)
    requires |caps| == |plans|
  {
    && i < |caps| && (forall j :: 0 <= j < i ==> Resolves(w, caps[j], plans[j])) && !Resolves(w, caps[i], plans[i])
    && e == if w.resolve(caps[i]).None? then Unresolved else Mismatch
  }

  lemma CapStumbles(w: World, argv: seq<string>, cap: Cap, plan: Plan, l: Local, k: nat)
    requires Calm(w) && !Resolves(w, cap, plan)
    ensures RunBody(w, argv, l, CapStmts(cap, plan), k).1 == Some(if w.resolve(cap).None? then Unresolved else Mismatch)
  {
    Three(w, argv, l, Resolve(cap), Compare(plan), InjectAs(plan), k);
  }

  lemma {:induction false} CapsStumble(w: World, argv: seq<string>, caps: seq<Cap>, plans: seq<Plan>, l: Local, k: nat, i: nat, e: Error)
    requires |caps| == |plans| && Calm(w) && Stumbles(w, caps, plans, i, e)
    ensures RunBody(w, argv, l, CapsBody(caps, plans), k).1 == Some(e)
    decreases |caps|
  {
    BodyAppend(w, argv, l, CapStmts(caps[0], plans[0]), CapsBody(caps[1..], plans[1..]), k);
    var (l1, e1) := RunBody(w, argv, l, CapStmts(caps[0], plans[0]), k);
    if i == 0 {
      CapStumbles(w, argv, caps[0], plans[0], l, k);
    } else {
      CapRunIff(w, argv, caps[0], plans[0], l, k);
      assert forall j :: 0 <= j < |caps| - 1 ==> caps[1..][j] == caps[j + 1] && plans[1..][j] == plans[j + 1];
      CapsStumble(w, argv, caps[1..], plans[1..], l1, k + 3, i - 1, e);
    }
  }

  lemma StrictStumbles(w: World, argv: seq<string>, caps: seq<Cap>, plans: seq<Plan>, receipt: string, i: nat, e: Error)
    requires |caps| == |plans| && Calm(w) && Stumbles(w, caps, plans, i, e)
    ensures RunBody(w, argv, Before(map[], receipt, {}), StrictEarly(caps, plans), 0).1 == Some(e)
  {
    var start := Before(map[], receipt, {});
    StrictParts(w, argv, caps, plans, start);
    CapsStumble(w, argv, caps, plans, start.(env := w.environ), 1, i, e);
  }

  /**
   A planned checkout that nothing disturbs: too long a receipt is refused; the
   first capability that does not resolve, or not to the fields planned, is the
   failure; else the child's own end is the checkout's.
   */
  lemma StrictComesTo(w: World, caps: seq<Cap>, argv: seq<string>)
    requires Calm(w) && PlanAll(w, caps, {}, Folded(w, w.environ.Keys)).Ok?
    ensures var plans := PlanAll(w, caps, {}, Folded(w, w.environ.Keys)).value;
            var x := ExecStrict(w, caps, argv);
            if !Fits(w, caps, plans) then x.result == Raised(TooLong)
            else if forall i :: 0 <= i < |caps| ==> Resolves(w, caps[i], plans[i]) then
              x.child.Some? && EndsAs(w, argv, x)
            else exists i, e :: Stumbles(w, caps, plans, i, e) && x.result == Raised(e)
  {
    var plans := PlanAll(w, caps, {}, Folded(w, w.environ.Keys)).value;
    var receipt := Receipt(w, CheckoutRows(Ids(caps), plans));
    var start := Before(map[], receipt, {});
    if Fits(w, caps, plans) {
      StrictShape(caps, plans);
      StrictRunsIff(w, caps, argv);
      CalmEnds(w, Join(Ids(caps)), argv, start, StrictEarly(caps, plans));
      ChildIs(w, Join(Ids(caps)), argv, start, StrictEarly(caps, plans));
      if exists i :: 0 <= i < |caps| && !Resolves(w, caps[i], plans[i]) {
        var i, e := FirstStumble(w, caps, plans);
        StrictStumbles(w, argv, caps, plans, receipt, i, e);
      }
    }
  }

  /** The result is what became of the child. */
  ghost predicate EndsAs(w: World, argv: seq<string>, x: Exec) {
    x.child.Some? &&
    match w.run(argv, x.child.value)
    case Exited(code) => x.result == Ok(code)
    case LaunchFailed => x.result == Raised(NotLaunched)
    case Broken => x.result == Raised(Interrupted)
  }

  lemma FirstStumble(w: World, caps: seq<Cap>, plans: seq<Plan>) returns (i: nat, e: Error)
    requires |caps| == |plans| && exists i :: 0 <= i < |caps| && !Resolves(w, caps[i], plans[i])
    ensures Stumbles(w, caps, plans, i, e)
  {
    i := FirstUpTo(w, caps, plans, 0);
    e := if w.resolve(caps[i]).None? then Unresolved else Mismatch;
  }

  lemma FirstUpTo(w: World, caps: seq<Cap>, plans: seq<Plan>, n: nat) returns (i: nat)
    requires |caps| == |plans| && exists i :: n <= i < |caps| && !Resolves(w, caps[i], plans[i])
    requires forall j :: 0 <= j < n && j < |caps| ==> Resolves(w, caps[j], plans[j])
    ensures i < |caps| && !Resolves(w, caps[i], plans[i]) && forall j :: 0 <= j < i ==> Resolves(w, caps[j], plans[j])
    decreases |caps| - n
  {
    i := n;
    if Resolves(w, caps[n], plans[n]) { i := FirstUpTo(w, caps, plans, n + 1); }
  }

  // ---------------------------------------------------------------- the bare and the suite path

  /** The bare body is its three parts in order. */
  lemma BareParts(w: World, argv: seq<string>, cap: Cap, start: Local)
    ensures var (l1, e1) := RunBody(w, argv, start, [Resolve(cap)], 0);
            var (l2, e2) := RunBody(w, argv, l1, BARE_MIDDLE, 1);
            RunBody(w, argv, start, BareEarly(cap), 0).1 ==
            if e1.Some? then e1 else if e2.Some? then e2
            else RunBody(w, argv, l2, [MakeReceipt(cap.id), SetReceipt, ClaimBare], 4).1
  {
    BodyAppend(w, argv, start, [Resolve(cap)] + BARE_MIDDLE, [MakeReceipt(cap.id), SetReceipt, ClaimBare], 0);
    BodyAppend(w, argv, start, [Resolve(cap)], BARE_MIDDLE, 0);
  }

  lemma BareRunIff(w: World, argv: seq<string>, cap: Cap)
    ensures RunBody(w, argv, Before(map[], "", {}), BareEarly(cap), 0).1 == None <==>
            Quiet(w, 0, 7) && w.resolve(cap).Some? &&
            |Receipt(w, [CheckoutJson(cap.id, BarePlan(w, w.resolve(cap).value))])| <= 16384
  {
    var start := Before(map[], "", {});
    BareParts(w, argv, cap, start);
    OneStmt(w, argv, start, Resolve(cap), 0);
    var (l1, e1) := RunBody(w, argv, start, [Resolve(cap)], 0);
    if e1.None? {
      MiddleIff(w, argv, l1);
      BareMiddle(w, argv, l1);
      TailIff(w, argv, RunBody(w, argv, l1, BARE_MIDDLE, 1).0, cap.id);
    }
    QuietSplit(w, 0, 1, 7);
    QuietSplit(w, 1, 4, 7);
    QuietOne(w, 0);
  }

  lemma MiddleIff(w: World, argv: seq<string>, l: Local)
    ensures RunBody(w, argv, l, BARE_MIDDLE, 1).1 == None <==> Quiet(w, 1, 4)
  {
    Three(w, argv, l, PlanBare, CopyEnv, InjectBare, 1);
    assert Quiet(w, 1, 4) <==> !w.interrupts(1) && !w.interrupts(2) && !w.interrupts(3);
  }

  lemma TailIff(w: World, argv: seq<string>, l: Local, id: string)
    ensures RunBody(w, argv, l, [MakeReceipt(id), SetReceipt, ClaimBare], 4).1 == None <==>
            Quiet(w, 4, 7) && |Receipt(w, [CheckoutJson(id, l.plan)])| <= 16384
  {
    Three(w, argv, l, MakeReceipt(id), SetReceipt, ClaimBare, 4);
    assert Quiet(w, 4, 7) <==> !w.interrupts(4) && !w.interrupts(5) && !w.interrupts(6);
  }

  /** A bare child is started exactly when the capability resolves and its receipt is no longer than 16 KiB, and nothing arrives before. */
  lemma BareRunsIff(w: World, cap: Cap, argv: seq<string>)
    ensures ExecBare(w, cap, argv).child.Some? <==>
            Begins(w) && Quiet(w, 0, 8) && w.resolve(cap).Some? &&
            |Receipt(w, [CheckoutJson(cap.id, BarePlan(w, w.resolve(cap).value))])| <= 16384
  {
    BareShape(cap);
    BareRunIff(w, argv, cap);
    ChildIff(w, cap.id, argv, Before(map[], "", {}), BareEarly(cap));
    QuietSplit(w, 0, 7, 8);
    QuietOne(w, 7);
  }

  lemma SuiteRunIff(w: World, argv: seq<string>, cap: Cap, plan: Plan, receipt: string)
    ensures RunBody(w, argv, Before(map[], receipt, plan.Values), SuiteEarly(cap, plan), 0).1 == None <==>
            Quiet(w, 0, 4) && w.resolve(cap).Some? && Named(w.resolve(cap).value) <= plan.Keys
  {
    var start := Before(map[], receipt, plan.Values);
    BodyAppend(w, argv, start, [Resolve(cap)], [CopyAllowed(plan), InjectAs(plan), SetReceipt], 0);
    OneStmt(w, argv, start, Resolve(cap), 0);
    var (l1, e1) := RunBody(w, argv, start, [Resolve(cap)], 0);
    if e1.None? { Three(w, argv, l1, CopyAllowed(plan), InjectAs(plan), SetReceipt, 1); }
    assert Quiet(w, 0, 4) <==> !w.interrupts(0) && !w.interrupts(1) && !w.interrupts(2) && !w.interrupts(3);
  }

  /** A suite's child is started exactly when the suite is planned and resolves to fields of its own, and nothing arrives before. */
  lemma SuiteRunsIff(w: World, cap: Cap, argv: seq<string>)
    ensures ExecSuite(w, cap, argv).child.Some? <==>
            T.SuitePlan(w, cap).Some? && Begins(w) && Quiet(w, 0, 5) && w.resolve(cap).Some? &&
            Named(w.resolve(cap).value) <= T.SuitePlan(w, cap).value.Keys
  {
    var planned := T.SuitePlan(w, cap);
    if planned.Some? {
      var receipt := Receipt(w, [CheckoutJson(cap.id, planned.value)]);
      SuiteShape(cap, planned.value);
      SuiteRunIff(w, argv, cap, planned.value, receipt);
      ChildIff(w, cap.id, argv, Before(map[], receipt, planned.value.Values), SuiteEarly(cap, planned.value));
      QuietSplit(w, 0, 4, 5);
      QuietOne(w, 4);
    }
  }

  lemma TailFails(w: World, argv: seq<string>, l: Local, id: string)
    requires Calm(w)
    ensures var e := RunBody(w, argv, l, [MakeReceipt(id), SetReceipt, ClaimBare], 4).1; e.Some? ==> e.value == TooLong
  {
    Three(w, argv, l, MakeReceipt(id), SetReceipt, ClaimBare, 4);
  }

  lemma BareFails(w: World, argv: seq<string>, cap: Cap)
    requires Calm(w)
    ensures var e := RunBody(w, argv, Before(map[], "", {}), BareEarly(cap), 0).1;
            e.Some? ==> e.value == if w.resolve(cap).None? then Unresolved else TooLong
  {
    var start := Before(map[], "", {});
    BareParts(w, argv, cap, start);
    OneStmt(w, argv, start, Resolve(cap), 0);
    var l1 := RunBody(w, argv, start, [Resolve(cap)], 0).0;
    MiddleIff(w, argv, l1);
    TailFails(w, argv, RunBody(w, argv, l1, BARE_MIDDLE, 1).0, cap.id);
  }

  /** A bare checkout that nothing disturbs. */
  lemma BareComesTo(w: World, cap: Cap, argv: seq<string>)
    requires Calm(w)
    ensures var x := ExecBare(w, cap, argv);
            if w.resolve(cap).None? then x.result == Raised(Unresolved)
            else if |Receipt(w, [CheckoutJson(cap.id, BarePlan(w, w.resolve(cap).value))])| > 16384 then x.result == Raised(TooLong)
            else EndsAs(w, argv, x)
  {
    BareShape(cap);
    BareRunsIff(w, cap, argv);
    BareRunIff(w, argv, cap);
    BareFails(w, argv, cap);
    CalmEnds(w, cap.id, argv, Before(map[], "", {}), BareEarly(cap));
    ChildIs(w, cap.id, argv, Before(map[], "", {}), BareEarly(cap));
  }

  lemma SuiteFails(w: World, argv: seq<string>, cap: Cap, plan: Plan, receipt: string)
    requires Calm(w)
    ensures var e := RunBody(w, argv, Before(map[], receipt, plan.Values), SuiteEarly(cap, plan), 0).1;
            e.Some? ==> e.value == if w.resolve(cap).None? then Unresolved else Mismatch
  {
    var start := Before(map[], receipt, plan.Values);
    BodyAppend(w, argv, start, [Resolve(cap)], [CopyAllowed(plan), InjectAs(plan), SetReceipt], 0);
    OneStmt(w, argv, start, Resolve(cap), 0);
    var (l1, e1) := RunBody(w, argv, start, [Resolve(cap)], 0);
    if e1.None? { Three(w, argv, l1, CopyAllowed(plan), InjectAs(plan), SetReceipt, 1); }
  }

  /** A suite checkout that is planned and nothing disturbs. */
  lemma SuiteComesTo(w: World, cap: Cap, argv: seq<string>)
    requires Calm(w) && T.SuitePlan(w, cap).Some?
    ensures var x := ExecSuite(w, cap, argv);
            if w.resolve(cap).None? then x.result == Raised(Unresolved)
            else if !(Named(w.resolve(cap).value) <= T.SuitePlan(w, cap).value.Keys) then x.result == Raised(Mismatch)
            else EndsAs(w, argv, x)
  {
    var plan := T.SuitePlan(w, cap).value;
    var receipt := Receipt(w, [CheckoutJson(cap.id, plan)]);
    SuiteShape(cap, plan);
    SuiteRunsIff(w, cap, argv);
    SuiteRunIff(w, argv, cap, plan, receipt);
    SuiteFails(w, argv, cap, plan, receipt);
    CalmEnds(w, cap.id, argv, Before(map[], receipt, plan.Values), SuiteEarly(cap, plan));
    ChildIs(w, cap.id, argv, Before(map[], receipt, plan.Values), SuiteEarly(cap, plan));
  }
}
