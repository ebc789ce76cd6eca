/** The exec paths at work: records written, resolvers called, and a child run, step by step. */
module ExecClass {
  import opened Base
  import opened JsonTree
  import opened ExecSpec

  class Runner {
    const w: World
    var events: seq<Event>
    var emitted: nat
    // the local variables of the path under way
    var env: Env
    var fields: Pairs
    var plan: Plan
    var receipt: string
    var resolved: seq<string>
    var child: Option<Env>
    var completed: Option<int>
    var result: Option<int>
    var pending: Option<Error>
    var action: set<string>
    var terminal: Standing

    ghost predicate Fresh() reads this {
      events == [] && emitted == 0 && resolved == [] && child == None
    }

    function Locals(): Local reads this {
      Local(env, fields, plan, receipt, resolved, child, completed, result, pending, action, terminal)
    }

    ghost function Did(returned: Outcome<int, Error>): Exec reads this {
      Exec(events, resolved, child, returned)
    }

    constructor (w: World)
      ensures this.w == w && Fresh()
    {
      this.w, events, emitted, resolved, child := w, [], 0, [], None;
      env, fields, plan, receipt := map[], [], map[], "";
      completed, result, pending, action, terminal := None, None, None, {}, Standing(false, {});
    }

    /** One provenance record; `ok` is false when its write raises, which it may do with the line written. */
    method Emit(e: Event) returns (ok: bool)
      modifies this`events, this`emitted
      ensures ok == w.emits(old(emitted)) && emitted == old(emitted) + 1
      ensures events == if Lands(w, old(emitted)) then old(events) + [e] else old(events)
    {
      ok := w.emits(emitted);
      var landed := ok || w.wrote(emitted);
      emitted := emitted + 1;
      if landed {
        events := events + [e];
      }
    }

    /** The names already used, here or by an earlier capability, are carried along. */
    method InjectionPlan(cap: Cap, fields: seq<string>, mapping: Json, used: set<string>, inherited: set<string>)
      returns (r: Outcome<(Plan, set<string>), Error>)
      ensures r == ExecSpec.InjectionPlan(w, cap, fields, mapping, used, inherited)
    {
      if RECEIPT in inherited {
        return Raised(NestedReceipt);
      }
      var prefix := Get(cap.options, "env_prefix");
      var plan: Plan := map[];
      var taken := used;
      for i := 0 to |fields|
        invariant PlanFields(w, fields[..i], mapping, prefix, used, inherited) == Ok((plan, taken))
      {
        assert fields[..i + 1][..i] == fields[..i];
        var name := InjectVar(w, fields[i], mapping, prefix);
        var e := Refused(w, name, taken, inherited);
        if e.Some? {
          FailsLater(fields, i + 1, mapping, prefix, used, inherited, e.value);
          return Raised(e.value);
        }
        plan, taken := plan[fields[i] := name], taken + {w.upper(name)};
      }
      assert fields[..|fields|] == fields;
      r := Ok((plan, taken));
    }

    /** A refusal stands, whatever fields come after it. */
    lemma {:induction false} FailsLater(fields: seq<string>, n: nat, mapping: Json, prefix: Json, used: set<string>,
                                        inherited: set<string>, e: Error)
      requires n <= |fields| && PlanFields(w, fields[..n], mapping, prefix, used, inherited) == Raised(e)
      ensures PlanFields(w, fields, mapping, prefix, used, inherited) == Raised(e)
      decreases |fields|
    {
      if n < |fields| {
        var front := fields[..|fields| - 1];
        assert front[..n] == fields[..n];
        FailsLater(front, n, mapping, prefix, used, inherited, e);
      } else {
        assert fields[..n] == fields;
      }
    }

    method PlanEach(caps: seq<Cap>) returns (r: Outcome<seq<Plan>, Error>)
      ensures r == PlanAll(w, caps, {}, Folded(w, w.environ.Keys))
    {
      var inherited := Folded(w, w.environ.Keys);
      var used: set<string> := {};
      var plans: seq<Plan> := [];
      assert caps[0..] == caps;
      PrependNone(PlanAll(w, caps, {}, inherited));
      for i := 0 to |caps|
        invariant PlanAll(w, caps, {}, inherited) == Prepend(plans, PlanAll(w, caps[i..], used, inherited))
      {
        assert caps[i..][0] == caps[i] && caps[i..][1..] == caps[i + 1..];
        var cap := caps[i];
        var r1: Outcome<(Plan, set<string>), Error>;
        if !NamingOk(cap) {
          r1 := Raised(BadNaming);
        } else if !ReceiptId(cap.id) {
          r1 := Raised(BadId);
        } else {
          var fields := DeclaredFields(w, cap);
          if fields.Raised? {
            r1 := Raised(fields.error);
          } else {
            r1 := InjectionPlan(cap, fields.value, Get(cap.options, "inject"), used, inherited);
          }
        }
        if r1.Raised? {
          return Raised(r1.error);
        }
        PrependMore(plans, r1.value.0, PlanAll(w, caps[i + 1..], r1.value.1, inherited));
        plans, used := plans + [r1.value.0], r1.value.1;
      }
      assert plans + [] == plans;
      r := Ok(plans);
    }

    method InjectPairs(env: Env, plan: Plan, ps: Pairs) returns (out: Env)
      requires Named(ps) <= plan.Keys
      ensures out == Inject(env, plan, ps)
    {
      out := env;
      for i := 0 to |ps|
        invariant Named(ps[..i]) <= plan.Keys && out == Inject(env, plan, ps[..i])
      {
        assert ps[..i + 1][..i] == ps[..i];
        assert ps[i].0 in Named(ps) && Named(ps[..i + 1]) <= Named(ps);
        out := out[plan[ps[i].0] := ps[i].1];
      }
      assert ps[..|ps|] == ps;
    }

    method Start(env: Env, receipt: string, names: set<string>)
      requires Fresh()
      modifies this
      ensures Locals() == Before(env, receipt, names) && Fresh()
    {
      this.env, this.receipt, action, terminal := env, receipt, names, Standing(false, names);
      fields, plan, completed, result, pending := [], map[], None, None, None;
    }

    method Fail()
      modifies this`terminal
      ensures Locals() == Failed(old(Locals()))
    {
      terminal := Standing(false, action);
    }

    method InjectFields(plan: Plan) returns (raised: Option<Error>)
      modifies this`env
      ensures (Locals(), raised) == InjectInto(old(Locals()), plan)
    {
      if !(Named(fields) <= plan.Keys) {
        return Some(Mismatch);
      }
      env := InjectPairs(env, plan, fields);
      return None;
    }

    method ResolveFor(cap: Cap) returns (raised: Option<Error>)
      modifies this
      ensures events == old(events) && emitted == old(emitted)
      ensures (Locals(), raised) == Execute(w, [], old(Locals()), Resolve(cap))
    {
      resolved := resolved + [cap.id];
      var ps := w.resolve(cap);
      if ps == None {
        Fail();
        return Some(Unresolved);
      }
      fields := ps.value;
      return None;
    }

    method Run(argv: seq<string>) returns (raised: Option<Error>)
      modifies this
      ensures events == old(events) && emitted == old(emitted)
      ensures (Locals(), raised) == ExecuteChild(w, argv, old(Locals()))
    {
      child := Some(env);
      raised := None;
      match w.run(argv, env) {
        case Exited(code) => completed := Some(code);
        case LaunchFailed =>
          Fail();
          pending := Some(NotLaunched);
        case Broken => raised := Some(Interrupted);
      }
    }

    /** One statement of a try block. */
    method Statement(argv: seq<string>, st: Stmt) returns (raised: Option<Error>)
      modifies this
      ensures events == old(events) && emitted == old(emitted)
      ensures (Locals(), raised) == Execute(w, argv, old(Locals()), st)
    {
      raised := None;
      match st {
        case CopyEnv => env := w.environ;
        case Resolve(cap) => raised := ResolveFor(cap);
        case Compare(plan) =>
          if Named(fields) != plan.Keys {
            Fail();
            raised := Some(Mismatch);
          }
        case InjectAs(plan) => raised := InjectFields(plan);
        case PlanBare => plan := BarePlan(w, fields);
        case InjectBare => raised := InjectFields(plan);
        case MakeReceipt(id) =>
          var made := Receipt(w, [CheckoutJson(id, plan)]);
          if |made| > MAX_RECEIPT_BYTES {
            Fail();
            raised := Some(TooLong);
          } else {
            receipt := made;
          }
        case CopyAllowed(plan) => env := SuiteEnv(w, plan, fields);
        case SetReceipt => env := env[RECEIPT := receipt];
        case Claim(names) => action := names;
        case ClaimBare => action := plan.Values;
        case RunChild => raised := Run(argv);
        case Record =>
          if completed.Some? {
            result := completed;
            terminal := Standing(completed == Some(0), action);
          }
      }
    }

    /** The statements in order, until one raises or an exception arrives before it, or after the last. */
    method Try(argv: seq<string>, body: seq<Stmt>) returns (raised: Option<Error>)
      modifies this
      ensures events == old(events) && emitted == old(emitted)
      ensures (Locals(), raised) == ExecSpec.Try(w, argv, old(Locals()), body)
    {
      ghost var start := Locals();
      assert body[0..] == body;
      for i := 0 to |body|
        invariant events == old(events) && emitted == old(emitted)
        invariant RunBody(w, argv, start, body, 0) == RunBody(w, argv, Locals(), body[i..], i)
      {
        assert body[i..][0] == body[i] && body[i..][1..] == body[i + 1..];
        if w.interrupts(i) {
          return Some(Interrupted);
        }
        raised := Statement(argv, body[i]);
        if raised.Some? {
          return;
        }
      }
      raised := if w.interrupts(|body|) then Some(Interrupted) else None;
    }

    /** Announce, try, and whatever happened write the terminal record last. */
    method Perform(target: string, argv: seq<string>, body: seq<Stmt>) returns (r: Outcome<int, Error>)
      requires Fresh()
      modifies this
      ensures Did(r) == ExecSpec.Perform(w, target, argv, old(Locals()), body)
    {
      var announced := Emit(Started(target));
      if !announced {
        return Raised(EmitFailed);
      }
      if w.gap {
        return Raised(Interrupted);
      }
      var raised := Try(argv, body);
      if w.cleanup {
        return Raised(Interrupted);
      }
      var written := Emit(Terminal(target, terminal.applied, terminal.injected));
      if !written {
        return Raised(EmitFailed);
      }
      r := if w.late then Raised(Interrupted) else Returned(Locals(), raised);
    }

    method ExecCheckout(caps: seq<Cap>, argv: seq<string>) returns (r: Outcome<int, Error>)
      requires Fresh()
      modifies this
      ensures Did(r) == ExecStrict(w, caps, argv)
    {
      var plans := PlanEach(caps);
      if plans.Raised? {
        return Raised(plans.error);
      }
      var made := Receipt(w, CheckoutRows(Ids(caps), plans.value));
      if |made| > MAX_RECEIPT_BYTES {
        return Raised(TooLong);
      }
      Start(map[], made, {});
      r := Perform(Join(Ids(caps)), argv, StrictBody(caps, plans.value));
    }

    method ExecComposed(caps: seq<Cap>, argv: seq<string>) returns (r: Outcome<int, Error>)
      requires Fresh()
      modifies this
      ensures Did(r) == ExecSpec.ExecComposed(w, caps, argv)
    {
      if argv == [] {
        return Raised(NoCommand);
      }
      var seen: set<string> := {};
      assert caps[0..] == caps;
      for i := 0 to |caps|
        invariant Fresh() && Objection(w, caps, argv, {}) == Objection(w, caps[i..], argv, seen)
      {
        var cap := caps[i];
        assert caps[i..][0] == cap && caps[i..][1..] == caps[i + 1..];
        if cap.provider != "cred" {
          return Raised(NotCred);
        }
        var source := SourceKind(cap);
        if source.Raised? {
          return Raised(source.error);
        }
        if source.value == FromSuite {
          return Raised(SuiteNotComposable);
        }
        if cap.id in seen {
          return Raised(Repeated);
        }
        seen := seen + {cap.id};
        if w.trusted(cap) != Some(argv) {
          return Raised(BadCommand);
        }
      }
      r := ExecCheckout(caps, argv);
    }

    method ExecBare(cap: Cap, argv: seq<string>) returns (r: Outcome<int, Error>)
      requires Fresh()
      modifies this
      ensures Did(r) == ExecSpec.ExecBare(w, cap, argv)
    {
      Start(map[], "", {});
      r := Perform(cap.id, argv, BareBody(cap));
    }

    method ExecSuite(cap: Cap, argv: seq<string>) returns (r: Outcome<int, Error>)
      requires Fresh()
      modifies this
      ensures Did(r) == ExecSpec.ExecSuite(w, cap, argv)
    {
      var spec := w.suite(cap);
      if spec == None {
        return Raised(BadSuite);
      }
      var planned := InjectionPlan(cap, spec.value.0, spec.value.1, {}, Folded(w, w.environ.Keys));
      if planned.Raised? {
        return Raised(planned.error);
      }
      var names := planned.value.0;
      Start(map[], Receipt(w, [CheckoutJson(cap.id, names)]), names.Values);
      r := Perform(cap.id, argv, SuiteBody(cap, names));
    }

    method ExecCred(cap: Cap, argv: seq<string>) returns (r: Outcome<int, Error>)
      requires Fresh()
      modifies this
      ensures Did(r) == ExecSpec.ExecCred(w, cap, argv)
    {
      if argv == [] {
        return Raised(NoCommand);
      }
      var source := SourceKind(cap);
      if source.Raised? {
        return Raised(source.error);
      }
      if w.trusted(cap) != Some(argv) {
        return Raised(BadCommand);
      }
      if source.value == FromSuite {
        r := ExecSuite(cap, argv);
        return;
      }
      if !NamingOk(cap) {
        return Raised(BadNaming);
      }
      if DeclaresNaming(cap) {
        r := ExecCheckout([cap], argv);
      } else {
        r := ExecBare(cap, argv);
      }
    }

    method ExecE2e(cap: Cap, argv: seq<string>) returns (r: Outcome<int, Error>)
      requires Fresh()
      modifies this
      ensures Did(r) == ExecSpec.ExecE2e(w, cap, argv)
    {
      if argv == [] {
        return Raised(NoCommand);
      }
      var handles := w.browser(cap);
      if handles == None {
        return Raised(NoBrowser);
      }
      Start(w.environ + handles.value, "", {});
      r := Perform(cap.id, argv, [] + [RunChild, Record]);
    }
  }

  function Prepend(plans: seq<Plan>, r: Outcome<seq<Plan>, Error>): Outcome<seq<Plan>, Error> {
    match r case Raised(e) => Raised(e) case Ok(rest) => Ok(plans + rest)
  }

  lemma PrependNone(r: Outcome<seq<Plan>, Error>)
    ensures Prepend([], r) == r
  {
    if r.Ok? { assert [] + r.value == r.value; }
  }

  lemma PrependMore(plans: seq<Plan>, p: Plan, r: Outcome<seq<Plan>, Error>)
    ensures Prepend(plans, Prepend([p], r)) == Prepend(plans + [p], r)
  {
    if r.Ok? { assert plans + ([p] + r.value) == plans + [p] + r.value; }
  }
}
