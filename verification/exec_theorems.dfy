/** What an exec checkout guarantees to the child and to the record. */
module ExecTheorems {
  import opened Base
  import opened JsonTree
  import opened ExecSpec
  import opened B = ExecBody

  // ---------------------------------------------------------------- planning

  /** A name a plan may hand out. */
  predicate Free(name: string, used: set<string>, inherited: set<string>) {
    EnvName(name) && name !in RESERVED && name !in used && name !in inherited
  }

  /** The name of each field, in order. */
  function Names(w: World, fields: seq<string>, mapping: Json, prefix: Json): (ns: seq<string>)
    ensures |ns| == |fields|
  {
    seq(|fields|, i requires 0 <= i < |fields| => InjectVar(w, fields[i], mapping, prefix))
  }

  /** Every name is valid and free, and no two are the same. */
  ghost predicate Plannable(names: seq<string>, used: set<string>, inherited: set<string>) {
    (forall i :: 0 <= i < |names| ==> Free(names[i], used, inherited)) &&
    forall i, j :: 0 <= i < j < |names| ==> names[i] != names[j]
  }

  lemma RefusedIff(w: World, name: string, used: set<string>, inherited: set<string>)
    requires Upper(w.upper)
    ensures Refused(w, name, used, inherited) == None <==> Free(name, used, inherited)
  {
  }

  /** What a plan is once it passes: the fields' own names, now all used. */
  ghost predicate Planned(w: World, fields: seq<string>, mapping: Json, prefix: Json, used: set<string>, r: (Plan, set<string>)) {
    (forall f :: f in r.0 <==> f in fields) &&
    (forall f :: f in r.0 ==> r.0[f] == InjectVar(w, f, mapping, prefix)) &&
    r.1 == used + r.0.Values
  }

  lemma PlannableFront(names: seq<string>, last: string, used: set<string>, inherited: set<string>)
    ensures Plannable(names + [last], used, inherited) <==>
            Plannable(names, used, inherited) && Free(last, used, inherited) && last !in names
  {
    var all := names + [last];
    if Plannable(all, used, inherited) {
      assert Free(all[|names|], used, inherited);
      forall i | 0 <= i < |names| ensures Free(names[i], used, inherited) && names[i] != last { assert all[i] == names[i]; }
      forall i, j | 0 <= i < j < |names| ensures names[i] != names[j] { assert all[i] != all[j]; }
    }
  }

  lemma NamesFront(w: World, fields: seq<string>, mapping: Json, prefix: Json)
    requires fields != []
    ensures var n := |fields| - 1;
            Names(w, fields, mapping, prefix) == Names(w, fields[..n], mapping, prefix) + [InjectVar(w, fields[n], mapping, prefix)]
  {
  }

  lemma ValuesOf(w: World, front: seq<string>, mapping: Json, prefix: Json, used: set<string>, r: (Plan, set<string>), name: string)
    requires Planned(w, front, mapping, prefix, used, r)
    ensures name in r.1 <==> name in used || name in Names(w, front, mapping, prefix)
  {
    var names := Names(w, front, mapping, prefix);
    if name in r.0.Values {
      var f :| f in r.0 && r.0[f] == name;
      var i :| 0 <= i < |front| && front[i] == f;
      assert names[i] == name;
    }
    if name in names {
      var i :| 0 <= i < |names| && names[i] == name;
      assert front[i] in r.0 && r.0[front[i]] == name;
    }
  }

  lemma PlannedMore(w: World, fields: seq<string>, mapping: Json, prefix: Json, used: set<string>, front: (Plan, set<string>))
    requires fields != []
    requires var n := |fields| - 1; Planned(w, fields[..n], mapping, prefix, used, front) && fields[n] !in fields[..n]
    ensures var n := |fields| - 1;
            var name := InjectVar(w, fields[n], mapping, prefix);
            Planned(w, fields, mapping, prefix, used, (front.0[fields[n] := name], front.1 + {name}))
  {
    var n := |fields| - 1;
    var name := InjectVar(w, fields[n], mapping, prefix);
    assert fields == fields[..n] + [fields[n]];
    var more := front.0[fields[n] := name];
    forall v | v in front.0.Values + {name} ensures v in more.Values {
      if v == name {
        assert more[fields[n]] == v;
      } else {
        var f :| f in front.0 && front.0[f] == v;
        assert more[f] == v;
      }
    }
    assert more.Values == front.0.Values + {name};
  }

  /** Planning succeeds exactly when every field's name is valid, unreserved, new, and shared with no other. */
  lemma {:induction false} PlanIff(w: World, fields: seq<string>, mapping: Json, prefix: Json, used: set<string>, inherited: set<string>)
    requires Upper(w.upper)
    ensures var r := PlanFields(w, fields, mapping, prefix, used, inherited);
            (r.Ok? <==> Plannable(Names(w, fields, mapping, prefix), used, inherited)) &&
            (r.Ok? ==> Planned(w, fields, mapping, prefix, used, r.value))
    decreases |fields|
  {
    if fields != [] {
      var n := |fields| - 1;
      var name := InjectVar(w, fields[n], mapping, prefix);
      PlanIff(w, fields[..n], mapping, prefix, used, inherited);
      NamesFront(w, fields, mapping, prefix);
      PlannableFront(Names(w, fields[..n], mapping, prefix), name, used, inherited);
      var front := PlanFields(w, fields[..n], mapping, prefix, used, inherited);
      if front.Ok? {
        RefusedIff(w, name, front.value.1, inherited);
        ValuesOf(w, fields[..n], mapping, prefix, used, front.value, name);
        if Refused(w, name, front.value.1, inherited) == None {
          FieldNamed(w, fields[..n], mapping, prefix, fields[n]);
          PlannedMore(w, fields, mapping, prefix, used, front.value);
        }
      }
    }
  }

  lemma FieldNamed(w: World, fields: seq<string>, mapping: Json, prefix: Json, field: string)
    ensures field in fields ==> InjectVar(w, field, mapping, prefix) in Names(w, fields, mapping, prefix)
  {
    if i :| 0 <= i < |fields| && fields[i] == field {
      assert Names(w, fields, mapping, prefix)[i] == InjectVar(w, field, mapping, prefix);
    }
  }

  // ---------------------------------------------------------------- plans across capabilities

  ghost predicate Injective(plan: Plan) {
    forall f, g :: f in plan && g in plan && plan[f] == plan[g] ==> f == g
  }

  /** All the names of one plan are free, and different. */
  ghost predicate Sound(plan: Plan, used: set<string>, inherited: set<string>) {
    Injective(plan) && RECEIPT !in inherited && forall f :: f in plan ==> Free(plan[f], used, inherited)
  }

  lemma CapPlanSound(w: World, cap: Cap, used: set<string>, inherited: set<string>)
    requires Upper(w.upper)
    ensures var r := CapPlan(w, cap, used, inherited);
            r.Ok? ==> Sound(r.value.0, used, inherited) && r.value.1 == used + r.value.0.Values && ReceiptId(cap.id)
  {
    var fields := DeclaredFields(w, cap);
    if fields.Ok? {
      var mapping, prefix := Get(cap.options, "inject"), Get(cap.options, "env_prefix");
      PlanIff(w, fields.value, mapping, prefix, used, inherited);
      var r := CapPlan(w, cap, used, inherited);
      if r.Ok? {
        PlanInjective(w, fields.value, mapping, prefix, used, inherited, r.value);
      }
    }
  }

  lemma PlanInjective(w: World, fields: seq<string>, mapping: Json, prefix: Json, used: set<string>, inherited: set<string>,
                      r: (Plan, set<string>))
    requires Plannable(Names(w, fields, mapping, prefix), used, inherited) && Planned(w, fields, mapping, prefix, used, r)
    ensures Injective(r.0) && forall f :: f in r.0 ==> Free(r.0[f], used, inherited)
  {
    var names := Names(w, fields, mapping, prefix);
    forall f | f in r.0 ensures Free(r.0[f], used, inherited) {
      var i :| 0 <= i < |fields| && fields[i] == f;
      assert names[i] == r.0[f];
    }
    forall f, g | f in r.0 && g in r.0 && r.0[f] == r.0[g] ensures f == g {
      var i :| 0 <= i < |fields| && fields[i] == f;
      var j :| 0 <= j < |fields| && fields[j] == g;
      assert names[i] == names[j];
    }
  }

  /** The plans of a checkout, each sound beside all that came before it. */
  ghost predicate AllSound(plans: seq<Plan>, used: set<string>, inherited: set<string>)
    decreases |plans|
  {
    plans == [] || (Sound(plans[0], used, inherited) && AllSound(plans[1..], used + plans[0].Values, inherited))
  }

  lemma {:induction false} PlanAllSound(w: World, caps: seq<Cap>, used: set<string>, inherited: set<string>)
    requires Upper(w.upper)
    ensures var r := PlanAll(w, caps, used, inherited);
            r.Ok? ==> |r.value| == |caps| && AllSound(r.value, used, inherited) &&
                      forall i :: 0 <= i < |caps| ==> ReceiptId(caps[i].id)
    decreases |caps|
  {
    if caps != [] {
      CapPlanSound(w, caps[0], used, inherited);
      var first := CapPlan(w, caps[0], used, inherited);
      if first.Ok? {
        PlanAllSound(w, caps[1..], first.value.1, inherited);
        assert forall i :: 1 <= i < |caps| ==> caps[i] == caps[1..][i - 1];
      }
    }
  }

  /** Nothing a later plan hands out was used before it. */
  lemma {:induction false} VarsFree(plans: seq<Plan>, used: set<string>, inherited: set<string>, v: string)
    requires AllSound(plans, used, inherited) && v in Vars(plans)
    ensures Free(v, used, inherited)
    decreases |plans|
  {
    if v in plans[0].Values {
      var f :| f in plans[0] && plans[0][f] == v;
    } else {
      VarsFree(plans[1..], used + plans[0].Values, inherited, v);
    }
  }

  // ---------------------------------------------------------------- injection

  /** Value of a field in a resolved selection: the last pair wins, as in a dict. */
  ghost predicate Distinct(ps: Pairs) {
    forall i, j :: 0 <= i < j < |ps| ==> ps[i].0 != ps[j].0
  }

  lemma {:induction false} InjectFacts(env: Env, plan: Plan, ps: Pairs)
    requires Named(ps) <= plan.Keys && Injective(plan) && Distinct(ps)
    ensures forall i :: 0 <= i < |ps| ==> ps[i].0 in plan && plan[ps[i].0] in Inject(env, plan, ps) &&
                                          Inject(env, plan, ps)[plan[ps[i].0]] == ps[i].1
    ensures forall k :: k in Inject(env, plan, ps) <==> k in env || exists i :: 0 <= i < |ps| && ps[i].0 in plan && plan[ps[i].0] == k
    ensures forall k :: k in env && k !in plan.Values ==> k in Inject(env, plan, ps) && Inject(env, plan, ps)[k] == env[k]
    decreases |ps|
  {
    forall i | 0 <= i < |ps| ensures ps[i].0 in plan { assert ps[i].0 in Named(ps); }
    if ps != [] {
      var n := |ps| - 1;
      assert Named(ps[..n]) <= Named(ps);
      forall i, j | 0 <= i < j < n ensures ps[..n][i].0 != ps[..n][j].0 { assert ps[..n][i] == ps[i]; }
      InjectFacts(env, plan, ps[..n]);
      InjectLast(env, plan, ps);
    }
  }

  lemma InjectLast(env: Env, plan: Plan, ps: Pairs)
    requires ps != [] && Named(ps) <= plan.Keys && Injective(plan) && Distinct(ps) && Named(ps[..|ps| - 1]) <= plan.Keys
    requires forall i :: 0 <= i < |ps| ==> ps[i].0 in plan
    requires var front := ps[..|ps| - 1]; var r := Inject(env, plan, front);
             (forall i :: 0 <= i < |front| ==> front[i].0 in plan && plan[front[i].0] in r && r[plan[front[i].0]] == front[i].1) &&
             (forall k :: k in r <==> k in env || exists i :: 0 <= i < |front| && front[i].0 in plan && plan[front[i].0] == k) &&
             (forall k :: k in env && k !in plan.Values ==> k in r && r[k] == env[k])
    ensures forall i :: 0 <= i < |ps| ==> plan[ps[i].0] in Inject(env, plan, ps) && Inject(env, plan, ps)[plan[ps[i].0]] == ps[i].1
    ensures forall k :: k in Inject(env, plan, ps) <==> k in env || exists i :: 0 <= i < |ps| && ps[i].0 in plan && plan[ps[i].0] == k
    ensures forall k :: k in env && k !in plan.Values ==> k in Inject(env, plan, ps) && Inject(env, plan, ps)[k] == env[k]
  {
    var n := |ps| - 1;
    var front := ps[..n];
    var r, full := Inject(env, plan, front), Inject(env, plan, ps);
    assert full == r[plan[ps[n].0] := ps[n].1];
    forall i | 0 <= i < |ps| ensures plan[ps[i].0] in full && full[plan[ps[i].0]] == ps[i].1 {
      if i < n {
        assert front[i] == ps[i];
        assert ps[i].0 != ps[n].0;
      }
    }
    forall k ensures k in full <==> k in env || exists i :: 0 <= i < |ps| && ps[i].0 in plan && plan[ps[i].0] == k {
      if i :| 0 <= i < |front| && front[i].0 in plan && plan[front[i].0] == k { assert ps[i] == front[i]; }
      if i :| 0 <= i < |ps| && ps[i].0 in plan && plan[ps[i].0] == k {
        if i < n { assert front[i] == ps[i]; }
      }
    }
    assert plan[ps[n].0] in plan.Values;
  }

  ghost predicate Resolvers(w: World) {
    forall cap :: w.resolve(cap).Some? ==> Distinct(w.resolve(cap).value)
  }

  /** What the child sees of one capability: each resolved field, under its planned name. */
  ghost predicate Delivered(w: World, cap: Cap, plan: Plan, env: Env) {
    w.resolve(cap).Some? && Named(w.resolve(cap).value) == plan.Keys &&
    forall i :: 0 <= i < |w.resolve(cap).value| ==>
      var p := w.resolve(cap).value[i];
      p.0 in plan && plan[p.0] in env && env[plan[p.0]] == p.1
  }

  lemma DeliveredKept(w: World, cap: Cap, plan: Plan, env: Env, more: Env)
    requires Delivered(w, cap, plan, env)
    requires forall v :: v in plan.Values && v in env ==> v in more && more[v] == env[v]
    ensures Delivered(w, cap, plan, more)
  {
  }

  lemma OneInjected(w: World, cap: Cap, plan: Plan, env: Env)
    requires Resolvers(w) && w.resolve(cap).Some? && Named(w.resolve(cap).value) == plan.Keys && Injective(plan)
    ensures var env1 := Inject(env, plan, w.resolve(cap).value);
            Delivered(w, cap, plan, env1) && env1.Keys == env.Keys + plan.Values &&
            forall k :: k in env && k !in plan.Values ==> env1[k] == env[k]
  {
    var ps := w.resolve(cap).value;
    InjectFacts(env, plan, ps);
    var env1 := Inject(env, plan, ps);
    forall k ensures k in env1.Keys <==> k in env.Keys + plan.Values {
      if k in plan.Values {
        var f :| f in plan && plan[f] == k;
        assert f in Named(ps);
        var i :| 0 <= i < |ps| && ps[i].0 == f;
      }
    }
  }

  /** Resolving all of a sound checkout adds exactly the planned names and changes nothing that was there. */
  lemma {:induction false} ResolveFacts(w: World, caps: seq<Cap>, plans: seq<Plan>, used: set<string>, inherited: set<string>, env: Env)
    requires |caps| == |plans| && Resolvers(w) && AllSound(plans, used, inherited) && ResolveAll(w, caps, plans, env).Ok?
    requires forall k :: k in env ==> k in used || !Free(k, {}, inherited)
    ensures var out := ResolveAll(w, caps, plans, env).value;
            out.Keys == env.Keys + Vars(plans) && (forall k :: k in env ==> out[k] == env[k]) &&
            forall i :: 0 <= i < |caps| ==> Delivered(w, caps[i], plans[i], out)
    decreases |caps|
  {
    if caps != [] {
      var env1 := Inject(env, plans[0], w.resolve(caps[0]).value);
      OneInjected(w, caps[0], plans[0], env);
      forall k | k in env1 ensures k in used + plans[0].Values || !Free(k, {}, inherited) { }
      ResolveFacts(w, caps[1..], plans[1..], used + plans[0].Values, inherited, env1);
      var out := ResolveAll(w, caps, plans, env).value;
      forall k | k in env ensures out[k] == env[k] { NotPlanned(plans[0], used, inherited, k); }
      DeliveredKept(w, caps[0], plans[0], env1, out);
      forall i | 0 <= i < |caps| ensures Delivered(w, caps[i], plans[i], out) {
        if i > 0 { assert caps[i] == caps[1..][i - 1] && plans[i] == plans[1..][i - 1]; }
      }
    }
  }

  lemma NotPlanned(plan: Plan, used: set<string>, inherited: set<string>, k: string)
    requires Sound(plan, used, inherited) && (k in used || !Free(k, {}, inherited))
    ensures k !in plan.Values
  {
  }

  // ---------------------------------------------------------------- the strict child

  /**
   What a strict child sees: the inherited environment unchanged, each resolved
   field under its planned name, and the receipt; and nothing else. The three
   parts do not overlap.
   */
  ghost predicate ChildSees(w: World, caps: seq<Cap>, plans: seq<Plan>, env: Env)
    requires |caps| == |plans|
  {
    && env.Keys == w.environ.Keys + Vars(plans) + {RECEIPT}
    && w.environ.Keys !! Vars(plans) && RECEIPT !in w.environ.Keys + Vars(plans)
    && (forall k :: k in w.environ ==> env[k] == w.environ[k])
    && env[RECEIPT] == Receipt(w, CheckoutRows(Ids(caps), plans))
    && (forall i :: 0 <= i < |caps| ==> Delivered(w, caps[i], plans[i], env))
  }

  lemma NamesApart(w: World, plans: seq<Plan>)
    requires Upper(w.upper) && AllSound(plans, {}, Folded(w, w.environ.Keys)) && plans != []
    ensures w.environ.Keys !! Vars(plans) && RECEIPT !in w.environ.Keys + Vars(plans)
  {
    var inherited := Folded(w, w.environ.Keys);
    Environ(w);
    forall v | v in Vars(plans) ensures v !in w.environ && v != RECEIPT { VarsFree(plans, {}, inherited, v); }
    ReceiptNew(w);
  }

  lemma ReceiptKept(w: World, caps: seq<Cap>, plans: seq<Plan>, inherited: set<string>, env: Env, receipt: string, i: nat)
    requires |caps| == |plans| && i < |caps| && AllSound(plans, {}, inherited) && Delivered(w, caps[i], plans[i], env)
    ensures Delivered(w, caps[i], plans[i], env[RECEIPT := receipt])
  {
    NoReceipt(plans, {}, inherited, i);
    DeliveredKept(w, caps[i], plans[i], env, env[RECEIPT := receipt]);
  }

  lemma StrictEnv(w: World, caps: seq<Cap>, plans: seq<Plan>)
    requires Upper(w.upper) && Resolvers(w) && caps != [] && |caps| == |plans|
    requires AllSound(plans, {}, Folded(w, w.environ.Keys)) && ResolveAll(w, caps, plans, w.environ).Ok?
    ensures ChildSees(w, caps, plans,
                      ResolveAll(w, caps, plans, w.environ).value[RECEIPT := Receipt(w, CheckoutRows(Ids(caps), plans))])
  {
    var inherited := Folded(w, w.environ.Keys);
    var env := ResolveAll(w, caps, plans, w.environ).value;
    var receipt := Receipt(w, CheckoutRows(Ids(caps), plans));
    Environ(w);
    NamesApart(w, plans);
    ResolveFacts(w, caps, plans, {}, inherited, w.environ);
    WithReceipt(w, caps, plans, inherited, env, receipt);
  }

  lemma WithReceipt(w: World, caps: seq<Cap>, plans: seq<Plan>, inherited: set<string>, env: Env, receipt: string)
    requires |caps| == |plans| && AllSound(plans, {}, inherited) && RECEIPT !in env
    requires forall i :: 0 <= i < |caps| ==> Delivered(w, caps[i], plans[i], env)
    ensures var full := env[RECEIPT := receipt];
            full.Keys == env.Keys + {RECEIPT} && (forall k :: k in env ==> full[k] == env[k]) && full[RECEIPT] == receipt &&
            forall i :: 0 <= i < |caps| ==> Delivered(w, caps[i], plans[i], full)
  {
    forall i | 0 <= i < |caps| ensures Delivered(w, caps[i], plans[i], env[RECEIPT := receipt]) {
      ReceiptKept(w, caps, plans, inherited, env, receipt, i);
    }
  }

  /** A strict checkout's child sees just that; the injected names differ, case aside, from each other and from every inherited one. */
  lemma StrictChild(w: World, caps: seq<Cap>, argv: seq<string>)
    requires Upper(w.upper) && Resolvers(w) && caps != []
    ensures var x := ExecStrict(w, caps, argv);
            x.child.Some? ==>
              var plans := PlanAll(w, caps, {}, Folded(w, w.environ.Keys));
              plans.Ok? && AllSound(plans.value, {}, Folded(w, w.environ.Keys)) && ChildSees(w, caps, plans.value, x.child.value)
  {
    PlanAllSound(w, caps, {}, Folded(w, w.environ.Keys));
    var plans := PlanAll(w, caps, {}, Folded(w, w.environ.Keys));
    if plans.Ok? {
      PlannedChild(w, caps, argv, plans.value);
      if ResolveAll(w, caps, plans.value, w.environ).Ok? { StrictEnv(w, caps, plans.value); }
    }
  }

  /** What the try block of the strict path comes to, when it gets as far as the child, and when it does not. */
  lemma PlannedChild(w: World, caps: seq<Cap>, argv: seq<string>, plans: seq<Plan>)
    requires |caps| == |plans|
    ensures var x := ExecPlanned(w, caps, argv, plans);
            && x.resolved <= Ids(caps)
            && (x.child.Some? ==>
                  x.resolved == Ids(caps) && ResolveAll(w, caps, plans, w.environ).Ok? &&
                  x.child.value == ResolveAll(w, caps, plans, w.environ).value[RECEIPT := Receipt(w, CheckoutRows(Ids(caps), plans))])
            && (|x.events| == 2 && x.events[1].Terminal? && x.events[1].injected != {} ==>
                  x.child.Some? && x.events[1].injected == Vars(plans))
  {
    var receipt := Receipt(w, CheckoutRows(Ids(caps), plans));
    var start := Before(map[], receipt, {});
    StrictShape(caps, plans);
    StrictRun(w, argv, caps, plans, receipt);
    ChildIs(w, Join(Ids(caps)), argv, start, StrictEarly(caps, plans));
    ClaimIs(w, Join(Ids(caps)), argv, start, StrictEarly(caps, plans));
  }

  lemma {:induction false} NoReceipt(plans: seq<Plan>, used: set<string>, inherited: set<string>, i: nat)
    requires AllSound(plans, used, inherited) && i < |plans|
    ensures RECEIPT !in plans[i].Values
    decreases |plans|
  {
    if i > 0 {
      NoReceipt(plans[1..], used + plans[0].Values, inherited, i - 1);
    }
  }

  lemma Environ(w: World)
    requires Upper(w.upper)
    ensures forall k :: k in w.environ ==> !Free(k, {}, Folded(w, w.environ.Keys))
  {
    forall k | k in w.environ ensures !Free(k, {}, Folded(w, w.environ.Keys)) {
      assert w.upper(k) in Folded(w, w.environ.Keys);
    }
  }

  lemma ReceiptName()
    ensures EnvName(RECEIPT)
  {
    assert |RECEIPT| == 20;
    assert RECEIPT[..12] == "ACB_CHECKOUT" && RECEIPT[12..] == "_RECEIPT";
    forall i | 1 <= i < |RECEIPT| ensures 'A' <= RECEIPT[i] <= 'Z' || RECEIPT[i] == '_' {
      if i < 12 { assert RECEIPT[i] == "ACB_CHECKOUT"[i]; } else { assert RECEIPT[i] == "_RECEIPT"[i - 12]; }
    }
  }

  lemma ReceiptNew(w: World)
    requires Upper(w.upper) && RECEIPT !in Folded(w, w.environ.Keys)
    ensures RECEIPT !in w.environ
  {
    ReceiptName();
  }

  /** No resolver is called before every capability's plan has passed, none twice, and none after one has failed. */
  lemma PlannedFirst(w: World, caps: seq<Cap>, argv: seq<string>)
    ensures var x := ExecStrict(w, caps, argv);
            && x.resolved <= Ids(caps)
            && (x.resolved != [] || x.child.Some? || x.events != [] ==> PlanAll(w, caps, {}, Folded(w, w.environ.Keys)).Ok?)
            && (x.child.Some? ==> x.resolved == Ids(caps))
  {
    var plans := PlanAll(w, caps, {}, Folded(w, w.environ.Keys));
    if plans.Ok? { PlannedChild(w, caps, argv, plans.value); }
  }

  // ---------------------------------------------------------------- the record

  /** The number of the strict path's last statement. */
  function StrictLast(caps: seq<Cap>): nat {
    3 * |caps| + 4
  }

  lemma StrictHonest(w: World, caps: seq<Cap>, argv: seq<string>)
    ensures Honest(w, Join(Ids(caps)), argv, StrictLast(caps), ExecStrict(w, caps, argv))
  {
    var plans := PlanAll(w, caps, {}, Folded(w, w.environ.Keys));
    if plans.Ok? {
      var receipt := Receipt(w, CheckoutRows(Ids(caps), plans.value));
      StrictShape(caps, plans.value);
      PerformHonest(w, Join(Ids(caps)), argv, Before(map[], receipt, {}), StrictEarly(caps, plans.value));
    }
  }

  lemma JoinOne(cap: Cap)
    ensures Join(Ids([cap])) == cap.id
  {
    assert Ids([cap]) == [cap.id];
  }

  const BARE_LAST: nat := 8
  const SUITE_LAST: nat := 5

  function CredLast(cap: Cap): nat {
    if SourceKind(cap) == Ok(FromSuite) then SUITE_LAST else if DeclaresNaming(cap) then StrictLast([cap]) else BARE_LAST
  }

  lemma CredHonest(w: World, cap: Cap, argv: seq<string>)
    ensures Honest(w, cap.id, argv, CredLast(cap), ExecCred(w, cap, argv))
  {
    JoinOne(cap);
    StrictHonest(w, [cap], argv);
    BareHonest(w, cap, argv);
    SuiteHonest(w, cap, argv);
  }

  lemma BareHonest(w: World, cap: Cap, argv: seq<string>)
    ensures Honest(w, cap.id, argv, BARE_LAST, ExecBare(w, cap, argv))
  {
    BareShape(cap);
    PerformHonest(w, cap.id, argv, Before(map[], "", {}), BareEarly(cap));
  }

  lemma SuiteHonest(w: World, cap: Cap, argv: seq<string>)
    ensures Honest(w, cap.id, argv, SUITE_LAST, ExecSuite(w, cap, argv))
  {
    match w.suite(cap)
    case None =>
    case Some(spec) =>
      var planned := InjectionPlan(w, cap, spec.0, spec.1, {}, Folded(w, w.environ.Keys));
      if planned.Ok? {
        var plan := planned.value.0;
        SuiteShape(cap, plan);
        PerformHonest(w, cap.id, argv, Before(map[], Receipt(w, [CheckoutJson(cap.id, plan)]), plan.Values), SuiteEarly(cap, plan));
      }
  }

  lemma E2eHonest(w: World, cap: Cap, argv: seq<string>)
    ensures Honest(w, cap.id, argv, 1, ExecE2e(w, cap, argv))
  {
    if w.browser(cap).Some? {
      PerformHonest(w, cap.id, argv, Before(w.environ + w.browser(cap).value, "", {}), []);
    }
  }

  lemma ComposedHonest(w: World, caps: seq<Cap>, argv: seq<string>)
    ensures Honest(w, Join(Ids(caps)), argv, StrictLast(caps), ExecComposed(w, caps, argv))
  {
    StrictHonest(w, caps, argv);
  }

  /** A variable is reported as injected only when the child was given it. */
  lemma ClaimsAreTrue(w: World, caps: seq<Cap>, argv: seq<string>)
    requires Upper(w.upper) && Resolvers(w) && caps != []
    ensures var x := ExecStrict(w, caps, argv);
            |x.events| == 2 && x.events[1].Terminal? && x.events[1].injected != {} ==>
            x.child.Some? && x.events[1].injected <= x.child.value.Keys
  {
    StrictChild(w, caps, argv);
    var plans := PlanAll(w, caps, {}, Folded(w, w.environ.Keys));
    if plans.Ok? { PlannedChild(w, caps, argv, plans.value); }
  }

  lemma {:induction false} InjectHas(env: Env, plan: Plan, ps: Pairs, i: nat)
    requires Named(ps) <= plan.Keys && i < |ps|
    ensures ps[i].0 in plan && plan[ps[i].0] in Inject(env, plan, ps)
    decreases |ps|
  {
    assert ps[i].0 in Named(ps);
    var n := |ps| - 1;
    if i < n {
      assert Named(ps[..n]) <= Named(ps);
      InjectHas(env, plan, ps[..n], i);
    }
  }

  /** So too on the bare path, whatever names its fields are given. */
  lemma BareClaimsAreTrue(w: World, cap: Cap, argv: seq<string>)
    ensures var x := ExecBare(w, cap, argv);
            |x.events| == 2 && x.events[1].Terminal? && x.events[1].injected != {} ==>
            x.child.Some? && x.events[1].injected <= x.child.value.Keys
  {
    var start := Before(map[], "", {});
    BareShape(cap);
    BareRun(w, argv, cap);
    ChildIs(w, cap.id, argv, start, BareEarly(cap));
    ClaimIs(w, cap.id, argv, start, BareEarly(cap));
    if w.resolve(cap).Some? { BareHas(w, w.resolve(cap).value); }
  }

  lemma BareHas(w: World, ps: Pairs)
    ensures BarePlan(w, ps).Values <= Inject(w.environ, BarePlan(w, ps), ps).Keys
  {
    var plan := BarePlan(w, ps);
    forall v | v in plan.Values ensures v in Inject(w.environ, plan, ps) {
      var f :| f in plan && plan[f] == v;
      var i :| 0 <= i < |ps| && ps[i].0 == f;
      InjectHas(w.environ, plan, ps, i);
    }
  }

  /**
   On any path: a child that exited 0 goes down as failed exactly when an
   exception arrived before its exit was noted; it goes down as applied while the
   path raises exactly when one arrived after that, or the record's write raised
   with its line written; and it goes down not at all exactly when the record was
   never reached or not written.
   */
  lemma ExitedButFailed(w: World, target: string, argv: seq<string>, last: nat, x: Exec)
    requires Honest(w, target, argv, last, x) && x.child.Some? && w.run(argv, x.child.value) == Exited(0)
    ensures |x.events| == 1 <==> w.cleanup || !Lands(w, 1)
    ensures |x.events| == 2 <==> Reports(w)
    ensures |x.events| == 2 ==>
              x.events[1].Terminal? && (x.events[1].applied <==> !w.interrupts(last)) &&
              (x.events[1].applied && x.result.Raised? <==> !w.interrupts(last) && (w.interrupts(last + 1) || !w.emits(1) || w.late))
  {
    if x.result.Ok? { assert Noted(w, argv, last, x, x.result.value); }
    assert Noted(w, argv, last, x, 0) <==> !w.interrupts(last);
  }

  /** On the browser path each of these is met: its child runs unless an exception arrives before it. */
  lemma E2eChild(w: World, cap: Cap, argv: seq<string>)
    requires argv != [] && w.browser(cap).Some?
    ensures var x := ExecE2e(w, cap, argv);
            && (x.child.Some? <==> Begins(w) && !w.interrupts(0))
            && (x.child.Some? ==> x.child.value == w.environ + w.browser(cap).value)
  {
    var start := Before(w.environ + w.browser(cap).value, "", {});
    assert [] + [RunChild, Record] == END;
    EndIs(w, argv, start, 0);
  }

  // ---------------------------------------------------------------- who may run what

  ghost predicate Composable(w: World, caps: seq<Cap>, argv: seq<string>, seen: set<string>) {
    (forall i :: 0 <= i < |caps| ==> caps[i].provider == "cred" && SourceKind(caps[i]).Ok? && SourceKind(caps[i]).value != FromSuite &&
                                     w.trusted(caps[i]) == Some(argv) && caps[i].id !in seen) &&
    forall i, j :: 0 <= i < j < |caps| ==> caps[i].id != caps[j].id
  }

  lemma {:induction false} ObjectionIff(w: World, caps: seq<Cap>, argv: seq<string>, seen: set<string>)
    ensures Objection(w, caps, argv, seen) == None <==> Composable(w, caps, argv, seen)
    decreases |caps|
  {
    if caps != [] {
      var rest := caps[1..];
      ObjectionIff(w, rest, argv, seen + {caps[0].id});
      assert forall i :: 0 < i < |caps| ==> caps[i] == rest[i - 1];
      if Composable(w, rest, argv, seen + {caps[0].id}) {
        forall j | 0 < j < |caps| ensures caps[j].id != caps[0].id && caps[j].id !in seen { assert rest[j - 1].id !in seen + {caps[0].id}; }
      }
      if Composable(w, caps, argv, seen) {
        forall i | 0 <= i < |rest| ensures rest[i].id !in seen + {caps[0].id} { assert caps[i + 1] == rest[i]; }
      }
    }
  }

  /** Nothing is resolved and no child runs unless the command is the qualified one of every capability. */
  lemma OnlyQualified(w: World, caps: seq<Cap>, argv: seq<string>)
    ensures var x := ExecComposed(w, caps, argv);
            x.resolved != [] || x.child.Some? || x.events != [] ==> argv != [] && Composable(w, caps, argv, {})
    ensures forall cap :: var x := ExecCred(w, cap, argv);
            x.resolved != [] || x.child.Some? || x.events != [] ==> w.trusted(cap) == Some(argv)
  {
    ObjectionIff(w, caps, argv, {});
  }

  lemma SuiteSees(w: World, cap: Cap, argv: seq<string>, plan: Plan)
    requires Injective(plan) && Resolvers(w)
    ensures var x := SuitePlanned(w, cap, argv, plan);
            x.child.Some? ==> forall k :: k in x.child.value ==>
              k == RECEIPT || k in plan.Values ||
              (k in w.environ && w.upper(k) in SUITE_ALLOWED && w.upper(k) !in Folded(w, plan.Values) && x.child.value[k] == w.environ[k])
  {
    var receipt := Receipt(w, [CheckoutJson(cap.id, plan)]);
    SuiteShape(cap, plan);
    SuiteRun(w, argv, cap, plan, receipt);
    ChildIs(w, cap.id, argv, Before(map[], receipt, plan.Values), SuiteEarly(cap, plan));
    if w.resolve(cap).Some? && Named(w.resolve(cap).value) <= plan.Keys {
      InjectFacts(SuiteEnv(w, plan, w.resolve(cap).value), plan, w.resolve(cap).value);
    }
  }

  /** The plan a suite run works from, once it passes. */
  ghost function SuitePlan(w: World, cap: Cap): Option<Plan> {
    match w.suite(cap)
    case None => None
    case Some(spec) =>
      match InjectionPlan(w, cap, spec.0, spec.1, {}, Folded(w, w.environ.Keys))
      case Raised(_) => None
      case Ok(planned) => Some(planned.0)
  }

  /**
   A suite's child inherits nothing but the allowed names, and none of those
   that clash with what it is given; what it is given goes by different names.
   */
  lemma SuiteChild(w: World, cap: Cap, argv: seq<string>)
    requires Upper(w.upper) && Resolvers(w)
    ensures var x := ExecSuite(w, cap, argv);
            x.child.Some? ==>
              var plan := SuitePlan(w, cap);
              plan.Some? && Injective(plan.value) && RECEIPT !in plan.value.Values &&
              forall k :: k in x.child.value ==>
                k == RECEIPT || k in plan.value.Values ||
                (k in w.environ && w.upper(k) in SUITE_ALLOWED && w.upper(k) !in Folded(w, plan.value.Values) &&
                 x.child.value[k] == w.environ[k])
  {
    match w.suite(cap)
    case None =>
    case Some(spec) =>
      var inherited := Folded(w, w.environ.Keys);
      var prefix := Get(cap.options, "env_prefix");
      PlanIff(w, spec.0, spec.1, prefix, {}, inherited);
      var planned := InjectionPlan(w, cap, spec.0, spec.1, {}, inherited);
      if planned.Ok? {
        PlanInjective(w, spec.0, spec.1, prefix, {}, inherited, planned.value);
        SuiteSees(w, cap, argv, planned.value.0);
      }
  }
}
