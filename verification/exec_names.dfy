/** What a checkout's child is given, read off the capabilities' own options. */
module ExecNames {
  import opened Base
  import opened JsonTree
  import opened ExecSpec
  import opened ExecTheorems
  import B = ExecBody

  // ---------------------------------------------------------------- what the options say

  ghost predicate Renames(names: Json, field: string, name: string) {
    names.Object? && field in names.fields && names.fields[field] == Text(name) && name != ""
  }

  /** A mapped name comes first, then the prefixed one, then the field's own in upper case. */
  ghost predicate IsName(w: World, options: Doc, names: Json, field: string, name: string) {
    || Renames(names, field, name)
    || ((forall other :: !Renames(names, field, other)) &&
        if "env_prefix" in options && options["env_prefix"].Text? && options["env_prefix"].s != ""
        then name == options["env_prefix"].s + "_" + w.upper(field)
        else name == w.upper(field))
  }

  lemma NameIs(w: World, options: Doc, names: Json, field: string, name: string)
    ensures IsName(w, options, names, field, name) <==> name == InjectVar(w, field, names, Get(options, "env_prefix"))
  {
    if names.Object? && NonEmptyText(Get(names.fields, field)) {
      assert Renames(names, field, names.fields[field].s);
    }
  }

  /** The mapping a capability declares itself. */
  ghost predicate Own(options: Doc, names: Json) {
    if "inject" in options then names == options["inject"] else names == Null
  }

  ghost predicate Selects(w: World, options: Doc, field: string) {
    if "source" in options && options["source"] == Text("env") then
      field == if "field" in options then Str(w.codec, options["field"]) else "password"
    else if "fields" in options then
      options["fields"].List? &&
      exists i :: 0 <= i < |options["fields"].items| && field == Str(w.codec, options["fields"].items[i])
    else "field" in options && options["field"] == Text(field)
  }

  lemma FieldsAre(w: World, cap: Cap, field: string)
    requires DeclaredFields(w, cap).Ok?
    ensures field in DeclaredFields(w, cap).value <==> Selects(w, cap.options, field)
  {
    if "fields" in cap.options && cap.options["fields"].List? {
      var items := cap.options["fields"].items;
      assert forall i :: 0 <= i < |items| ==> Shown(w, items)[i] == Str(w.codec, items[i]);
    }
  }

  /** The naming options are of the right kind and the fields are listed. */
  ghost predicate WellFormed(options: Doc) {
    && ("inject" in options ==> options["inject"].Null? || options["inject"].Object?)
    && ("env_prefix" in options ==> options["env_prefix"].Null? || options["env_prefix"].Text?)
    && ("source" in options ==> options["source"] in {Text("vault"), Text("env"), Text("suite")})
    && (("source" in options && options["source"] == Text("env")) ||
        (if "fields" in options then options["fields"].List? else "field" in options && options["field"].Text?))
  }

  lemma FormIs(w: World, cap: Cap)
    ensures WellFormed(cap.options) <==> NamingOk(cap) && DeclaredFields(w, cap).Ok?
  {
  }

  // ---------------------------------------------------------------- which names are valid, letter by letter

  predicate Capital(c: char) { 'A' <= c <= 'Z' }

  predicate Small(c: char) { 'a' <= c <= 'z' }

  predicate Digit(c: char) { '0' <= c <= '9' }

  /** A variable's name starts with a capital, and may go on with capitals, digits and underscores up to 64. */
  lemma NameGrows(s: string, c: char)
    ensures !EnvName("")
    ensures EnvName([c]) <==> Capital(c)
    ensures s != "" ==> (EnvName(s + [c]) <==> EnvName(s) && |s| < 64 && (Capital(c) || Digit(c) || c == '_'))
  {
    var more := s + [c];
    assert forall i :: 0 <= i < |s| ==> more[i] == s[i];
    if s != "" && EnvName(more) { assert more[|s|] == c; }
  }

  /** An id that fits a receipt is `cred:` and a small letter, and may go on with small letters, digits and hyphens up to 68. */
  lemma IdGrows(s: string, c: char)
    ensures |s| < 6 ==> !ReceiptId(s)
    ensures ReceiptId("cred:" + [c]) <==> Small(c)
    ensures ReceiptId(s) ==> s[..5] == "cred:"
    ensures |s| >= 6 ==> (ReceiptId(s + [c]) <==> ReceiptId(s) && |s| < 68 && (Small(c) || Digit(c) || c == '-'))
  {
    var more := s + [c];
    assert ("cred:" + [c])[..5] == "cred:";
    assert forall i :: 0 <= i < |s| ==> more[i] == s[i];
    if |s| >= 6 {
      assert more[..5] == s[..5];
      if ReceiptId(more) { assert more[|s|] == c; }
    }
  }

  // ---------------------------------------------------------------- which checkouts are planned

  /** All the names of a checkout, in the order they are handed out. */
  function AllNames(w: World, caps: seq<Cap>): (ns: seq<string>)
    decreases |caps|
  {
    if caps == [] then []
    else
      var fields := DeclaredFields(w, caps[0]);
      (if fields.Ok? then Names(w, fields.value, Get(caps[0].options, "inject"), Get(caps[0].options, "env_prefix")) else [])
      + AllNames(w, caps[1..])
  }

  lemma PlannableSplit(a: seq<string>, b: seq<string>, used: set<string>, mid: set<string>, inherited: set<string>)
    requires forall n :: n in mid <==> n in used || n in a
    ensures Plannable(a + b, used, inherited) <==> Plannable(a, used, inherited) && Plannable(b, mid, inherited)
  {
    var ab := a + b;
    if Plannable(ab, used, inherited) {
      forall i | 0 <= i < |a| ensures Free(a[i], used, inherited) { assert ab[i] == a[i]; }
      forall i, j | 0 <= i < j < |a| ensures a[i] != a[j] { assert ab[i] != ab[j]; }
      forall i | 0 <= i < |b| ensures Free(b[i], mid, inherited) {
        assert Free(ab[|a| + i], used, inherited);
        assert forall k :: 0 <= k < |a| ==> ab[k] == a[k] && ab[k] != ab[|a| + i];
      }
      forall i, j | 0 <= i < j < |b| ensures b[i] != b[j] { assert ab[|a| + i] != ab[|a| + j]; }
    }
    if Plannable(a, used, inherited) && Plannable(b, mid, inherited) {
      forall i | 0 <= i < |ab| ensures Free(ab[i], used, inherited) {
        if i < |a| { assert ab[i] == a[i]; } else { assert ab[i] == b[i - |a|]; }
      }
      forall i, j | 0 <= i < j < |ab| ensures ab[i] != ab[j] {
        if j < |a| { assert ab[i] == a[i] && ab[j] == a[j]; }
        else {
          assert ab[j] == b[j - |a|] && Free(b[j - |a|], mid, inherited);
          if i < |a| { assert ab[i] == a[i]; } else { assert ab[i] == b[i - |a|]; }
        }
      }
    }
  }

  /**
   A checkout is planned exactly when no receipt is inherited, every capability
   is well formed and fit to be named in a receipt, and the names of all of them
   together are valid, unreserved, not inherited and pairwise different.
   */
  lemma {:induction false} PlannedIff(w: World, caps: seq<Cap>, used: set<string>, inherited: set<string>)
    requires Upper(w.upper)
    ensures PlanAll(w, caps, used, inherited).Ok? <==>
            (caps != [] ==> RECEIPT !in inherited) &&
            (forall i :: 0 <= i < |caps| ==> WellFormed(caps[i].options) && ReceiptId(caps[i].id)) &&
            Plannable(AllNames(w, caps), used, inherited)
    decreases |caps|
  {
    if caps != [] {
      var cap, rest := caps[0], caps[1..];
      FormIs(w, cap);
      assert forall i :: 0 < i < |caps| ==> caps[i] == rest[i - 1];
      assert forall i :: 0 <= i < |rest| ==> rest[i] == caps[i + 1];
      var fields := DeclaredFields(w, cap);
      if NamingOk(cap) && ReceiptId(cap.id) && fields.Ok? && RECEIPT !in inherited {
        var mapping, prefix := Get(cap.options, "inject"), Get(cap.options, "env_prefix");
        var names := Names(w, fields.value, mapping, prefix);
        PlanIff(w, fields.value, mapping, prefix, used, inherited);
        var first := CapPlan(w, cap, used, inherited);
        assert AllNames(w, caps) == names + AllNames(w, rest);
        if first.Ok? {
          forall n ensures n in first.value.1 <==> n in used || n in names {
            ValuesOf(w, fields.value, mapping, prefix, used, first.value, n);
          }
          PlannedIff(w, rest, first.value.1, inherited);
          PlannableSplit(names, AllNames(w, rest), used, first.value.1, inherited);
        } else {
          PlannableSplit(names, AllNames(w, rest), used, used + (set n | n in names), inherited);
        }
      }
    }
  }

  /** What is wrong with a name, when something is: the first of these tests to fail. */
  ghost predicate Wrong(e: Error, name: string, taken: set<string>, before: seq<string>, inherited: set<string>) {
    if !EnvName(name) then e == BadName
    else if name in RESERVED then e == Reserved
    else if name in taken || name in before then e == Duplicate
    else name in inherited && e == Inherited
  }

  /** A refused plan fails at the first name that cannot be handed out, for what is wrong with it. */
  lemma {:induction false} RefusedAt(w: World, fields: seq<string>, mapping: Json, prefix: Json, used: set<string>, inherited: set<string>)
    returns (i: nat)
    requires Upper(w.upper) && PlanFields(w, fields, mapping, prefix, used, inherited).Raised?
    ensures i < |fields| && Plannable(Names(w, fields[..i], mapping, prefix), used, inherited)
    ensures Wrong(PlanFields(w, fields, mapping, prefix, used, inherited).error, InjectVar(w, fields[i], mapping, prefix),
                  used, Names(w, fields[..i], mapping, prefix), inherited)
    decreases |fields|
  {
    var n := |fields| - 1;
    var front := PlanFields(w, fields[..n], mapping, prefix, used, inherited);
    PlanIff(w, fields[..n], mapping, prefix, used, inherited);
    if front.Raised? {
      i := RefusedAt(w, fields[..n], mapping, prefix, used, inherited);
      assert fields[..n][..i] == fields[..i];
    } else {
      i := n;
      ValuesOf(w, fields[..n], mapping, prefix, used, front.value, InjectVar(w, fields[n], mapping, prefix));
    }
  }

  // ---------------------------------------------------------------- the strict child

  /** A plan names each field the capability selects, and no other, as its options say. */
  ghost predicate Follows(w: World, cap: Cap, plan: Plan) {
    (forall f :: f in plan <==> Selects(w, cap.options, f)) &&
    forall f, names :: f in plan && Own(cap.options, names) ==> IsName(w, cap.options, names, f, plan[f])
  }

  lemma CapFollows(w: World, cap: Cap, used: set<string>, inherited: set<string>)
    requires Upper(w.upper) && CapPlan(w, cap, used, inherited).Ok?
    ensures Follows(w, cap, CapPlan(w, cap, used, inherited).value.0)
  {
    var plan := CapPlan(w, cap, used, inherited).value.0;
    var fields := DeclaredFields(w, cap).value;
    var mapping, prefix := Get(cap.options, "inject"), Get(cap.options, "env_prefix");
    PlanIff(w, fields, mapping, prefix, used, inherited);
    forall f ensures f in plan <==> Selects(w, cap.options, f) { FieldsAre(w, cap, f); }
    forall f | f in plan ensures IsName(w, cap.options, mapping, f, plan[f]) { NameIs(w, cap.options, mapping, f, plan[f]); }
  }

  lemma {:induction false} AllFollow(w: World, caps: seq<Cap>, used: set<string>, inherited: set<string>, i: nat)
    requires Upper(w.upper) && PlanAll(w, caps, used, inherited).Ok? && i < |caps|
    ensures Follows(w, caps[i], PlanAll(w, caps, used, inherited).value[i])
    decreases i
  {
    var first := CapPlan(w, caps[0], used, inherited).value;
    if i == 0 {
      CapFollows(w, caps[0], used, inherited);
    } else {
      AllFollow(w, caps[1..], first.1, inherited, i - 1);
    }
  }

  /** `name` is what the capability calls its field. */
  ghost predicate Calls(w: World, cap: Cap, field: string, name: string) {
    Selects(w, cap.options, field) && exists names :: Own(cap.options, names) && IsName(w, cap.options, names, field, name)
  }

  /** Just the selected fields are resolved, and each value is found under the name of its field. */
  ghost predicate Given(w: World, cap: Cap, env: Env) {
    && w.resolve(cap).Some?
    && (forall f :: f in Named(w.resolve(cap).value) <==> Selects(w, cap.options, f))
    && forall k :: 0 <= k < |w.resolve(cap).value| ==> Found(w, cap, w.resolve(cap).value[k], env)
  }

  ghost predicate Found(w: World, cap: Cap, pair: (string, string), env: Env) {
    exists name :: Calls(w, cap, pair.0, name) && name in env && env[name] == pair.1
  }

  /** Everything else in the environment was there before, or is the receipt. */
  ghost predicate NoMore(w: World, caps: seq<Cap>, env: Env) {
    (forall k :: k in w.environ ==> k in env && env[k] == w.environ[k]) &&
    forall k :: k in env && k !in w.environ && k != RECEIPT ==> exists i, f :: 0 <= i < |caps| && Calls(w, caps[i], f, k)
  }

  lemma GivenIs(w: World, cap: Cap, plan: Plan, env: Env)
    requires Follows(w, cap, plan) && Delivered(w, cap, plan, env)
    ensures Given(w, cap, env)
  {
    var ps := w.resolve(cap).value;
    forall k | 0 <= k < |ps| ensures Found(w, cap, ps[k], env) { CallsIt(w, cap, plan, ps[k].0); }
  }

  lemma CallsIt(w: World, cap: Cap, plan: Plan, f: string)
    requires Follows(w, cap, plan) && f in plan
    ensures Calls(w, cap, f, plan[f])
  {
    assert Own(cap.options, Get(cap.options, "inject"));
  }

  lemma {:induction false} VarFrom(plans: seq<Plan>, v: string) returns (i: nat, f: string)
    requires v in Vars(plans)
    ensures i < |plans| && f in plans[i] && plans[i][f] == v
    decreases |plans|
  {
    if v in plans[0].Values {
      i := 0;
      f :| f in plans[0] && plans[0][f] == v;
    } else {
      i, f := VarFrom(plans[1..], v);
      i := i + 1;
    }
  }

  lemma SeesGiven(w: World, caps: seq<Cap>, plans: seq<Plan>, env: Env)
    requires |caps| == |plans| && ChildSees(w, caps, plans, env)
    requires forall i :: 0 <= i < |caps| ==> Follows(w, caps[i], plans[i])
    ensures (forall i :: 0 <= i < |caps| ==> Given(w, caps[i], env)) && NoMore(w, caps, env)
  {
    forall i | 0 <= i < |caps| ensures Given(w, caps[i], env) { GivenIs(w, caps[i], plans[i], env); }
    forall k | k in env && k !in w.environ && k != RECEIPT ensures exists i, f :: 0 <= i < |caps| && Calls(w, caps[i], f, k) {
      var i, f := VarFrom(plans, k);
      CallsIt(w, caps[i], plans[i], f);
    }
  }

  /** The child of a strict checkout is given just what the capabilities' options say, under the names they say. */
  lemma StrictGiven(w: World, caps: seq<Cap>, argv: seq<string>)
    requires Upper(w.upper) && Resolvers(w) && caps != []
    ensures var x := ExecStrict(w, caps, argv);
            x.child.Some? ==> (forall i :: 0 <= i < |caps| ==> Given(w, caps[i], x.child.value)) && NoMore(w, caps, x.child.value)
  {
    StrictChild(w, caps, argv);
    var child := ExecStrict(w, caps, argv).child;
    if child.Some? {
      var plans := PlanAll(w, caps, {}, Folded(w, w.environ.Keys)).value;
      forall i | 0 <= i < |caps| ensures Follows(w, caps[i], plans[i]) {
        AllFollow(w, caps, {}, Folded(w, w.environ.Keys), i);
      }
      SeesGiven(w, caps, plans, child.value);
    }
  }

  // ---------------------------------------------------------------- the receipt

  /** A receipt's row tells which capability it is about and what each of its fields is called. */
  ghost predicate Tells(row: Json, id: string, plan: Plan) {
    && row.Object? && row.fields.Keys == {"capability_id", "fields"}
    && row.fields["capability_id"] == Text(id)
    && row.fields["fields"].Object? && row.fields["fields"].fields.Keys == plan.Keys
    && forall f :: f in plan ==> row.fields["fields"].fields[f] == Text(plan[f])
  }

  /** The envelope: which invocation, from when until when, and one row for each capability. */
  ghost predicate Envelope(w: World, tree: Json, n: nat) {
    && tree.Object? && tree.fields.Keys == {"schema", "invocation_id", "issued_at", "expires_at", "checkouts"}
    && tree.fields["schema"] == Text(RECEIPT_SCHEMA) && tree.fields["invocation_id"] == Text(w.invocation)
    && tree.fields["issued_at"] == Text(w.issued) && tree.fields["expires_at"] == Text(w.expires)
    && tree.fields["checkouts"].List? && |tree.fields["checkouts"].items| == n
  }

  lemma RowTells(id: string, plan: Plan)
    ensures Tells(CheckoutJson(id, plan), id, plan)
  {
    var fields := FieldsJson(plan).fields;
    assert fields.Keys == plan.Keys;
  }

  lemma EnvelopeIs(w: World, rows: seq<Json>)
    ensures Envelope(w, ReceiptTree(w, rows), |rows|) && ReceiptTree(w, rows).fields["checkouts"].items == rows
  {
  }

  /** The receipt a strict child reads names each capability in order, and each of its fields by the name it is found under. */
  lemma StrictReceipt(w: World, caps: seq<Cap>, argv: seq<string>)
    requires Upper(w.upper) && Resolvers(w) && caps != [] && Faithful(w.codec)
    ensures var x := ExecStrict(w, caps, argv);
            x.child.Some? ==>
              RECEIPT in x.child.value &&
              var tree := w.codec.loads(x.child.value[RECEIPT]);
              tree.Some? && Envelope(w, tree.value, |caps|) &&
              forall i :: 0 <= i < |caps| ==> RowOf(w, caps[i], tree.value.fields["checkouts"].items[i])
  {
    StrictChild(w, caps, argv);
    var child := ExecStrict(w, caps, argv).child;
    if child.Some? {
      var plans := PlanAll(w, caps, {}, Folded(w, w.environ.Keys)).value;
      var rows := CheckoutRows(Ids(caps), plans);
      EnvelopeIs(w, rows);
      forall i | 0 <= i < |caps| ensures RowOf(w, caps[i], rows[i]) {
        AllFollow(w, caps, {}, Folded(w, w.environ.Keys), i);
        RowTells(caps[i].id, plans[i]);
      }
    }
  }

  /** The row of a capability, by its options. */
  ghost predicate RowOf(w: World, cap: Cap, row: Json) {
    exists plan :: Tells(row, cap.id, plan) && Follows(w, cap, plan)
  }

  /** A checkout's records name all its capabilities, in order, with a plus sign between each and the next. */
  lemma {:induction false} TargetGrows(ids: seq<string>, id: string)
    ensures Join([]) == "" && Join([id]) == id
    ensures ids != [] ==> Join(ids + [id]) == Join(ids) + "+" + id
    decreases |ids|
  {
    if ids != [] {
      var all := ids + [id];
      assert all[1..] == ids[1..] + [id];
      TargetGrows(ids[1..], id);
      if |ids| == 1 { assert ids[1..] + [id] == [id]; }
    }
  }

  // ---------------------------------------------------------------- the suite child

  /** What a suite calls its field: its own mapping stands in for the capability's. */
  ghost predicate SuiteCalls(w: World, cap: Cap, field: string, name: string) {
    w.suite(cap).Some? && field in w.suite(cap).value.0 && IsName(w, cap.options, w.suite(cap).value.1, field, name)
  }

  /** An inherited variable clashes with a suite when it folds to one of its names, or to a field it resolved. */
  ghost predicate Clashes(w: World, cap: Cap, k: string) {
    w.resolve(cap).Some? &&
    (|| (exists f, name :: SuiteCalls(w, cap, f, name) && w.upper(name) == w.upper(k))
     || (exists i :: 0 <= i < |w.resolve(cap).value| && w.upper(w.resolve(cap).value[i].0) == w.upper(k)))
  }

  ghost predicate SuiteFound(w: World, cap: Cap, pair: (string, string), env: Env) {
    exists name :: SuiteCalls(w, cap, pair.0, name) && name in env && env[name] == pair.1
  }

  ghost predicate SuiteGiven(w: World, cap: Cap, env: Env) {
    && w.resolve(cap).Some?
    && (forall i :: 0 <= i < |w.resolve(cap).value| ==> SuiteFound(w, cap, w.resolve(cap).value[i], env))
    && (forall k :: k in w.environ && w.upper(k) in SUITE_ALLOWED && !Clashes(w, cap, k) ==> k in env && env[k] == w.environ[k])
    && (forall k :: k in env && k != RECEIPT ==>
          || (exists i :: 0 <= i < |w.resolve(cap).value| && SuiteCalls(w, cap, w.resolve(cap).value[i].0, k))
          || (k in w.environ && w.upper(k) in SUITE_ALLOWED && !Clashes(w, cap, k)))
  }

  /** A suite's plan names its fields by its own mapping. */
  ghost predicate SuiteFollows(w: World, cap: Cap, plan: Plan) {
    && w.suite(cap).Some? && Injective(plan) && RECEIPT !in plan.Values
    && (forall f :: f in plan <==> f in w.suite(cap).value.0)
    && forall f :: f in plan ==> IsName(w, cap.options, w.suite(cap).value.1, f, plan[f])
  }

  lemma SuitePlans(w: World, cap: Cap)
    requires Upper(w.upper) && SuitePlan(w, cap).Some?
    ensures SuiteFollows(w, cap, SuitePlan(w, cap).value)
  {
    var spec := w.suite(cap).value;
    var inherited := Folded(w, w.environ.Keys);
    var prefix := Get(cap.options, "env_prefix");
    var plan := SuitePlan(w, cap).value;
    PlanIff(w, spec.0, spec.1, prefix, {}, inherited);
    PlanInjective(w, spec.0, spec.1, prefix, {}, inherited, PlanFields(w, spec.0, spec.1, prefix, {}, inherited).value);
    forall f | f in plan ensures IsName(w, cap.options, spec.1, f, plan[f]) { NameIs(w, cap.options, spec.1, f, plan[f]); }
  }

  lemma ClashesIff(w: World, cap: Cap, plan: Plan, k: string)
    requires SuiteFollows(w, cap, plan) && w.resolve(cap).Some?
    ensures Clashes(w, cap, k) <==> w.upper(k) in Folded(w, plan.Values) + Folded(w, Named(w.resolve(cap).value))
  {
    var ps := w.resolve(cap).value;
    var spec := w.suite(cap).value;
    if w.upper(k) in Folded(w, plan.Values) {
      var f :| f in plan && w.upper(plan[f]) == w.upper(k);
      assert SuiteCalls(w, cap, f, plan[f]);
    }
    if w.upper(k) in Folded(w, Named(ps)) {
      var i :| 0 <= i < |ps| && w.upper(ps[i].0) == w.upper(k);
    }
    if f, name :| SuiteCalls(w, cap, f, name) && w.upper(name) == w.upper(k) {
      NameIs(w, cap.options, spec.1, f, name);
      NameIs(w, cap.options, spec.1, f, plan[f]);
      assert name in plan.Values;
    }
    if i :| 0 <= i < |ps| && w.upper(ps[i].0) == w.upper(k) {
      assert ps[i].0 in Named(ps);
    }
  }

  lemma SuiteKept(w: World, cap: Cap, plan: Plan, k: string)
    requires SuiteFollows(w, cap, plan) && w.resolve(cap).Some?
    ensures k in SuiteEnv(w, plan, w.resolve(cap).value) <==> k in w.environ && w.upper(k) in SUITE_ALLOWED && !Clashes(w, cap, k)
    ensures k in SuiteEnv(w, plan, w.resolve(cap).value) ==>
              k !in plan.Values && SuiteEnv(w, plan, w.resolve(cap).value)[k] == w.environ[k]
  {
    ClashesIff(w, cap, plan, k);
    if k in plan.Values { assert w.upper(k) in Folded(w, plan.Values); }
  }

  lemma SuiteEnvGiven(w: World, cap: Cap, plan: Plan, kept: Env, ps: Pairs, env: Env)
    requires SuiteFollows(w, cap, plan) && w.resolve(cap) == Some(ps) && Named(ps) <= plan.Keys && Distinct(ps)
    requires forall k :: k in kept <==> k in w.environ && w.upper(k) in SUITE_ALLOWED && !Clashes(w, cap, k)
    requires forall k :: k in kept ==> k !in plan.Values && kept[k] == w.environ[k]
    requires env.Keys == Inject(kept, plan, ps).Keys + {RECEIPT} && RECEIPT !in kept
    requires forall k :: k in Inject(kept, plan, ps) && k != RECEIPT ==> env[k] == Inject(kept, plan, ps)[k]
    ensures SuiteGiven(w, cap, env)
  {
    InjectFacts(kept, plan, ps);
    forall i | 0 <= i < |ps| ensures SuiteFound(w, cap, ps[i], env) {
      assert plan[ps[i].0] in plan.Values;
      SuiteFoundAt(w, cap, plan, ps[i], env);
    }
    forall k | k in env && k != RECEIPT && k !in kept ensures exists i :: 0 <= i < |ps| && SuiteCalls(w, cap, ps[i].0, k) {
      assert k in Inject(kept, plan, ps);
      var i :| 0 <= i < |ps| && ps[i].0 in plan && plan[ps[i].0] == k;
      assert SuiteCalls(w, cap, ps[i].0, k);
    }
  }

  lemma SuiteFoundAt(w: World, cap: Cap, plan: Plan, pair: (string, string), env: Env)
    requires SuiteFollows(w, cap, plan) && pair.0 in plan && plan[pair.0] in env && env[plan[pair.0]] == pair.1
    ensures SuiteFound(w, cap, pair, env)
  {
    assert SuiteCalls(w, cap, pair.0, plan[pair.0]);
  }

  /** The child of a suite is given its fields under its names, the allowed part of what is inherited, and nothing else. */
  lemma SuiteGives(w: World, cap: Cap, argv: seq<string>)
    requires Upper(w.upper) && Resolvers(w)
    ensures var x := ExecSuite(w, cap, argv); x.child.Some? ==> SuiteGiven(w, cap, x.child.value)
  {
    var x := ExecSuite(w, cap, argv);
    if x.child.Some? {
      SuitePlans(w, cap);
      var plan := SuitePlan(w, cap).value;
      var receipt := Receipt(w, [CheckoutJson(cap.id, plan)]);
      B.SuiteShape(cap, plan);
      B.SuiteRun(w, argv, cap, plan, receipt);
      B.ChildIs(w, cap.id, argv, Before(map[], receipt, plan.Values), B.SuiteEarly(cap, plan));
      NoneInherited(w, cap);
      var ps := w.resolve(cap).value;
      forall k { SuiteKept(w, cap, plan, k); }
      SuiteEnvGiven(w, cap, plan, SuiteEnv(w, plan, ps), ps, x.child.value);
    }
  }

  lemma NoneInherited(w: World, cap: Cap)
    requires Upper(w.upper) && SuitePlan(w, cap).Some?
    ensures RECEIPT !in w.environ
  {
    ReceiptNew(w);
  }

  /** The one row of a suite's receipt names its fields as the suite does. */
  lemma SuiteReceipt(w: World, cap: Cap, argv: seq<string>)
    requires Upper(w.upper) && Faithful(w.codec)
    ensures var x := ExecSuite(w, cap, argv);
            x.child.Some? ==>
              RECEIPT in x.child.value &&
              var tree := w.codec.loads(x.child.value[RECEIPT]);
              tree.Some? && Envelope(w, tree.value, 1) &&
              exists plan :: SuiteFollows(w, cap, plan) && Tells(tree.value.fields["checkouts"].items[0], cap.id, plan)
  {
    var x := ExecSuite(w, cap, argv);
    if x.child.Some? {
      SuitePlans(w, cap);
      var plan := SuitePlan(w, cap).value;
      var receipt := Receipt(w, [CheckoutJson(cap.id, plan)]);
      B.SuiteShape(cap, plan);
      B.SuiteRun(w, argv, cap, plan, receipt);
      B.ChildIs(w, cap.id, argv, Before(map[], receipt, plan.Values), B.SuiteEarly(cap, plan));
      EnvelopeIs(w, [CheckoutJson(cap.id, plan)]);
      RowTells(cap.id, plan);
    }
  }

  // ---------------------------------------------------------------- the bare child

  /** A field in upper case; where two fold to one name the later one is found, and no other variable is touched. */
  ghost predicate BareGiven(w: World, cap: Cap, env: Env) {
    && w.resolve(cap).Some?
    && (forall i :: 0 <= i < |w.resolve(cap).value| && Last(w, w.resolve(cap).value, i) ==>
          var (f, v) := w.resolve(cap).value[i];
          w.upper(f) in env && (w.upper(f) == RECEIPT || env[w.upper(f)] == v))
    && (forall k :: k in w.environ && k != RECEIPT && !Folds(w, w.resolve(cap).value, k) ==> k in env && env[k] == w.environ[k])
    && (forall k :: k in env && k != RECEIPT ==> k in w.environ || Folds(w, w.resolve(cap).value, k))
  }

  /** No later field folds to the name of this one. */
  ghost predicate Last(w: World, ps: Pairs, i: nat)
    requires i < |ps|
  {
    forall j :: i < j < |ps| ==> w.upper(ps[j].0) != w.upper(ps[i].0)
  }

  ghost predicate Folds(w: World, ps: Pairs, k: string) {
    exists i :: 0 <= i < |ps| && w.upper(ps[i].0) == k
  }

  /** What injecting fields in upper case leaves under the name `k`. */
  ghost predicate Injected(w: World, env: Env, ps: Pairs, out: Env, k: string) {
    && (k in out <==> k in env || Folds(w, ps, k))
    && (k in env && !Folds(w, ps, k) ==> out[k] == env[k])
    && forall i :: 0 <= i < |ps| && w.upper(ps[i].0) == k && Last(w, ps, i) ==> out[k] == ps[i].1
  }

  lemma FoldsMore(w: World, ps: Pairs, k: string)
    requires ps != []
    ensures Folds(w, ps, k) <==> Folds(w, ps[..|ps| - 1], k) || w.upper(ps[|ps| - 1].0) == k
  {
    var n := |ps| - 1;
    var front := ps[..n];
    assert forall i :: 0 <= i < n ==> front[i] == ps[i];
    if i :| 0 <= i < |front| && w.upper(front[i].0) == k { assert w.upper(ps[i].0) == k; }
    if i :| 0 <= i < |ps| && w.upper(ps[i].0) == k { if i < n { assert w.upper(front[i].0) == k; } }
  }

  lemma LastMore(w: World, ps: Pairs, i: nat)
    requires i < |ps| - 1 && Last(w, ps, i)
    ensures Last(w, ps[..|ps| - 1], i) && w.upper(ps[|ps| - 1].0) != w.upper(ps[i].0)
  {
  }

  lemma InjectedMore(w: World, env: Env, ps: Pairs, out: Env, k: string)
    requires ps != [] && Injected(w, env, ps[..|ps| - 1], out, k)
    ensures var p := ps[|ps| - 1]; Injected(w, env, ps, out[w.upper(p.0) := p.1], k)
  {
    var n := |ps| - 1;
    var more := out[w.upper(ps[n].0) := ps[n].1];
    FoldsMore(w, ps, k);
    forall i | 0 <= i < |ps| && w.upper(ps[i].0) == k && Last(w, ps, i) ensures more[k] == ps[i].1 {
      if i < n {
        LastMore(w, ps, i);
        assert ps[..n][i] == ps[i];
      }
    }
  }

  lemma {:induction false} BareInject(w: World, env: Env, plan: Plan, ps: Pairs, k: string)
    requires Named(ps) <= plan.Keys && forall f :: f in plan ==> plan[f] == w.upper(f)
    ensures Injected(w, env, ps, Inject(env, plan, ps), k)
    decreases |ps|
  {
    if ps != [] {
      var n := |ps| - 1;
      assert Named(ps[..n]) <= Named(ps);
      assert ps[n].0 in Named(ps);
      BareInject(w, env, plan, ps[..n], k);
      InjectedMore(w, env, ps, Inject(env, plan, ps[..n]), k);
    }
  }

  /** A bare child is given its fields in upper case over what it inherits. */
  lemma BareGives(w: World, cap: Cap, argv: seq<string>)
    ensures var x := ExecBare(w, cap, argv); x.child.Some? ==> BareGiven(w, cap, x.child.value)
  {
    var x := ExecBare(w, cap, argv);
    B.BareShape(cap);
    B.BareRun(w, argv, cap);
    B.ChildIs(w, cap.id, argv, Before(map[], "", {}), B.BareEarly(cap));
    if x.child.Some? {
      BareEnvGiven(w, cap, Receipt(w, [CheckoutJson(cap.id, BarePlan(w, w.resolve(cap).value))]));
    }
  }

  lemma BareEnvGiven(w: World, cap: Cap, receipt: string)
    requires w.resolve(cap).Some?
    ensures var ps := w.resolve(cap).value;
            BareGiven(w, cap, Inject(w.environ, BarePlan(w, ps), ps)[RECEIPT := receipt])
  {
    var ps := w.resolve(cap).value;
    var out := Inject(w.environ, BarePlan(w, ps), ps);
    forall k ensures Injected(w, w.environ, ps, out, k) { BareInject(w, w.environ, BarePlan(w, ps), ps, k); }
    BareOut(w, cap, ps, out, out[RECEIPT := receipt]);
  }

  lemma BareOut(w: World, cap: Cap, ps: Pairs, out: Env, env: Env)
    requires w.resolve(cap) == Some(ps) && forall k :: Injected(w, w.environ, ps, out, k)
    requires env.Keys == out.Keys + {RECEIPT} && forall k :: k in out && k != RECEIPT ==> env[k] == out[k]
    ensures BareGiven(w, cap, env)
  {
    forall i | 0 <= i < |ps| && Last(w, ps, i)
      ensures w.upper(ps[i].0) in env && (w.upper(ps[i].0) == RECEIPT || env[w.upper(ps[i].0)] == ps[i].1)
    {
      assert Injected(w, w.environ, ps, out, w.upper(ps[i].0));
    }
    forall k | k in w.environ && k != RECEIPT && !Folds(w, ps, k) ensures k in env && env[k] == w.environ[k] {
      assert Injected(w, w.environ, ps, out, k);
    }
    forall k | k in env && k != RECEIPT ensures k in w.environ || Folds(w, ps, k) {
      assert Injected(w, w.environ, ps, out, k);
    }
  }

  // ---------------------------------------------------------------- which way a capability goes

  /** A mapping that is not empty, or a prefix that is not. */
  ghost predicate NamesItself(options: Doc) {
    ("inject" in options && options["inject"].Object? && options["inject"].fields != map[]) ||
    ("env_prefix" in options && options["env_prefix"].Text? && options["env_prefix"].s != "")
  }

  ghost predicate IsSuite(options: Doc) { "source" in options && options["source"] == Text("suite") }

  /** A source there is, and naming options of the right kind; a suite's are not looked at. */
  ghost predicate Sourced(options: Doc) {
    && ("source" in options ==> options["source"] in {Text("vault"), Text("env"), Text("suite")})
    && (!IsSuite(options) ==>
          ("inject" in options ==> options["inject"].Null? || options["inject"].Object?) &&
          ("env_prefix" in options ==> options["env_prefix"].Null? || options["env_prefix"].Text?))
  }

  /** A qualified command is run by the path the options choose; anything else is refused before it starts. */
  lemma CredRoute(w: World, cap: Cap, argv: seq<string>)
    ensures var x := ExecCred(w, cap, argv);
            if argv != [] && w.trusted(cap) == Some(argv) && Sourced(cap.options) then
              x == if IsSuite(cap.options) then ExecSuite(w, cap, argv)
                   else if NamesItself(cap.options) then ExecStrict(w, [cap], argv)
                   else ExecBare(w, cap, argv)
            else x.result.Raised? && x.events == [] && x.resolved == [] && x.child == None
  {
  }

  /** What a composed checkout refuses a capability for: the first of these tests to fail. */
  ghost predicate Objects(w: World, cap: Cap, argv: seq<string>, before: seq<Cap>, seen: set<string>, e: Error) {
    if cap.provider != "cred" then e == NotCred
    else if "source" in cap.options && cap.options["source"] !in {Text("vault"), Text("env"), Text("suite")} then e == BadSource
    else if IsSuite(cap.options) then e == SuiteNotComposable
    else if cap.id in seen || (exists j :: 0 <= j < |before| && before[j].id == cap.id) then e == Repeated
    else w.trusted(cap) != Some(argv) && e == BadCommand
  }

  /** The objection is to the first capability that is not composable beside those before it. */
  lemma {:induction false} ObjectionAt(w: World, caps: seq<Cap>, argv: seq<string>, seen: set<string>) returns (i: nat)
    requires Objection(w, caps, argv, seen).Some?
    ensures i < |caps| && Composable(w, caps[..i], argv, seen)
    ensures Objects(w, caps[i], argv, caps[..i], seen, Objection(w, caps, argv, seen).value)
    decreases |caps|
  {
    var cap := caps[0];
    i := 0;
    if cap.provider == "cred" && SourceKind(cap).Ok? && SourceKind(cap).value != FromSuite && cap.id !in seen && w.trusted(cap) == Some(argv) {
      var k := ObjectionAt(w, caps[1..], argv, seen + {cap.id});
      i := k + 1;
      ComposableCons(w, caps, argv, seen, k);
      assert forall j :: 0 < j < i ==> caps[..i][j] == caps[1..][..k][j - 1];
      assert caps[..i][0] == cap;
      assert forall j :: 0 <= j < k ==> caps[1..][..k][j] == caps[..i][j + 1];
    }
  }

  lemma ComposableCons(w: World, caps: seq<Cap>, argv: seq<string>, seen: set<string>, k: nat)
    requires caps != [] && k < |caps| && Composable(w, caps[1..][..k], argv, seen + {caps[0].id})
    requires caps[0].provider == "cred" && SourceKind(caps[0]).Ok? && SourceKind(caps[0]).value != FromSuite
    requires caps[0].id !in seen && w.trusted(caps[0]) == Some(argv)
    ensures Composable(w, caps[..k + 1], argv, seen)
  {
    var all, rest := caps[..k + 1], caps[1..][..k];
    assert forall j :: 0 < j < |all| ==> all[j] == rest[j - 1];
    assert forall j :: 0 <= j < |rest| ==> rest[j].id != caps[0].id;
  }

  /**
   A child runs only with the qualified command. A suite's gets what the suite
   says; one that names its variables gets them by those names, none of them
   standing already; any other gets the bare names over what it inherits.
   */
  lemma CredGives(w: World, cap: Cap, argv: seq<string>)
    requires Upper(w.upper) && Resolvers(w)
    ensures var x := ExecCred(w, cap, argv);
            x.child.Some? ==>
              && argv != [] && w.trusted(cap) == Some(argv)
              && (if IsSuite(cap.options) then SuiteGiven(w, cap, x.child.value)
                  else if NamesItself(cap.options) then Given(w, cap, x.child.value) && NoMore(w, [cap], x.child.value)
                  else BareGiven(w, cap, x.child.value))
  {
    CredRoute(w, cap, argv);
    if IsSuite(cap.options) {
      SuiteGives(w, cap, argv);
    } else if NamesItself(cap.options) {
      OneGiven(w, cap, argv);
    } else {
      BareGives(w, cap, argv);
    }
  }

  lemma OneGiven(w: World, cap: Cap, argv: seq<string>)
    requires Upper(w.upper) && Resolvers(w)
    ensures var x := ExecStrict(w, [cap], argv); x.child.Some? ==> Given(w, cap, x.child.value) && NoMore(w, [cap], x.child.value)
  {
    StrictGiven(w, [cap], argv);
    assert [cap][0] == cap;
  }
}
