/** What a launched child makes of its environment, and what it reports back. */
module Launcher {
  import opened Base
  import opened JsonTree
  import opened E = ExecSpec
  import T = ExecTheorems
  import ExecBody

  // ---------------------------------------------------------------- the request

  datatype Request = Request(invocation: string, capability: string, fields: map<string, string>, receipt: string)

  /** All are `ValueError`, but `NotAnObject`, which is an `AttributeError`. */
  datatype Refusal =
    | NoReceipt | BadJson | NotAnObject | BadSchema | NoInvocation | NotOneCheckout | NoCapability | WrongCapability | NoFields | BadField

  /** The fields the receipt maps to variables that are set; None when one is not. */
  method ReadFields(env: Env, names: Doc) returns (fields: Option<map<string, string>>)
    ensures fields == FieldsOf(env, names)
  {
    var out: map<string, string> := map[];
    var left := names.Keys;
    while left != {}
      invariant left <= names.Keys && out.Keys == names.Keys - left
      invariant forall f :: f in out ==> Set(env, names[f]) && out[f] == env[names[f].s]
    {
      var f :| f in left;
      if !Set(env, names[f]) {
        return None;
      }
      out, left := out[f := env[names[f].s]], left - {f};
    }
    assert out == map f | f in names :: env[names[f].s];
    fields := Some(out);
  }

  predicate Set(env: Env, name: Json) {
    name.Text? && name.s in env
  }

  function FieldsOf(env: Env, names: Doc): (fields: Option<map<string, string>>) {
    if forall f :: f in names ==> Set(env, names[f]) then Some(map f | f in names :: env[names[f].s]) else None
  }

  function ReadCheckout(env: Env, expected: Option<string>, invocation: string, receipt: string, checkout: Json)
    : (r: Outcome<Request, Refusal>)
  {
    if !checkout.Object? then Raised(NotAnObject)
    else
      var id := Get(checkout.fields, "capability_id");
      if !NonEmptyText(id) then Raised(NoCapability)
      else if expected.Some? && id.s != expected.value then Raised(WrongCapability)
      else
        var names := Get(checkout.fields, "fields");
        if !names.Object? || names.fields == map[] then Raised(NoFields)
        else match FieldsOf(env, names.fields)
          case None => Raised(BadField)
          case Some(fields) => Ok(Request(invocation, id.s, fields, receipt))
  }

  function ReadReceipt(env: Env, expected: Option<string>, receipt: string, tree: Json): (r: Outcome<Request, Refusal>) {
    if !tree.Object? then Raised(NotAnObject)
    else if Get(tree.fields, "schema") != Text(RECEIPT_SCHEMA) then Raised(BadSchema)
    else
      var invocation := Get(tree.fields, "invocation_id");
      if !NonEmptyText(invocation) then Raised(NoInvocation)
      else
        var checkouts := Get(tree.fields, "checkouts");
        if !checkouts.List? || |checkouts.items| != 1 then Raised(NotOneCheckout)
        else ReadCheckout(env, expected, invocation.s, receipt, checkouts.items[0])
  }

  function FromEnviron(codec: Codec, env: Env, expected: Option<string>): (r: Outcome<Request, Refusal>) {
    if RECEIPT !in env || env[RECEIPT] == [] then Raised(NoReceipt)
    else match codec.loads(env[RECEIPT])
      case None => Raised(BadJson)
      case Some(tree) => ReadReceipt(env, expected, env[RECEIPT], tree)
  }

  // ---------------------------------------------------------------- receipts are read back

  lemma ReceiptTreeIs(w: World, rows: seq<Json>)
    ensures var d := ReceiptTree(w, rows).fields;
            Get(d, "schema") == Text(RECEIPT_SCHEMA) && Get(d, "invocation_id") == Text(w.invocation) &&
            Get(d, "checkouts") == List(rows)
  {
  }

  /** Reading a receipt back comes down to its one checkout. */
  lemma ReceiptRead(w: World, env: Env, expected: Option<string>, rows: seq<Json>)
    requires Faithful(w.codec) && w.invocation != [] && RECEIPT in env && env[RECEIPT] == Receipt(w, rows)
    ensures FromEnviron(w.codec, env, expected) ==
            if |rows| != 1 then Raised(NotOneCheckout) else ReadCheckout(env, expected, w.invocation, env[RECEIPT], rows[0])
  {
    ReceiptTreeIs(w, rows);
    assert w.codec.loads(w.codec.dumps(ReceiptTree(w, rows))) == Some(ReceiptTree(w, rows));
  }

  lemma CheckoutRead(env: Env, id: string, plan: Plan, invocation: string, receipt: string)
    requires id != []
    ensures ReadCheckout(env, Some(id), invocation, receipt, CheckoutJson(id, plan)) ==
            if plan == map[] then Raised(NoFields)
            else if forall f :: f in plan ==> plan[f] in env
            then Ok(Request(invocation, id, map f | f in plan :: env[plan[f]], receipt))
            else Raised(BadField)
  {
    var d := CheckoutJson(id, plan).fields;
    assert Get(d, "capability_id") == Text(id) && Get(d, "fields") == FieldsJson(plan);
    var names := FieldsJson(plan).fields;
    assert names.Keys == plan.Keys;
    assert names == map[] <==> plan == map[];
    assert forall f :: f in plan ==> (Set(env, names[f]) <==> plan[f] in env);
    if forall f :: f in plan ==> plan[f] in env {
      assert (map f | f in names :: env[names[f].s]) == (map f | f in plan :: env[plan[f]]);
    } else {
      var f :| f in plan && plan[f] !in env;
      assert f in names && !Set(env, names[f]);
    }
  }

  /** A resolved selection as a dict. */
  function Dict(ps: Pairs): (d: map<string, string>)
    decreases |ps|
  {
    if ps == [] then map[] else Dict(ps[..|ps| - 1])[ps[|ps| - 1].0 := ps[|ps| - 1].1]
  }

  lemma {:induction false} DictKey(ps: Pairs, f: string)
    ensures f in Dict(ps) <==> f in Named(ps)
    decreases |ps|
  {
    if ps != [] {
      var n := |ps| - 1;
      DictKey(ps[..n], f);
      assert ps == ps[..n] + [ps[n]];
    }
  }

  lemma DictKeys(ps: Pairs)
    ensures Dict(ps).Keys == Named(ps)
  {
    forall f ensures f in Dict(ps) <==> f in Named(ps) { DictKey(ps, f); }
  }

  lemma {:induction false} LastWins(ps: Pairs, i: nat)
    requires i < |ps| && forall j :: i < j < |ps| ==> ps[j].0 != ps[i].0
    ensures ps[i].0 in Dict(ps) && Dict(ps)[ps[i].0] == ps[i].1
    decreases |ps|
  {
    if i < |ps| - 1 { LastWins(ps[..|ps| - 1], i); }
  }

  lemma DictAt(ps: Pairs, i: nat)
    requires T.Distinct(ps) && i < |ps|
    ensures ps[i].0 in Dict(ps) && Dict(ps)[ps[i].0] == ps[i].1
  {
    LastWins(ps, i);
  }

  lemma DeliveredRead(w: World, cap: Cap, plan: Plan, env: Env)
    requires T.Resolvers(w) && T.Delivered(w, cap, plan, env)
    ensures forall f :: f in plan ==> plan[f] in env
    ensures (map f | f in plan && plan[f] in env :: env[plan[f]]) == Dict(w.resolve(cap).value)
  {
    var ps := w.resolve(cap).value;
    DictKeys(ps);
    forall f | f in plan ensures plan[f] in env && f in Dict(ps) && env[plan[f]] == Dict(ps)[f] {
      assert f in Named(ps);
      var i :| 0 <= i < |ps| && ps[i].0 == f;
      DictAt(ps, i);
    }
  }

  /**
   The child of a strict checkout of one capability reads back exactly the
   resolved fields, if and only if the selection is not empty.
   */
  lemma StrictRoundTrip(w: World, cap: Cap, argv: seq<string>)
    requires Upper(w.upper) && T.Resolvers(w) && Faithful(w.codec) && w.invocation != []
    ensures var x := ExecStrict(w, [cap], argv);
            x.child.Some? ==>
              w.resolve(cap).Some? && RECEIPT in x.child.value &&
              var fields := Dict(w.resolve(cap).value);
              FromEnviron(w.codec, x.child.value, Some(cap.id)) ==
              if fields == map[] then Raised(NoFields) else Ok(Request(w.invocation, cap.id, fields, x.child.value[RECEIPT]))
  {
    T.StrictChild(w, [cap], argv);
    T.PlanAllSound(w, [cap], {}, Folded(w, w.environ.Keys));
    var child := ExecStrict(w, [cap], argv).child;
    if child.Some? {
      assert ReceiptId([cap][0].id);
      OneRead(w, cap, PlanAll(w, [cap], {}, Folded(w, w.environ.Keys)).value, child.value);
    }
  }

  lemma OneRead(w: World, cap: Cap, plans: seq<Plan>, env: Env)
    requires T.Resolvers(w) && Faithful(w.codec) && w.invocation != [] && |plans| == 1 && cap.id != []
    requires T.ChildSees(w, [cap], plans, env)
    ensures w.resolve(cap).Some? &&
            var fields := Dict(w.resolve(cap).value);
            FromEnviron(w.codec, env, Some(cap.id)) ==
            if fields == map[] then Raised(NoFields) else Ok(Request(w.invocation, cap.id, fields, env[RECEIPT]))
  {
    assert T.Delivered(w, [cap][0], plans[0], env);
    assert CheckoutRows(Ids([cap]), plans) == [CheckoutJson(cap.id, plans[0])];
    ReceiptRead(w, env, Some(cap.id), [CheckoutJson(cap.id, plans[0])]);
    OneDelivered(w, cap, plans[0], env, env[RECEIPT]);
  }

  lemma OneDelivered(w: World, cap: Cap, plan: Plan, env: Env, receipt: string)
    requires T.Resolvers(w) && cap.id != [] && T.Delivered(w, cap, plan, env)
    ensures ReadCheckout(env, Some(cap.id), w.invocation, receipt, CheckoutJson(cap.id, plan)) ==
            var fields := Dict(w.resolve(cap).value);
            if fields == map[] then Raised(NoFields) else Ok(Request(w.invocation, cap.id, fields, receipt))
  {
    DeliveredRead(w, cap, plan, env);
    CheckoutRead(env, cap.id, plan, w.invocation, receipt);
    assert (map f | f in plan && plan[f] in env :: env[plan[f]]) == (map f | f in plan :: env[plan[f]]);
    DictKeys(w.resolve(cap).value);
    assert plan == map[] <==> plan.Keys == {};
    assert Dict(w.resolve(cap).value) == map[] <==> Dict(w.resolve(cap).value).Keys == {};
  }

  /** A composed checkout's child, having more than one, is always refused. */
  lemma ComposedUnread(w: World, caps: seq<Cap>, argv: seq<string>, expected: Option<string>)
    requires Upper(w.upper) && T.Resolvers(w) && Faithful(w.codec) && w.invocation != [] && |caps| > 1
    ensures var x := ExecStrict(w, caps, argv);
            x.child.Some? ==> FromEnviron(w.codec, x.child.value, expected) == Raised(NotOneCheckout)
  {
    var x := ExecStrict(w, caps, argv);
    if x.child.Some? {
      T.StrictChild(w, caps, argv);
      var plans := PlanAll(w, caps, {}, Folded(w, w.environ.Keys)).value;
      ReceiptRead(w, x.child.value, expected, CheckoutRows(Ids(caps), plans));
    }
  }

  // ---------------------------------------------------------------- the bare path

  /** The names a bare checkout falls back on do not get in each other's way. */
  ghost predicate NoClash(w: World, ps: Pairs, receipt: string) {
    (forall i, j :: 0 <= i < j < |ps| && w.upper(ps[i].0) == w.upper(ps[j].0) ==> ps[i].1 == ps[j].1) &&
    forall i :: 0 <= i < |ps| && w.upper(ps[i].0) == RECEIPT ==> ps[i].1 == receipt
  }

  lemma {:induction false} BareInjected(w: World, env: Env, plan: Plan, ps: Pairs, i: nat) returns (j: nat)
    requires Named(ps) <= plan.Keys && (forall f :: f in plan ==> plan[f] == w.upper(f)) && i < |ps|
    ensures i <= j < |ps| && w.upper(ps[j].0) == w.upper(ps[i].0)
    ensures w.upper(ps[i].0) in Inject(env, plan, ps) && Inject(env, plan, ps)[w.upper(ps[i].0)] == ps[j].1
    decreases |ps|
  {
    var n := |ps| - 1;
    assert ps[n].0 in Named(ps);
    if i == n || w.upper(ps[n].0) == w.upper(ps[i].0) {
      j := n;
    } else {
      assert Named(ps[..n]) <= Named(ps);
      j := BareInjected(w, env, plan, ps[..n], i);
    }
  }

  /**
   A bare checkout names variables by upper-casing, so its child reads back the
   resolved fields if and only if no two fields fold to one name with different
   values and none folds to the receipt's own name.
   */
  lemma BareRoundTrip(w: World, cap: Cap, argv: seq<string>)
    requires T.Resolvers(w) && Faithful(w.codec) && w.invocation != [] && cap.id != []
    ensures var x := ExecBare(w, cap, argv);
            x.child.Some? ==>
              w.resolve(cap).Some? &&
              var ps := w.resolve(cap).value;
              ps != [] ==>
              RECEIPT in x.child.value &&
              (FromEnviron(w.codec, x.child.value, Some(cap.id)) ==
                 Ok(Request(w.invocation, cap.id, Dict(ps), x.child.value[RECEIPT]))
               <==> NoClash(w, ps, x.child.value[RECEIPT]))
  {
    var x := ExecBare(w, cap, argv);
    ExecBody.BareShape(cap);
    ExecBody.BareRun(w, argv, cap);
    ExecBody.ChildIs(w, cap.id, argv, Before(map[], "", {}), ExecBody.BareEarly(cap));
    if x.child.Some? && w.resolve(cap).value != [] {
      var ps := w.resolve(cap).value;
      var plan := BarePlan(w, ps);
      BareRead(w, cap.id, ps, plan, x.child.value);
    }
  }

  lemma BareRead(w: World, id: string, ps: Pairs, plan: Plan, env: Env)
    requires T.Distinct(ps) && ps != [] && plan == BarePlan(w, ps) && id != [] && Faithful(w.codec) && w.invocation != []
    requires var receipt := Receipt(w, [CheckoutJson(id, plan)]); env == Inject(w.environ, plan, ps)[RECEIPT := receipt]
    ensures FromEnviron(w.codec, env, Some(id)) == Ok(Request(w.invocation, id, Dict(ps), env[RECEIPT]))
            <==> NoClash(w, ps, env[RECEIPT])
  {
    ReceiptRead(w, env, Some(id), [CheckoutJson(id, plan)]);
    CheckoutRead(env, id, plan, w.invocation, env[RECEIPT]);
    assert ps[0].0 in Named(ps);
    assert plan != map[];
    forall f | f in plan ensures plan[f] in env {
      var i :| 0 <= i < |ps| && ps[i].0 == f;
      var j := BareInjected(w, w.environ, plan, ps, i);
    }
    DictKeys(ps);
    BareSame(w, ps, plan, env);
    var read := map f | f in plan :: env[plan[f]];
    assert read == Dict(ps) <==> forall f :: f in plan ==> env[plan[f]] == Dict(ps)[f];
  }

  /** One field: its variable holds its own value. */
  ghost predicate Kept(env: Env, plan: Plan, p: (string, string)) {
    p.0 in plan && plan[p.0] in env && env[plan[p.0]] == p.1
  }

  lemma BareSame(w: World, ps: Pairs, plan: Plan, env: Env)
    requires T.Distinct(ps) && plan == BarePlan(w, ps) && RECEIPT in env && env == Inject(w.environ, plan, ps)[RECEIPT := env[RECEIPT]]
    requires Dict(ps).Keys == plan.Keys && forall f :: f in plan ==> plan[f] in env
    ensures (forall f :: f in plan ==> env[plan[f]] == Dict(ps)[f]) <==> NoClash(w, ps, env[RECEIPT])
  {
    AllKept(w, ps, plan, env);
    forall i | 0 <= i < |ps| ensures ps[i].0 in plan && Dict(ps)[ps[i].0] == ps[i].1 {
      assert ps[i].0 in Named(ps);
      DictAt(ps, i);
    }
    if forall i :: 0 <= i < |ps| ==> Kept(env, plan, ps[i]) {
      forall f | f in plan ensures env[plan[f]] == Dict(ps)[f] {
        var i :| 0 <= i < |ps| && ps[i].0 == f;
        assert Kept(env, plan, ps[i]);
      }
    }
  }

  lemma AllKept(w: World, ps: Pairs, plan: Plan, env: Env)
    requires plan == BarePlan(w, ps) && RECEIPT in env && env == Inject(w.environ, plan, ps)[RECEIPT := env[RECEIPT]]
    ensures (forall i :: 0 <= i < |ps| ==> Kept(env, plan, ps[i])) <==> NoClash(w, ps, env[RECEIPT])
  {
    forall i | 0 <= i < |ps| ensures ps[i].0 in plan && plan[ps[i].0] == w.upper(ps[i].0) { assert ps[i].0 in Named(ps); }
    if forall i :: 0 <= i < |ps| ==> Kept(env, plan, ps[i]) {
      assert forall i :: 0 <= i < |ps| ==> env[w.upper(ps[i].0)] == ps[i].1;
    }
    if NoClash(w, ps, env[RECEIPT]) {
      forall i | 0 <= i < |ps| ensures Kept(env, plan, ps[i]) {
        var j := BareInjected(w, w.environ, plan, ps, i);
      }
    }
  }

  // ---------------------------------------------------------------- the result

  datatype Operation = Operation(name: string, status: string, detail: string)

  datatype Report = Report(invocation: string, status: string, operations: seq<Operation>, evidence: string, cleaned: bool, detail: string)

  const RESULT_SCHEMA: string := "acb.launcher-" + "result.v1"
  const STATUSES: set<string> := {"success", "failure", "authorization" + "_denied"}

  /** A report can only be built with one of the known statuses. */
  predicate Built(r: Report) { r.status in STATUSES }

  datatype Fault =
    | NotObject | WrongSchema | MissingInvocation | UnknownStatus | OperationsNotList | OperationNotObject | NoName | NoStatus
    | BadEvidence | BadCleanup | BadDetail

  function OperationJson(o: Operation): Json {
    Object(map["operation" := Text(o.name), "status" := Text(o.status), "detail" := Text(o.detail)])
  }

  function OperationsJson(os: seq<Operation>): (js: seq<Json>)
    ensures |js| == |os|
  {
    seq(|os|, i requires 0 <= i < |os| => OperationJson(os[i]))
  }

  function ToJson(r: Report): Json {
    Object(map["schema" := Text(RESULT_SCHEMA), "invocation_id" := Text(r.invocation), "status" := Text(r.status)]
         + map["operations" := List(OperationsJson(r.operations)), "evidence_hash" := Text(r.evidence)]
         + map["cleanup_verified" := Bool(r.cleaned), "detail" := Text(r.detail)])
  }

  /** `dict.get(key, default)`. */
  function GetOr(d: Doc, key: string, default: Json): Json {
    if key in d then d[key] else default
  }

  function ReadOperation(codec: Codec, j: Json): Outcome<Operation, Fault> {
    if !j.Object? then Raised(OperationNotObject)
    else if !NonEmptyText(Get(j.fields, "operation")) then Raised(NoName)
    else if !NonEmptyText(Get(j.fields, "status")) then Raised(NoStatus)
    else Ok(Operation(j.fields["operation"].s, j.fields["status"].s, Str(codec, GetOr(j.fields, "detail", Text("")))))
  }

  function ReadOperations(codec: Codec, js: seq<Json>): Outcome<seq<Operation>, Fault> {
    if js == [] then Ok([])
    else match ReadOperation(codec, js[0])
      case Raised(e) => Raised(e)
      case Ok(first) =>
        match ReadOperations(codec, js[1..])
        case Raised(e) => Raised(e)
        case Ok(rest) => Ok([first] + rest)
  }

  function FromJson(codec: Codec, j: Json): Outcome<Report, Fault> {
    if !j.Object? then Raised(NotObject)
    else if Get(j.fields, "schema") != Text(RESULT_SCHEMA) then Raised(WrongSchema)
    else if !NonEmptyText(Get(j.fields, "invocation_id")) then Raised(MissingInvocation)
    else if !Get(j.fields, "status").Text? || Get(j.fields, "status").s !in STATUSES then Raised(UnknownStatus)
    else if !GetOr(j.fields, "operations", List([])).List? then Raised(OperationsNotList)
    else match ReadOperations(codec, GetOr(j.fields, "operations", List([])).items)
      case Raised(e) => Raised(e)
      case Ok(operations) => ReadTail(j.fields, operations)
  }

  function ReadTail(d: Doc, operations: seq<Operation>): Outcome<Report, Fault>
    requires "invocation_id" in d && d["invocation_id"].Text? && "status" in d && d["status"].Text?
  {
    if !GetOr(d, "evidence_hash", Text("")).Text? then Raised(BadEvidence)
    else if !GetOr(d, "cleanup_verified", Bool(false)).Bool? then Raised(BadCleanup)
    else if !GetOr(d, "detail", Text("")).Text? then Raised(BadDetail)
    else Ok(Report(d["invocation_id"].s, d["status"].s, operations, GetOr(d, "evidence_hash", Text("")).s,
                   GetOr(d, "cleanup_verified", Bool(false)).b, GetOr(d, "detail", Text("")).s))
  }

  /** The loop over the operations, stopping at the first bad one. */
  method ReadEach(codec: Codec, js: seq<Json>) returns (r: Outcome<seq<Operation>, Fault>)
    ensures r == ReadOperations(codec, js)
  {
    var out: seq<Operation> := [];
    var i := 0;
    assert js[0..] == js;
    PrefixedMore([], Operation("", "", ""), ReadOperations(codec, js));
    while i < |js|
      invariant 0 <= i <= |js|
      invariant ReadOperations(codec, js) == Prefixed(out, ReadOperations(codec, js[i..]))
    {
      assert js[i..][0] == js[i] && js[i..][1..] == js[i + 1..];
      var o := ReadOperation(codec, js[i]);
      if o.Raised? {
        return Raised(o.error);
      }
      PrefixedMore(out, o.value, ReadOperations(codec, js[i + 1..]));
      out := out + [o.value];
      i := i + 1;
    }
    assert out + [] == out;
    r := Ok(out);
  }

  function Prefixed(out: seq<Operation>, r: Outcome<seq<Operation>, Fault>): Outcome<seq<Operation>, Fault> {
    match r case Raised(e) => Raised(e) case Ok(rest) => Ok(out + rest)
  }

  lemma PrefixedMore(out: seq<Operation>, o: Operation, r: Outcome<seq<Operation>, Fault>)
    ensures Prefixed(out, Prefixed([o], r)) == Prefixed(out + [o], r)
    ensures Prefixed([], r) == r
  {
    if r.Ok? {
      assert out + ([o] + r.value) == out + [o] + r.value;
      assert [] + r.value == r.value;
    }
  }

  ghost predicate Complete(os: seq<Operation>) {
    forall i :: 0 <= i < |os| ==> os[i].name != [] && os[i].status != []
  }

  lemma OperationRead(codec: Codec, o: Operation)
    ensures ReadOperation(codec, OperationJson(o)) ==
            if o.name == [] then Raised(NoName) else if o.status == [] then Raised(NoStatus) else Ok(o)
  {
  }

  lemma CompleteCons(os: seq<Operation>)
    requires os != []
    ensures Complete(os) <==> os[0].name != [] && os[0].status != [] && Complete(os[1..])
  {
    assert forall i :: 0 < i < |os| ==> os[i] == os[1..][i - 1];
    assert forall i :: 0 <= i < |os[1..]| ==> os[1..][i] == os[i + 1];
  }

  lemma {:induction false} OperationsRead(codec: Codec, os: seq<Operation>)
    ensures var r := ReadOperations(codec, OperationsJson(os));
            if Complete(os) then r == Ok(os) else r.Raised?
  {
    if os != [] {
      OperationRead(codec, os[0]);
      OperationsRead(codec, os[1..]);
      assert OperationsJson(os)[1..] == OperationsJson(os[1..]);
      CompleteCons(os);
      assert [os[0]] + os[1..] == os;
    }
  }

  lemma ToJsonIs(r: Report)
    ensures var d := ToJson(r).fields;
            Get(d, "schema") == Text(RESULT_SCHEMA) && Get(d, "invocation_id") == Text(r.invocation) &&
            Get(d, "status") == Text(r.status) && GetOr(d, "operations", List([])) == List(OperationsJson(r.operations))
    ensures var d := ToJson(r).fields;
            GetOr(d, "evidence_hash", Text("")) == Text(r.evidence) &&
            GetOr(d, "cleanup_verified", Bool(false)) == Bool(r.cleaned) && GetOr(d, "detail", Text("")) == Text(r.detail)
  {
  }

  /**
   A written result is read back exactly, if and only if it names its
   invocation and each operation has a name and a status.
   */
  lemma ResultRoundTrip(codec: Codec, r: Report)
    requires Built(r)
    ensures FromJson(codec, ToJson(r)) == Ok(r) <==> r.invocation != [] && Complete(r.operations)
  {
    ToJsonIs(r);
    OperationsRead(codec, r.operations);
  }

  /** Whatever is accepted can be written and read again unchanged. */
  lemma AcceptedIsStable(codec: Codec, j: Json)
    ensures var r := FromJson(codec, j); r.Ok? ==> Built(r.value) && FromJson(codec, ToJson(r.value)) == r
  {
    var r := FromJson(codec, j);
    if r.Ok? {
      OperationsComplete(codec, GetOr(j.fields, "operations", List([])).items);
      ResultRoundTrip(codec, r.value);
    }
  }

  lemma {:induction false} OperationsComplete(codec: Codec, js: seq<Json>)
    ensures ReadOperations(codec, js).Ok? ==> Complete(ReadOperations(codec, js).value)
  {
    if js != [] { OperationsComplete(codec, js[1..]); }
  }
}
