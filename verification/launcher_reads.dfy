/** Exactly which environments a launcher accepts, and which of its results are accepted. */
module LauncherReads {
  import opened Base
  import opened JsonTree
  import opened E = ExecSpec
  import opened L = Launcher

  ghost predicate Has(d: Doc, key: string, j: Json) { key in d && d[key] == j }

  /** There with this value; or not there, and the value is the default. */
  ghost predicate May(d: Doc, key: string, j: Json, default: Json) {
    if key in d then d[key] == j else j == default
  }

  // ---------------------------------------------------------------- the request

  /** One checkout, of a named capability, with at least one field, in a named invocation. */
  ghost predicate ReceiptSays(tree: Json, invocation: string, id: string, names: Doc) {
    && tree.Object? && Has(tree.fields, "schema", Text(RECEIPT_SCHEMA))
    && Has(tree.fields, "invocation_id", Text(invocation)) && invocation != ""
    && exists row :: Has(tree.fields, "checkouts", List([Object(row)])) && RowSays(row, id, names)
  }

  ghost predicate RowSays(row: Doc, id: string, names: Doc) {
    Has(row, "capability_id", Text(id)) && id != "" && Has(row, "fields", Object(names)) && names != map[]
  }

  /** Each field has the value of the variable it is mapped to. */
  ghost predicate Finds(env: Env, names: Doc, fields: map<string, string>) {
    fields.Keys == names.Keys &&
    forall f :: f in names ==> names[f].Text? && names[f].s in env && fields[f] == env[names[f].s]
  }

  ghost predicate Accepts(codec: Codec, env: Env, expected: Option<string>, r: Request) {
    && RECEIPT in env && env[RECEIPT] == r.receipt && r.receipt != ""
    && codec.loads(r.receipt).Some?
    && (expected.Some? ==> expected.value == r.capability)
    && exists names :: ReceiptSays(codec.loads(r.receipt).value, r.invocation, r.capability, names) && Finds(env, names, r.fields)
  }

  lemma RowRead(env: Env, expected: Option<string>, invocation: string, receipt: string, row: Doc, r: Request)
    ensures ReadCheckout(env, expected, invocation, receipt, Object(row)) == Ok(r) <==>
            r.invocation == invocation && r.receipt == receipt && (expected.Some? ==> expected.value == r.capability) &&
            exists names :: RowSays(row, r.capability, names) && Finds(env, names, r.fields)
  {
    var read := ReadCheckout(env, expected, invocation, receipt, Object(row));
    if read == Ok(r) {
      var names := row["fields"].fields;
      assert RowSays(row, r.capability, names) && Finds(env, names, r.fields);
    }
    if names: Doc :| RowSays(row, r.capability, names) && Finds(env, names, r.fields) {
      assert r.fields == map f | f in names :: env[names[f].s];
    }
  }

  lemma TreeRead(env: Env, expected: Option<string>, receipt: string, tree: Json, r: Request)
    ensures ReadReceipt(env, expected, receipt, tree) == Ok(r) <==>
            r.receipt == receipt && (expected.Some? ==> expected.value == r.capability) &&
            exists names :: ReceiptSays(tree, r.invocation, r.capability, names) && Finds(env, names, r.fields)
  {
    if tree.Object? && "checkouts" in tree.fields && tree.fields["checkouts"].List? && |tree.fields["checkouts"].items| == 1 {
      var items := tree.fields["checkouts"].items;
      assert items == [items[0]];
      if items[0].Object? {
        var row := items[0].fields;
        RowRead(env, expected, r.invocation, receipt, row, r);
        if ReadReceipt(env, expected, receipt, tree) == Ok(r) {
          var names :| RowSays(row, r.capability, names) && Finds(env, names, r.fields);
          assert ReceiptSays(tree, r.invocation, r.capability, names);
        }
      }
    }
  }

  /** A launcher accepts its environment exactly when the receipt is one, of the capability expected, and each field's variable is set. */
  lemma ReadIff(codec: Codec, env: Env, expected: Option<string>, r: Request)
    ensures FromEnviron(codec, env, expected) == Ok(r) <==> Accepts(codec, env, expected, r)
  {
    if RECEIPT in env && env[RECEIPT] != "" && codec.loads(env[RECEIPT]).Some? {
      TreeRead(env, expected, env[RECEIPT], codec.loads(env[RECEIPT]).value, r);
    }
  }

  // ---------------------------------------------------------------- the result

  ghost predicate OperationSays(codec: Codec, j: Json, o: Operation) {
    && j.Object? && Has(j.fields, "operation", Text(o.name)) && o.name != ""
    && Has(j.fields, "status", Text(o.status)) && o.status != ""
    && o.detail == if "detail" in j.fields then Str(codec, j.fields["detail"]) else ""
  }

  ghost predicate OperationsSay(codec: Codec, js: seq<Json>, os: seq<Operation>) {
    |js| == |os| && forall i :: 0 <= i < |js| ==> OperationSays(codec, js[i], os[i])
  }

  lemma OperationIff(codec: Codec, j: Json, o: Operation)
    ensures ReadOperation(codec, j) == Ok(o) <==> OperationSays(codec, j, o)
  {
  }

  lemma {:induction false} OperationsIff(codec: Codec, js: seq<Json>, os: seq<Operation>)
    ensures ReadOperations(codec, js) == Ok(os) <==> OperationsSay(codec, js, os)
  {
    if js != [] {
      if os != [] {
        OperationIff(codec, js[0], os[0]);
        OperationsIff(codec, js[1..], os[1..]);
        assert os == [os[0]] + os[1..];
        assert forall i :: 0 < i < |js| ==> js[i] == js[1..][i - 1];
        assert forall i :: 0 < i < |os| ==> os[i] == os[1..][i - 1];
        SaysCons(codec, js, os);
      }
    }
  }

  lemma SaysCons(codec: Codec, js: seq<Json>, os: seq<Operation>)
    requires js != [] && os != []
    ensures OperationsSay(codec, js, os) <==> OperationSays(codec, js[0], os[0]) && OperationsSay(codec, js[1..], os[1..])
  {
    if OperationsSay(codec, js, os) {
      forall i | 0 <= i < |js| - 1 ensures OperationSays(codec, js[1..][i], os[1..][i]) { assert OperationSays(codec, js[i + 1], os[i + 1]); }
    }
    if OperationSays(codec, js[0], os[0]) && OperationsSay(codec, js[1..], os[1..]) {
      forall i | 0 <= i < |js| ensures OperationSays(codec, js[i], os[i]) {
        if i > 0 { assert OperationSays(codec, js[1..][i - 1], os[1..][i - 1]); }
      }
    }
  }

  /** What an accepted document says: all of it but the invocation and the status may be left out. */
  ghost predicate Says(codec: Codec, j: Json, r: Report) {
    && j.Object? && Has(j.fields, "schema", Text(RESULT_SCHEMA))
    && Has(j.fields, "invocation_id", Text(r.invocation)) && r.invocation != ""
    && Has(j.fields, "status", Text(r.status)) && r.status in STATUSES
    && (exists js :: May(j.fields, "operations", List(js), List([])) && OperationsSay(codec, js, r.operations))
    && SaysRest(j.fields, r)
  }

  ghost predicate SaysRest(d: Doc, r: Report) {
    && May(d, "evidence_hash", Text(r.evidence), Text(""))
    && May(d, "cleanup_verified", Bool(r.cleaned), Bool(false))
    && May(d, "detail", Text(r.detail), Text(""))
  }

  lemma RestIff(d: Doc, operations: seq<Operation>, r: Report)
    requires "invocation_id" in d && d["invocation_id"].Text? && "status" in d && d["status"].Text?
    ensures ReadTail(d, operations) == Ok(r) <==>
            Has(d, "invocation_id", Text(r.invocation)) && Has(d, "status", Text(r.status)) && r.operations == operations && SaysRest(d, r)
  {
  }

  /** A result is accepted exactly when the document says it. */
  lemma ResultIff(codec: Codec, j: Json, r: Report)
    ensures FromJson(codec, j) == Ok(r) <==> Says(codec, j, r)
  {
    if j.Object? && GetOr(j.fields, "operations", List([])).List? {
      var js := GetOr(j.fields, "operations", List([])).items;
      OperationsIff(codec, js, r.operations);
      var read := ReadOperations(codec, js);
      if Get(j.fields, "invocation_id").Text? && Get(j.fields, "status").Text? && read.Ok? {
        RestIff(j.fields, read.value, r);
      }
      assert May(j.fields, "operations", List(js), List([]));
    }
  }
}
