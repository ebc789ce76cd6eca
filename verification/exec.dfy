/**
 Exec checkout: plan the child's environment names, announce, resolve, inject,
 run the child, and report how it ended.
 */
module ExecSpec {
  import opened Base
  import opened JsonTree

  type Env = map<string, string>

  /** Which environment name each field is injected under. */
  type Plan = map<string, string>

  /** A resolved selection, in the resolver's order; no field twice. */
  type Pairs = seq<(string, string)>

  datatype Cap = Cap(id: string, provider: string, options: Doc)

  datatype Source = FromEnv | FromVault | FromSuite

  datatype Error =
    | NoCommand | NotCred | SuiteNotComposable | Repeated | BadSource | BadCommand | BadNaming | BadId | NoSelection
    | NestedReceipt | BadName | Reserved | Duplicate | Inherited | TooLong | Unresolved | Mismatch | BadSuite | NoBrowser
    | NotLaunched | Interrupted | NoResult | EmitFailed

  /**
   How a child ended: with an exit code, with an error the path expects (the
   launch failed; on the suite path also a timeout or lost containment), or with
   any other exception.
   */
  datatype Ended = Exited(code: int) | LaunchFailed | Broken

  /** One provenance record. A terminal one names the variables it claims were injected. */
  datatype Event = Started(target: string) | Terminal(target: string, applied: bool, injected: set<string>)

  datatype World = World(
    environ: Env,
    codec: Codec,
    upper: string -> string,
    trusted: Cap -> Option<seq<string>>,          // the qualified command, when it is well formed
    resolve: Cap -> Option<Pairs>,                // None when the resolver raises
    suite: Cap -> Option<(seq<string>, Json)>,    // a suite's fields and names, when it is well formed
    browser: Cap -> Option<Env>,                  // the variables that hand over a browser
    run: (seq<string>, Env) -> Ended,
    emits: nat -> bool,                           // whether the n-th provenance write returns
    wrote: nat -> bool,                           // one that raises has written its line nevertheless
    // whether an exception arrives: between the start record and the try block; before the n-th statement of
    // the try block, or after the last one; in the finally block before the record; after the record
    gap: bool, interrupts: nat -> bool, cleanup: bool, late: bool,
    invocation: string, issued: string, expires: string)

  /** What one exec did: the records written, the resolver calls, the environment a child was given, and how it ended. */
  datatype Exec = Exec(events: seq<Event>, resolved: seq<string>, child: Option<Env>, result: Outcome<int, Error>)

  // Built in two halves: one long literal is slow to reason about.
  const RECEIPT: string := "ACB_CHECKOUT" + "_RECEIPT"
  const RECEIPT_SCHEMA: string := "acb.checkout-" + "receipt.v1"
  const MAX_RECEIPT_BYTES: nat := 16 * 1024

  const RESERVED: set<string> :=
    {"CODEX_HOME", "COMSPEC", "HOME", "LANG", "LC_ALL", "LC_CTYPE", "LOGNAME", "PATH", "PATHEXT", "PYTHONHOME",
     "PYTHONPATH", RECEIPT, "SHELL", "SYSTEMROOT", "TEMP", "TMP", "USER", "USERNAME", "USERPROFILE", "WINDIR"}

  const SUITE_ALLOWED: set<string> := {"LANG", "LC_ALL", "SYSTEMROOT", "TEMP", "TMP", "TZ", "WINDIR"}

  // ---------------------------------------------------------------- names

  predicate EnvName(s: string) {
    1 <= |s| <= 64 && 'A' <= s[0] <= 'Z' &&
    forall i :: 1 <= i < |s| ==> 'A' <= s[i] <= 'Z' || '0' <= s[i] <= '9' || s[i] == '_'
  }

  predicate ReceiptId(s: string) {
    && 6 <= |s| <= 68 && s[..5] == "cred:" && 'a' <= s[5] <= 'z'
    && forall i :: 6 <= i < |s| ==> 'a' <= s[i] <= 'z' || '0' <= s[i] <= '9' || s[i] == '-'
  }

  /** Upper-casing leaves a valid environment name alone. */
  ghost predicate Upper(upper: string -> string) {
    forall s :: EnvName(s) ==> upper(s) == s
  }

  function Folded(w: World, names: set<string>): set<string> {
    set n | n in names :: w.upper(n)
  }

  function InjectVar(w: World, field: string, mapping: Json, prefix: Json): string {
    if mapping.Object? && NonEmptyText(Get(mapping.fields, field)) then Get(mapping.fields, field).s
    else if NonEmptyText(prefix) then prefix.s + "_" + w.upper(field)
    else w.upper(field)
  }

  predicate NamingOk(cap: Cap) {
    (Get(cap.options, "inject").Null? || Get(cap.options, "inject").Object?) &&
    (Get(cap.options, "env_prefix").Null? || Get(cap.options, "env_prefix").Text?)
  }

  predicate DeclaresNaming(cap: Cap) {
    (Get(cap.options, "inject").Object? && Get(cap.options, "inject").fields != map[]) || NonEmptyText(Get(cap.options, "env_prefix"))
  }

  function SourceKind(cap: Cap): Outcome<Source, Error> {
    if "source" !in cap.options || cap.options["source"] == Text("vault") then Ok(FromVault)
    else if cap.options["source"] == Text("env") then Ok(FromEnv)
    else if cap.options["source"] == Text("suite") then Ok(FromSuite)
    else Raised(BadSource)
  }

  function Shown(w: World, items: seq<Json>): (s: seq<string>) {
    seq(|items|, i requires 0 <= i < |items| => Str(w.codec, items[i]))
  }

  function DeclaredFields(w: World, cap: Cap): Outcome<seq<string>, Error> {
    match SourceKind(cap)
    case Raised(e) => Raised(e)
    case Ok(FromEnv) => Ok([if "field" in cap.options then Str(w.codec, cap.options["field"]) else "password"])
    case Ok(_) =>
      if "fields" in cap.options then
        if cap.options["fields"].List? then Ok(Shown(w, cap.options["fields"].items)) else Raised(NoSelection)
      else if Get(cap.options, "field").Text? then Ok([cap.options["field"].s])
      else Raised(NoSelection)
  }

  // ---------------------------------------------------------------- planning

  function Refused(w: World, name: string, used: set<string>, inherited: set<string>): (e: Option<Error>) {
    if !EnvName(name) then Some(BadName)
    else if w.upper(name) in RESERVED then Some(Reserved)
    else if w.upper(name) in used then Some(Duplicate)
    else if w.upper(name) in inherited then Some(Inherited)
    else None
  }

  function PlanFields(w: World, fields: seq<string>, mapping: Json, prefix: Json, used: set<string>, inherited: set<string>)
    : (r: Outcome<(Plan, set<string>), Error>)
    decreases |fields|
  {
    if fields == [] then Ok((map[], used))
    else
      var n := |fields| - 1;
      match PlanFields(w, fields[..n], mapping, prefix, used, inherited)
      case Raised(e) => Raised(e)
      case Ok(front) =>
        var name := InjectVar(w, fields[n], mapping, prefix);
        match Refused(w, name, front.1, inherited)
        case Some(e) => Raised(e)
        case None => Ok((front.0[fields[n] := name], front.1 + {w.upper(name)}))
  }

  function InjectionPlan(w: World, cap: Cap, fields: seq<string>, mapping: Json, used: set<string>, inherited: set<string>)
    : (r: Outcome<(Plan, set<string>), Error>)
  {
    if RECEIPT in inherited then Raised(NestedReceipt)
    else PlanFields(w, fields, mapping, Get(cap.options, "env_prefix"), used, inherited)
  }

  function CapPlan(w: World, cap: Cap, used: set<string>, inherited: set<string>): (r: Outcome<(Plan, set<string>), Error>) {
    if !NamingOk(cap) then Raised(BadNaming)
    else if !ReceiptId(cap.id) then Raised(BadId)
    else match DeclaredFields(w, cap)
      case Raised(e) => Raised(e)
      case Ok(fields) => InjectionPlan(w, cap, fields, Get(cap.options, "inject"), used, inherited)
  }

  function PlanAll(w: World, caps: seq<Cap>, used: set<string>, inherited: set<string>): (r: Outcome<seq<Plan>, Error>)
    ensures r.Ok? ==> |r.value| == |caps|
    decreases |caps|
  {
    if caps == [] then Ok([])
    else match CapPlan(w, caps[0], used, inherited)
      case Raised(e) => Raised(e)
      case Ok(first) =>
        match PlanAll(w, caps[1..], first.1, inherited)
        case Raised(e) => Raised(e)
        case Ok(rest) => Ok([first.0] + rest)
  }

  function Vars(plans: seq<Plan>): (s: set<string>) {
    if plans == [] then {} else plans[0].Values + Vars(plans[1..])
  }

  // ---------------------------------------------------------------- the receipt

  function FieldsJson(plan: Plan): Json {
    Object(map f | f in plan :: Text(plan[f]))
  }

  function CheckoutJson(id: string, plan: Plan): Json {
    Object(map["capability_id" := Text(id), "fields" := FieldsJson(plan)])
  }

  function CheckoutRows(ids: seq<string>, plans: seq<Plan>): (rows: seq<Json>)
    requires |ids| == |plans|
    ensures |rows| == |ids|
  {
    seq(|ids|, i requires 0 <= i < |ids| => CheckoutJson(ids[i], plans[i]))
  }

  function ReceiptTree(w: World, rows: seq<Json>): Json {
    Object(map["schema" := Text(RECEIPT_SCHEMA), "invocation_id" := Text(w.invocation), "issued_at" := Text(w.issued),
               "expires_at" := Text(w.expires), "checkouts" := List(rows)])
  }

  function Receipt(w: World, rows: seq<Json>): string {
    w.codec.dumps(ReceiptTree(w, rows))
  }

  // ---------------------------------------------------------------- resolving and injecting

  function Named(ps: Pairs): (s: set<string>) {
    set p | p in ps :: p.0
  }

  function Inject(env: Env, plan: Plan, ps: Pairs): (r: Env)
    requires Named(ps) <= plan.Keys
    decreases |ps|
  {
    if ps == [] then env
    else
      var n := |ps| - 1;
      assert ps[n].0 in Named(ps);
      assert Named(ps[..n]) <= Named(ps);
      Inject(env, plan, ps[..n])[plan[ps[n].0] := ps[n].1]
  }

  function ResolveAll(w: World, caps: seq<Cap>, plans: seq<Plan>, env: Env): (r: Outcome<Env, Error>)
    requires |caps| == |plans|
    decreases |caps|
  {
    if caps == [] then Ok(env)
    else match w.resolve(caps[0])
      case None => Raised(Unresolved)
      case Some(ps) =>
        if Named(ps) != plans[0].Keys then Raised(Mismatch)
        else ResolveAll(w, caps[1..], plans[1..], Inject(env, plans[0], ps))
  }

  // ---------------------------------------------------------------- the try block

  /** A terminal record as it would be written now. */
  datatype Standing = Standing(applied: bool, injected: set<string>)

  /** The local variables of a path. */
  datatype Local = Local(
    env: Env, fields: Pairs, plan: Plan, receipt: string, resolved: seq<string>,
    child: Option<Env>,         // the environment the child was started with
    completed: Option<int>,     // the child's exit code, once it has ended
    result: Option<int>, pending: Option<Error>,
    action: set<string>,        // the variables the terminal action names
    terminal: Standing)

  /** The statements of the try blocks. Any of them may be cut short before it starts. */
  datatype Stmt =
    | CopyEnv
    | Resolve(cap: Cap)
    | Compare(plan: Plan)
    | InjectAs(plan: Plan)
    | PlanBare
    | InjectBare
    | MakeReceipt(id: string)
    | CopyAllowed(plan: Plan)
    | SetReceipt
    | Claim(names: set<string>)
    | ClaimBare
    | RunChild
    | Record

  function Failed(l: Local): Local {
    l.(terminal := Standing(false, l.action))
  }

  function InjectInto(l: Local, plan: Plan): (r: (Local, Option<Error>)) {
    if Named(l.fields) <= plan.Keys then (l.(env := Inject(l.env, plan, l.fields)), None) else (l, Some(Mismatch))
  }

  /** One statement: the local variables after it, and the exception it raises if any. */
  function Execute(w: World, argv: seq<string>, l: Local, st: Stmt): (r: (Local, Option<Error>)) {
    match st
    case CopyEnv => (l.(env := w.environ), None)
    case Resolve(cap) =>
      var asked := l.(resolved := l.resolved + [cap.id]);
      (match w.resolve(cap) case None => (Failed(asked), Some(Unresolved)) case Some(ps) => (asked.(fields := ps), None))
    case Compare(plan) => if Named(l.fields) != plan.Keys then (Failed(l), Some(Mismatch)) else (l, None)
    case InjectAs(plan) => InjectInto(l, plan)
    case PlanBare => (l.(plan := BarePlan(w, l.fields)), None)
    case InjectBare => InjectInto(l, l.plan)
    case MakeReceipt(id) =>
      var receipt := Receipt(w, [CheckoutJson(id, l.plan)]);
      if |receipt| > MAX_RECEIPT_BYTES then (Failed(l), Some(TooLong)) else (l.(receipt := receipt), None)
    case CopyAllowed(plan) => (l.(env := SuiteEnv(w, plan, l.fields)), None)
    case SetReceipt => (l.(env := l.env[RECEIPT := l.receipt]), None)
    case Claim(names) => (l.(action := names), None)
    case ClaimBare => (l.(action := l.plan.Values), None)
    case RunChild => ExecuteChild(w, argv, l)
    case Record =>
      if l.completed == None then (l, None)
      else (l.(result := l.completed, terminal := Standing(l.completed == Some(0), l.action)), None)
  }

  function ExecuteChild(w: World, argv: seq<string>, l: Local): (r: (Local, Option<Error>)) {
    var started := l.(child := Some(l.env));
    match w.run(argv, l.env)
    case Exited(code) => (started.(completed := Some(code)), None)
    case LaunchFailed => (Failed(started).(pending := Some(NotLaunched)), None)
    case Broken => (started, Some(Interrupted))
  }

  /** The statements in order, from number `k` on, up to the first exception. */
  function RunBody(w: World, argv: seq<string>, l: Local, body: seq<Stmt>, k: nat): (r: (Local, Option<Error>))
    decreases |body|
  {
    if body == [] then (l, None)
    else if w.interrupts(k) then (l, Some(Interrupted))
    else
      var (l1, e) := Execute(w, argv, l, body[0]);
      if e.Some? then (l1, e) else RunBody(w, argv, l1, body[1..], k + 1)
  }

  /** The whole try block: an exception may also arrive after its last statement. */
  function Try(w: World, argv: seq<string>, l: Local, body: seq<Stmt>): (r: (Local, Option<Error>)) {
    var (l1, e) := RunBody(w, argv, l, body, 0);
    (l1, if e.None? && w.interrupts(|body|) then Some(Interrupted) else e)
  }

  /** The n-th provenance record is in the log, whether or not its write returned. */
  predicate Lands(w: World, n: nat) {
    w.emits(n) || w.wrote(n)
  }

  /** What the path returns or raises after its try block. */
  function Returned(l: Local, raised: Option<Error>): Outcome<int, Error> {
    if raised.Some? then Raised(raised.value)
    else if l.pending.Some? then Raised(l.pending.value)
    else if l.result.Some? then Ok(l.result.value) else Raised(NoResult)
  }

  function Report(w: World, target: string, l: Local): (events: seq<Event>) {
    [Started(target)] + if !w.cleanup && Lands(w, 1) then [Terminal(target, l.terminal.applied, l.terminal.injected)] else []
  }

  /** The `finally` block writes the terminal record as it then stands; what it raises replaces whatever was under way. */
  function Finally(w: World, target: string, l: Local, raised: Option<Error>): (x: Exec) {
    Exec(Report(w, target, l), l.resolved, l.child,
         if w.cleanup then Raised(Interrupted)
         else if !w.emits(1) then Raised(EmitFailed)
         else if w.late then Raised(Interrupted)
         else Returned(l, raised))
  }

  /** Before the try block: nothing resolved, and a terminal record that says interrupted. */
  function Before(env: Env, receipt: string, names: set<string>): Local {
    Local(env, [], map[], receipt, [], None, None, None, None, names, Standing(false, names))
  }

  /** Announce, try, and report. */
  function Perform(w: World, target: string, argv: seq<string>, start: Local, body: seq<Stmt>): (x: Exec) {
    if !w.emits(0) then Exec(if w.wrote(0) then [Started(target)] else [], [], None, Raised(EmitFailed))
    else if w.gap then Exec([Started(target)], [], None, Raised(Interrupted))
    else
      var (l, raised) := Try(w, argv, start, body);
      Finally(w, target, l, raised)
  }

  function Refuse(e: Error): (x: Exec) {
    Exec([], [], None, Raised(e))
  }

  function Ids(caps: seq<Cap>): (ids: seq<string>)
    ensures |ids| == |caps|
  {
    seq(|caps|, i requires 0 <= i < |caps| => caps[i].id)
  }

  function Join(ids: seq<string>): string {
    if ids == [] then "" else if |ids| == 1 then ids[0] else ids[0] + "+" + Join(ids[1..])
  }

  // ---------------------------------------------------------------- the strict path

  function CapStmts(cap: Cap, plan: Plan): (body: seq<Stmt>) {
    [Resolve(cap), Compare(plan), InjectAs(plan)]
  }

  function CapsBody(caps: seq<Cap>, plans: seq<Plan>): (body: seq<Stmt>)
    requires |caps| == |plans|
  {
    if caps == [] then [] else CapStmts(caps[0], plans[0]) + CapsBody(caps[1..], plans[1..])
  }

  function StrictBody(caps: seq<Cap>, plans: seq<Plan>): (body: seq<Stmt>)
    requires |caps| == |plans|
  {
    [CopyEnv] + CapsBody(caps, plans) + [SetReceipt, Claim(Vars(plans))] + [RunChild, Record]
  }

  function ExecPlanned(w: World, caps: seq<Cap>, argv: seq<string>, plans: seq<Plan>): (x: Exec)
    requires |caps| == |plans|
  {
    var receipt := Receipt(w, CheckoutRows(Ids(caps), plans));
    if |receipt| > MAX_RECEIPT_BYTES then Refuse(TooLong)
    else Perform(w, Join(Ids(caps)), argv, Before(map[], receipt, {}), StrictBody(caps, plans))
  }

  function ExecStrict(w: World, caps: seq<Cap>, argv: seq<string>): (x: Exec) {
    match PlanAll(w, caps, {}, Folded(w, w.environ.Keys))
    case Raised(e) => Refuse(e)
    case Ok(plans) => ExecPlanned(w, caps, argv, plans)
  }

  /** The first objection to a composed checkout, in the capabilities' order. */
  function Objection(w: World, caps: seq<Cap>, argv: seq<string>, seen: set<string>): (e: Option<Error>)
    decreases |caps|
  {
    if caps == [] then None
    else
      var cap := caps[0];
      if cap.provider != "cred" then Some(NotCred)
      else match SourceKind(cap)
        case Raised(e) => Some(e)
        case Ok(source) =>
          if source == FromSuite then Some(SuiteNotComposable)
          else if cap.id in seen then Some(Repeated)
          else if w.trusted(cap) != Some(argv) then Some(BadCommand)
          else Objection(w, caps[1..], argv, seen + {cap.id})
  }

  function ExecComposed(w: World, caps: seq<Cap>, argv: seq<string>): (x: Exec) {
    if argv == [] then Refuse(NoCommand)
    else match Objection(w, caps, argv, {})
      case Some(e) => Refuse(e)
      case None => ExecStrict(w, caps, argv)
  }

  // ---------------------------------------------------------------- the bare path

  function BarePlan(w: World, ps: Pairs): (plan: Plan)
    ensures plan.Keys == Named(ps)
  {
    map f | f in Named(ps) :: w.upper(f)
  }

  function BareBody(cap: Cap): (body: seq<Stmt>) {
    [Resolve(cap), PlanBare, CopyEnv, InjectBare, MakeReceipt(cap.id), SetReceipt, ClaimBare] + [RunChild, Record]
  }

  function ExecBare(w: World, cap: Cap, argv: seq<string>): (x: Exec) {
    Perform(w, cap.id, argv, Before(map[], "", {}), BareBody(cap))
  }

  // ---------------------------------------------------------------- the suite path

  function SuiteEnv(w: World, plan: Plan, ps: Pairs): (env: Env) {
    map n | n in w.environ && w.upper(n) in SUITE_ALLOWED && w.upper(n) !in Folded(w, plan.Values) + Folded(w, Named(ps)) :: w.environ[n]
  }

  function ExecSuite(w: World, cap: Cap, argv: seq<string>): (x: Exec) {
    match w.suite(cap)
    case None => Refuse(BadSuite)
    case Some(spec) =>
      match InjectionPlan(w, cap, spec.0, spec.1, {}, Folded(w, w.environ.Keys))
      case Raised(e) => Refuse(e)
      case Ok((plan, _)) => SuitePlanned(w, cap, argv, plan)
  }

  function SuiteBody(cap: Cap, plan: Plan): (body: seq<Stmt>) {
    [Resolve(cap), CopyAllowed(plan), InjectAs(plan), SetReceipt] + [RunChild, Record]
  }

  /** The records of a suite run name its variables from the start: they are what the child will receive. */
  function SuitePlanned(w: World, cap: Cap, argv: seq<string>, plan: Plan): (x: Exec) {
    Perform(w, cap.id, argv, Before(map[], Receipt(w, [CheckoutJson(cap.id, plan)]), plan.Values), SuiteBody(cap, plan))
  }

  // ---------------------------------------------------------------- the providers

  function ExecCred(w: World, cap: Cap, argv: seq<string>): (x: Exec) {
    if argv == [] then Refuse(NoCommand)
    else match SourceKind(cap)
      case Raised(e) => Refuse(e)
      case Ok(source) =>
        if w.trusted(cap) != Some(argv) then Refuse(BadCommand)
        else if source == FromSuite then ExecSuite(w, cap, argv)
        else if !NamingOk(cap) then Refuse(BadNaming)
        else if DeclaresNaming(cap) then ExecStrict(w, [cap], argv)
        else ExecBare(w, cap, argv)
  }

  function ExecE2e(w: World, cap: Cap, argv: seq<string>): (x: Exec) {
    if argv == [] then Refuse(NoCommand)
    else match w.browser(cap)
      case None => Refuse(NoBrowser)
      case Some(handles) =>
        Perform(w, cap.id, argv, Before(w.environ + handles, "", {}), [] + [RunChild, Record])
  }
}
