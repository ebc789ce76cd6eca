/**
 The broker's requests: what each one does to the registry and what it answers.
 A `Turn` holds what one request meets in the world: who asks, the clock
 readings, the issuer's outcome and the new checkout's id.
 */
module ServiceSpec {
  import opened Base
  import opened RegistrySpec
  import opened JsonTree

  datatype Delivery = Delivery(rung: string, tool: Option<string>, hosts: seq<string>, username: Option<string>)

  datatype Cap = Cap(id: string, issuerKind: string, ttl: int, delivery: Delivery, assurance: string,
                     effective: string, meetsFloor: bool, harnesses: seq<string>)

  /** The served capabilities in the manifest's order, and how a session is named after its anchor process. */
  datatype Config = Config(caps: seq<Cap>, naming: (string, int, Option<int>) -> string)

  datatype FrontEnd = Git | Kube

  datatype Target = ById(capability: string) | ByMatch(tool: string, host: Option<string>)

  datatype Selector = All | OneCheckout(id: string) | OfCapability(target: Target)

  datatype Params =
    | CheckoutParams(target: Target, ttl: Option<int>)
    | RevokeParams(selector: Selector, ownSession: bool, dryRun: bool)
    | ListParams(capability: Option<string>, session: Option<string>)
    | StatusParams

  datatype Request = Request(params: Params, frontEnd: Option<FrontEnd>, session: Option<string>)

  datatype Attribution = Attribution(harness: string, anchorPid: Option<int>, anchorStart: Option<int>, source: string)

  datatype Issued = Issued(value: Fields, ttl: int, handle: Option<string>, accessor: Option<string>)

  datatype Code =
    UnknownCapability | NoMatch | HarnessNotAllowed | DeliveryMismatch | NotFound | NotImplemented | IssuerError | Internal

  datatype Turn = Turn(attr: Attribution, lookup: real, stamp: real, issued: Outcome<Issued, Code>, id: string)

  datatype Response = Answer(result: Doc, carriesSecret: bool) | Failure(code: Code)

  const MAX_TTL: int := 900
  const REUSE_MIN_REMAINING: real := 60.0

  // ---------------------------------------------------------------- capabilities

  function ByName(caps: seq<Cap>, id: string): (c: Option<Cap>)
    ensures c.Some? ==> c.value in caps && c.value.id == id
  {
    if caps == [] then None else if caps[0].id == id then Some(caps[0]) else ByName(caps[1..], id)
  }

  predicate Serves(c: Cap, tool: string, want: Option<string>) {
    && c.delivery.rung == "helper" && c.delivery.tool == Some(tool)
    && if c.delivery.hosts != [] then want.Some? && want.value in c.delivery.hosts else want.None?
  }

  function FirstServing(caps: seq<Cap>, tool: string, want: Option<string>): (c: Option<Cap>)
    ensures c.Some? ==> c.value in caps && Serves(c.value, tool, want)
  {
    if caps == [] then None
    else if Serves(caps[0], tool, want) then Some(caps[0])
    else FirstServing(caps[1..], tool, want)
  }

  /** An empty host is no host. */
  function Wanted(host: Option<string>): Option<string> {
    if host.Some? && host.value != [] then Some(Lower(host.value)) else None
  }

  function Resolve(config: Config, t: Target): (r: Outcome<Cap, Code>) {
    match t
    case ById(id) =>
      (match ByName(config.caps, id) case Some(c) => Ok(c) case None => Raised(UnknownCapability))
    case ByMatch(tool, host) =>
      (match FirstServing(config.caps, tool, Wanted(host)) case Some(c) => Ok(c) case None => Raised(NoMatch))
  }

  function SessionOf(config: Config, req: Request, attr: Attribution): string {
    if req.session.Some? then req.session.value
    else if attr.anchorPid.Some? then config.naming(attr.harness, attr.anchorPid.value, attr.anchorStart)
    else "adhoc-" + attr.harness
  }

  function Tool(f: FrontEnd): string {
    match f case Git => "git" case Kube => "kubectl"
  }

  // ---------------------------------------------------------------- answers

  function TextOrNull(s: Option<string>): Json {
    match s case None => Null case Some(t) => Text(t)
  }

  function NumOrNull(n: Option<int>): Json {
    match n case None => Null case Some(k) => Num(k as real)
  }

  /** The value-free form of a checkout: no value, no revocation handle, no anchor start. */
  function Meta(i: Info, pending: bool, live: bool): (d: Doc)
    ensures "value" !in d
  {
    map["id" := Text(i.id), "capability" := Text(i.capability), "harness" := Text(i.harness),
        "session" := Text(i.session), "issued_at" := Num(i.issuedAt), "expires_at" := Num(i.expiresAt)]
    + map["issuer_kind" := Text(i.issuerKind), "assurance" := Text(i.assurance),
        "anchor_pid" := NumOrNull(i.anchorPid), "revoke_pending" := Bool(pending),
        "accessor" := TextOrNull(i.accessor), "live" := Bool(live)]
  }

  function Metadata(e: Entry): (d: Doc) {
    Meta(e.info, e.pending, e.value.Some? && !e.pending)
  }

  function MetaList(es: seq<Entry>): Json {
    List(seq(|es|, i requires 0 <= i < |es| => Object(Metadata(es[i]))))
  }

  function ValueJson(v: Fields): Json {
    Object(map k | k in v :: Text(v[k]))
  }

  function Plain(e: Entry, reused: bool, source: string): (d: Doc)
    ensures "value" !in d
  {
    Metadata(e)["reused" := Bool(reused)]["harness_source" := Text(source)]
  }

  /** Only a helper front end is handed the value. */
  function CheckoutAnswer(e: Entry, v: Fields, reused: bool, source: string, helper: bool, username: Option<string>): (r: Response) {
    var plain := Plain(e, reused, source);
    if !helper then Answer(plain, false)
    else
      var handed := plain["value" := ValueJson(v)];
      Answer(if username.Some? then handed["username" := Text(username.value)] else handed, true)
  }

  function Status(config: Config, env: Env, r: Reg): (d: Doc)
    ensures "value" !in d
  {
    map["live_checkouts" := Num((|r.live| - CountPending(r.live)) as real),
        "revoke_pending" := Num(CountPending(r.live) as real),
        "capabilities" := List(seq(|config.caps|, i requires 0 <= i < |config.caps| => CapRow(env, config.caps[i])))]
  }

  function CapRow(env: Env, c: Cap): Json {
    Object(map["id" := Text(c.id), "issuer" := Text(c.issuerKind), "rung" := Text(c.delivery.rung),
               "tool" := TextOrNull(c.delivery.tool), "assurance" := Text(c.assurance),
               "effective_assurance" := Text(c.effective), "meets_floor" := Bool(c.meetsFloor),
               "issuer_available" := Bool(c.issuerKind in env.kinds)])
  }

  // ---------------------------------------------------------------- the value rule

  datatype Method = CheckoutMethod | OtherMethod

  function MethodOf(req: Request): Method {
    if req.params.CheckoutParams? then CheckoutMethod else OtherMethod
  }

  /** A value, and the mark that says so, only on a successful checkout answered to a helper. */
  predicate ShapeOk(asked: Method, frontEnd: Option<FrontEnd>, resp: Response) {
    var hasValue := resp.Answer? && "value" in resp.result;
    var marked := resp.Answer? && resp.carriesSecret;
    var allowed := asked.CheckoutMethod? && frontEnd.Some? && resp.Answer?;
    (hasValue ==> allowed && marked) && (marked ==> allowed && hasValue)
  }

  // ---------------------------------------------------------------- checkout

  /** The capability, when this caller may check it out. */
  function Permit(config: Config, env: Env, req: Request, target: Target, attr: Attribution): (r: Outcome<Cap, Code>) {
    match Resolve(config, target)
    case Raised(code) => Raised(code)
    case Ok(cap) =>
      if cap.harnesses != [] && attr.harness !in cap.harnesses then Raised(HarnessNotAllowed)
      else if req.frontEnd.Some? && (cap.delivery.rung != "helper" || cap.delivery.tool != Some(Tool(req.frontEnd.value)))
      then Raised(DeliveryMismatch)
      else if cap.issuerKind !in env.kinds then Raised(IssuerError)
      else Ok(cap)
  }

  function Ttl(cap: Cap, asked: Option<int>): int {
    if asked.None? || cap.ttl <= asked.value then cap.ttl else asked.value
  }

  function MinRemaining(ttl: int): real {
    if ttl as real / 4.0 < REUSE_MIN_REMAINING then ttl as real / 4.0 else REUSE_MIN_REMAINING
  }

  function Lifetime(ttl: int, issued: int): int {
    var least := if ttl <= issued then ttl else issued;
    if least >= 1 then least else 1
  }

  function Fresh(cap: Cap, session: string, ttl: int, turn: Turn, issued: Issued): Entry {
    Entry(Info(turn.id, cap.id, turn.attr.harness, session, turn.stamp,
               turn.stamp + Lifetime(ttl, issued.ttl) as real, cap.issuerKind, cap.effective,
               issued.handle, issued.accessor, turn.attr.anchorPid, turn.attr.anchorStart),
          false, Some(issued.value))
  }

  function CheckoutFresh(env: Env, r: Reg, cap: Cap, session: string, ttl: int, helper: bool, turn: Turn): (out: (Reg, Response)) {
    match turn.issued
    case Raised(code) => (r, Failure(code))
    case Ok(issued) =>
      var e := Fresh(cap, session, ttl, turn, issued);
      var (r1, saved) := Add(env, r, e);
      if saved.Raised? then (r1, Failure(Internal))
      else (r1, CheckoutAnswer(e, issued.value, false, turn.attr.source, helper, cap.delivery.username))
  }

  function CheckoutCap(config: Config, env: Env, r: Reg, req: Request, cap: Cap, asked: Option<int>, turn: Turn): (out: (Reg, Response)) {
    var session := SessionOf(config, req, turn.attr);
    var ttl := Ttl(cap, asked);
    match FindReusable(r.live, cap.id, session, turn.attr.harness, turn.lookup, MinRemaining(ttl))
    case Some(e) =>
      (r, CheckoutAnswer(e, if e.value.Some? then e.value.value else map[], true, turn.attr.source,
                         req.frontEnd.Some?, cap.delivery.username))
    case None => CheckoutFresh(env, r, cap, session, ttl, req.frontEnd.Some?, turn)
  }

  function Checkout(config: Config, env: Env, r: Reg, req: Request, target: Target, asked: Option<int>, turn: Turn)
    : (out: (Reg, Response))
  {
    match Permit(config, env, req, target, turn.attr)
    case Raised(code) => (r, Failure(code))
    case Ok(cap) => CheckoutCap(config, env, r, req, cap, asked, turn)
  }

  // ---------------------------------------------------------------- selection and revocation

  function Select(live: seq<Entry>, id: Option<string>, capability: Option<string>, session: Option<string>): (es: seq<Entry>) {
    SortByIssue(Chosen(live, id, capability, session))
  }

  predicate Chooses(i: Info, id: Option<string>, capability: Option<string>, session: Option<string>) {
    (id.Some? ==> i.id == id.value) && (capability.Some? ==> i.capability == capability.value) &&
    (session.Some? ==> i.session == session.value)
  }

  function Chosen(live: seq<Entry>, id: Option<string>, capability: Option<string>, session: Option<string>): (es: seq<Entry>) {
    if live == [] then []
    else (if Chooses(live[0].info, id, capability, session) then [live[0]] else []) + Chosen(live[1..], id, capability, session)
  }

  /** A stable sort: an entry goes before the first one issued later. */
  function SortByIssue(es: seq<Entry>): (s: seq<Entry>) {
    if es == [] then [] else InsertByIssue(es[0], SortByIssue(es[1..]))
  }

  function InsertByIssue(e: Entry, s: seq<Entry>): (r: seq<Entry>) {
    if s == [] || e.info.issuedAt <= s[0].info.issuedAt then [e] + s else [s[0]] + InsertByIssue(e, s[1..])
  }

  function RevokeTargets(config: Config, r: Reg, req: Request, p: Params, turn: Turn): (t: Outcome<seq<Entry>, Code>)
    requires p.RevokeParams?
  {
    var session := if p.ownSession then Some(SessionOf(config, req, turn.attr)) else None;
    match p.selector
    case All => Ok(Select(r.live, None, None, session))
    case OneCheckout(id) =>
      var found := Select(r.live, Some(id), None, session);
      if found == [] then Raised(NotFound) else Ok(found)
    case OfCapability(target) =>
      match Resolve(config, target)
      case Raised(code) => Raised(code)
      case Ok(cap) => Ok(Select(r.live, None, Some(cap.id), session))
  }

  function Texts(ids: seq<string>): Json {
    List(seq(|ids|, i requires 0 <= i < |ids| => Text(ids[i])))
  }

  function Without(ids: seq<string>, done: seq<string>): (rest: seq<string>)
    ensures forall q :: q in rest <==> q in ids && q !in done
  {
    if ids == [] then []
    else
      assert forall q :: q in ids <==> q == ids[0] || q in ids[1..];
      (if ids[0] in done then [] else [ids[0]]) + Without(ids[1..], done)
  }

  function RevokedAnswer(ids: seq<string>, done: seq<string>): (r: Response) {
    Answer(map["dry_run" := Bool(false), "revoked" := Texts(done), "pending" := Texts(Without(ids, done))], false)
  }

  function DryRunAnswer(targets: seq<Entry>): (r: Response) {
    Answer(map["dry_run" := Bool(true), "would_revoke" := MetaList(targets)], false)
  }

  function RevokeNamed(env: Env, r: Reg, ids: seq<string>): (out: (Reg, Response)) {
    var (r1, done) := Revoke(env, r, ids, "requested");
    (r1, if done.Raised? then Failure(Internal) else RevokedAnswer(ids, done.value))
  }

  function RevokeRequest(config: Config, env: Env, r: Reg, req: Request, p: Params, turn: Turn): (out: (Reg, Response))
    requires p.RevokeParams?
  {
    match RevokeTargets(config, r, req, p, turn)
    case Raised(code) => (r, Failure(code))
    case Ok(targets) => if p.dryRun then (r, DryRunAnswer(targets)) else RevokeNamed(env, r, Ids(targets))
  }

  function ListAnswer(r: Reg, capability: Option<string>, session: Option<string>): (a: Response) {
    Answer(map["checkouts" := MetaList(Select(r.live, None, capability, session))], false)
  }

  function Dispatch(config: Config, env: Env, r: Reg, req: Request, turn: Turn): (out: (Reg, Response)) {
    match req.params
    case CheckoutParams(target, ttl) => Checkout(config, env, r, req, target, ttl, turn)
    case RevokeParams(_, _, _) => RevokeRequest(config, env, r, req, req.params, turn)
    case ListParams(capability, session) => (r, ListAnswer(r, capability, session))
    case StatusParams => (r, Answer(Status(config, env, r), false))
  }

  /** What leaves the process: the answer, unless the value rule refuses it. */
  function Respond(config: Config, env: Env, r: Reg, req: Request, turn: Turn): (out: (Reg, Response)) {
    var (r1, resp) := Dispatch(config, env, r, req, turn);
    (r1, if ShapeOk(MethodOf(req), req.frontEnd, resp) then resp else Failure(Internal))
  }

  // ---------------------------------------------------------------- whole runs

  datatype Happening =
    | Ask(req: Request, turn: Turn)
    | ReapTurn(now: real, alive: (int, Option<int>) -> bool)
    | Restart
    | Shutdown

  function Happen(config: Config, env: Env, r: Reg, h: Happening): (out: (Reg, Option<Response>)) {
    match h
    case Ask(req, turn) =>
      var (r1, resp) := Respond(config, env, r, req, turn);
      (r1, Some(resp))
    case ReapTurn(now, alive) => (Reap(env, r, now, alive).0, None)
    case Restart => (Recover(env, Crash(r)).0, None)
    case Shutdown => (RevokeAll(env, r, "shutdown").0, None)
  }

  function Run(config: Config, env: Env, r: Reg, hs: seq<Happening>): (out: (Reg, seq<Option<Response>>))
    decreases |hs|
  {
    if hs == [] then (r, [])
    else
      var (r1, a) := Happen(config, env, r, hs[0]);
      var (r2, as_) := Run(config, env, r1, hs[1..]);
      (r2, [a] + as_)
  }
}
