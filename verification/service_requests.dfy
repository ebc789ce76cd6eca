/** What each request is answered and what it does, in the request's own terms. */
module ServiceRequests {
  import opened Base
  import opened RegistrySpec
  import opened RegistryTheorems
  import opened JsonTree
  import opened ServiceSpec
  import opened ServiceTheorems

  // ---------------------------------------------------------------- the capability a request names

  /** A helper hands this capability to the tool, for this host, or for none if the capability names no hosts. */
  ghost predicate Delivers(c: Cap, tool: string, host: Option<string>) {
    var anyHost := host == None || host == Some("");
    c.delivery.rung == "helper" && c.delivery.tool == Some(tool) &&
    if c.delivery.hosts == [] then anyHost else !anyHost && Lower(host.value) in c.delivery.hosts
  }

  ghost predicate Fits(target: Target, c: Cap) {
    match target
    case ById(id) => c.id == id
    case ByMatch(tool, host) => Delivers(c, tool, host)
  }

  /** The first capability, in the manifest's order, that fits. */
  ghost predicate Names(caps: seq<Cap>, target: Target, k: int) {
    0 <= k < |caps| && Fits(target, caps[k]) && forall j :: 0 <= j < k ==> !Fits(target, caps[j])
  }

  function Unnamed(target: Target): Code {
    match target case ById(_) => UnknownCapability case ByMatch(_, _) => NoMatch
  }

  lemma {:induction false} ByNameIs(caps: seq<Cap>, id: string)
    ensures match ByName(caps, id)
            case Some(c) => exists k :: Names(caps, ById(id), k) && c == caps[k]
            case None => forall k :: 0 <= k < |caps| ==> !Fits(ById(id), caps[k])
  {
    if caps != [] {
      if caps[0].id == id {
        assert Names(caps, ById(id), 0);
      } else {
        ByNameIs(caps[1..], id);
        LaterNames(caps, ById(id));
      }
    }
  }

  lemma {:induction false} FirstServingIs(caps: seq<Cap>, tool: string, host: Option<string>)
    ensures match FirstServing(caps, tool, Wanted(host))
            case Some(c) => exists k :: Names(caps, ByMatch(tool, host), k) && c == caps[k]
            case None => forall k :: 0 <= k < |caps| ==> !Fits(ByMatch(tool, host), caps[k])
  {
    if caps != [] {
      if Delivers(caps[0], tool, host) {
        assert Names(caps, ByMatch(tool, host), 0);
      } else {
        FirstServingIs(caps[1..], tool, host);
        LaterNames(caps, ByMatch(tool, host));
      }
    }
  }

  lemma LaterNames(caps: seq<Cap>, target: Target)
    requires caps != [] && !Fits(target, caps[0])
    ensures forall k :: Names(caps[1..], target, k) ==> Names(caps, target, k + 1) && caps[1..][k] == caps[k + 1]
    ensures (forall k :: 0 <= k < |caps[1..]| ==> !Fits(target, caps[1..][k])) ==> forall k :: 0 <= k < |caps| ==> !Fits(target, caps[k])
  {
    forall k | Names(caps[1..], target, k) ensures Names(caps, target, k + 1) {
      forall j | 0 <= j < k + 1 ensures !Fits(target, caps[j]) {
        if j > 0 { assert caps[j] == caps[1..][j - 1]; }
      }
    }
  }

  lemma ResolveIs(config: Config, target: Target)
    ensures match Resolve(config, target)
            case Ok(c) => exists k :: Names(config.caps, target, k) && c == config.caps[k]
            case Raised(code) => code == Unnamed(target) && forall k :: 0 <= k < |config.caps| ==> !Fits(target, config.caps[k])
  {
    match target
    case ById(id) => ByNameIs(config.caps, id);
    case ByMatch(tool, host) => FirstServingIs(config.caps, tool, host);
  }

  lemma NamesOne(caps: seq<Cap>, target: Target, j: int, k: int)
    requires Names(caps, target, j) && Names(caps, target, k)
    ensures j == k
  {
  }

  // ---------------------------------------------------------------- who may check it out

  predicate HarnessListed(c: Cap, harness: string) {
    c.harnesses == [] || harness in c.harnesses
  }

  /** A front end is handed only what its own tool's helper delivers. */
  predicate HandedBy(c: Cap, frontEnd: Option<FrontEnd>) {
    match frontEnd
    case None => true
    case Some(Git) => c.delivery.rung == "helper" && c.delivery.tool == Some("git")
    case Some(Kube) => c.delivery.rung == "helper" && c.delivery.tool == Some("kubectl")
  }

  /**
   Who is let through. A checkout request is answered only for a capability that
   it names, whose allowlist is empty or has the caller's harness, that the asking
   front end's helper delivers, and whose issuer is there; otherwise nothing
   changes, and the failure is the first of these tests, in this order, to fail.
   */
  lemma CheckoutAdmits(config: Config, env: Env, r: Reg, req: Request, turn: Turn)
    requires req.params.CheckoutParams?
    ensures var (r1, resp) := Dispatch(config, env, r, req, turn);
      && ((forall k :: 0 <= k < |config.caps| ==> !Fits(req.params.target, config.caps[k])) ==>
            r1 == r && resp == Failure(Unnamed(req.params.target)))
      && (forall k :: Names(config.caps, req.params.target, k) ==>
            var cap := config.caps[k];
            && (!HarnessListed(cap, turn.attr.harness) ==> r1 == r && resp == Failure(HarnessNotAllowed))
            && (HarnessListed(cap, turn.attr.harness) && !HandedBy(cap, req.frontEnd) ==> r1 == r && resp == Failure(DeliveryMismatch))
            && (HarnessListed(cap, turn.attr.harness) && HandedBy(cap, req.frontEnd) && cap.issuerKind !in env.kinds ==>
                  r1 == r && resp == Failure(IssuerError)))
      && (resp.Answer? ==>
            exists k :: Names(config.caps, req.params.target, k) && HarnessListed(config.caps[k], turn.attr.harness) &&
                        HandedBy(config.caps[k], req.frontEnd) && config.caps[k].issuerKind in env.kinds)
  {
    var target := req.params.target;
    ResolveIs(config, target);
    if Resolve(config, target).Ok? {
      var k :| Names(config.caps, target, k) && Resolve(config, target).value == config.caps[k];
      forall j | Names(config.caps, target, j) ensures j == k { NamesOne(config.caps, target, j, k); }
      assert Fits(target, config.caps[k]);
    }
  }

  // ---------------------------------------------------------------- what a checkout request does

  /** The caller's session: the one named, or one made from the anchor process, or the harness's own. */
  ghost predicate IsSession(config: Config, req: Request, attr: Attribution, s: string) {
    if req.session.Some? then s == req.session.value
    else if attr.anchorPid.Some? then s == config.naming(attr.harness, attr.anchorPid.value, attr.anchorStart)
    else s == "adhoc-" + attr.harness
  }

  /** The least of what is declared and what is asked for. */
  ghost predicate IsTtl(cap: Cap, asked: Option<int>, ttl: int) {
    && ttl <= cap.ttl && (asked.Some? ==> ttl <= asked.value)
    && (ttl == cap.ttl || asked == Some(ttl))
  }

  /** What a shared checkout must still live: a minute, or a quarter of the lifetime if that is less. */
  ghost predicate IsMinimum(ttl: int, least: real) {
    least <= 60.0 && 4.0 * least <= ttl as real && (least == 60.0 || 4.0 * least == ttl as real)
  }

  /** A checkout that can be shared: the same capability, session and harness, with a value, not pending, and enough life. */
  ghost predicate Shareable(e: Entry, cap: Cap, session: string, harness: string, now: real, least: real) {
    e.info.capability == cap.id && e.info.session == session && e.info.harness == harness &&
    e.value.Some? && !e.pending && now + least <= e.info.expiresAt
  }

  /** The least of what was asked and what was issued, and at least a second. */
  ghost predicate IsLifetime(ttl: int, issued: int, life: int) {
    && life >= 1 && (life == 1 || (life <= ttl && life <= issued))
    && (life == ttl || life == issued || (life == 1 && (ttl < 1 || issued < 1)))
  }

  /** The new checkout, label by label. */
  ghost predicate IsFresh(e: Entry, cap: Cap, session: string, ttl: int, turn: Turn, issued: Issued) {
    && e.info.id == turn.id && e.info.capability == cap.id && e.info.harness == turn.attr.harness && e.info.session == session
    && e.info.issuedAt == turn.stamp && (exists life :: IsLifetime(ttl, issued.ttl, life) && e.info.expiresAt == turn.stamp + life as real)
    && e.info.issuerKind == cap.issuerKind && e.info.assurance == cap.effective
    && e.info.handle == issued.handle && e.info.accessor == issued.accessor
    && e.info.anchorPid == turn.attr.anchorPid && e.info.anchorStart == turn.attr.anchorStart
    && !e.pending && e.value == Some(issued.value)
  }

  const LABELS: set<string> := {"id", "capability", "harness", "session", "issued_at", "expires_at"}
  const STATE: set<string> := {"issuer_kind", "assurance", "anchor_pid", "revoke_pending", "accessor", "live"}
  const ROW: set<string> := LABELS + STATE

  predicate IsText(j: Json, t: Option<string>) {
    match t case None => j == Null case Some(s) => j == Text(s)
  }

  predicate IsNumber(j: Json, n: Option<int>) {
    match n case None => j == Null case Some(k) => j == Num(k as real)
  }

  /** What is told of a checkout: its labels, and neither its value, nor its handle, nor its anchor's start. */
  ghost predicate Shows(d: Doc, e: Entry) {
    ROW <= d.Keys && ShowsLabels(d, e.info) && ShowsState(d, e)
  }

  ghost predicate ShowsLabels(d: Doc, i: Info)
    requires ROW <= d.Keys
  {
    && d["id"] == Text(i.id) && d["capability"] == Text(i.capability)
    && d["harness"] == Text(i.harness) && d["session"] == Text(i.session)
    && d["issued_at"] == Num(i.issuedAt) && d["expires_at"] == Num(i.expiresAt)
  }

  ghost predicate ShowsState(d: Doc, e: Entry)
    requires ROW <= d.Keys
  {
    && d["issuer_kind"] == Text(e.info.issuerKind) && d["assurance"] == Text(e.info.assurance)
    && IsNumber(d["anchor_pid"], e.info.anchorPid) && IsText(d["accessor"], e.info.accessor)
    && d["revoke_pending"] == Bool(e.pending) && d["live"] == Bool(e.value.Some? && !e.pending)
  }

  /** The answer to a checkout, key by key: the value, the user name and the mark only for a front end. */
  ghost predicate Hands(resp: Response, e: Entry, reused: bool, source: string, cap: Cap, helper: bool) {
    && resp.Answer? && Shows(resp.result, e)
    && (resp.carriesSecret <==> helper)
    && resp.result.Keys == ROW + {"reused", "harness_source"} + (if helper then {"value"} else {})
                               + (if helper && cap.delivery.username.Some? then {"username"} else {})
    && resp.result["reused"] == Bool(reused) && resp.result["harness_source"] == Text(source)
    && (helper && cap.delivery.username.Some? ==> resp.result["username"] == Text(cap.delivery.username.value))
    && (helper && e.value.Some? ==>
          resp.result["value"].Object? && resp.result["value"].fields.Keys == e.value.value.Keys &&
          forall f :: f in e.value.value ==> resp.result["value"].fields[f] == Text(e.value.value[f]))
  }

  lemma HalvesApart()
    ensures LABELS !! STATE
    ensures "reused" !in ROW && "harness_source" !in ROW && "value" !in ROW && "username" !in ROW
  {
  }

  lemma MetaKeys(i: Info, pending: bool, live: bool)
    ensures Meta(i, pending, live).Keys == ROW
  {
    assert Meta(i, pending, live).Keys == LABELS + STATE;
  }

  lemma MetaLabels(e: Entry)
    ensures Metadata(e).Keys == ROW && ShowsLabels(Metadata(e), e.info)
  {
    MetaKeys(e.info, e.pending, e.value.Some? && !e.pending);
    HalvesApart();
    assert {"id", "capability", "harness", "session", "issued_at", "expires_at"} !! STATE;
  }

  lemma MetaState(e: Entry)
    ensures Metadata(e).Keys == ROW && ShowsState(Metadata(e), e)
  {
    MetaKeys(e.info, e.pending, e.value.Some? && !e.pending);
  }

  lemma MetaShows(e: Entry)
    ensures Metadata(e).Keys == ROW && Shows(Metadata(e), e)
  {
    MetaLabels(e);
    MetaState(e);
  }

  /** A key that is not one of the row's own changes nothing of what the row shows. */
  lemma AlsoShows(d: Doc, e: Entry, key: string, j: Json)
    requires Shows(d, e) && key !in ROW
    ensures Shows(d[key := j], e) && d[key := j].Keys == d.Keys + {key}
  {
    forall k | k in ROW ensures d[key := j][k] == d[k] { }
  }

  lemma PlainShows(e: Entry, reused: bool, source: string)
    ensures var plain := Plain(e, reused, source);
            && Shows(plain, e) && plain.Keys == ROW + {"reused", "harness_source"}
            && plain["reused"] == Bool(reused) && plain["harness_source"] == Text(source)
  {
    HalvesApart();
    MetaShows(e);
    AlsoShows(Metadata(e), e, "reused", Bool(reused));
    AlsoShows(Metadata(e)["reused" := Bool(reused)], e, "harness_source", Text(source));
  }

  lemma AnswerHands(e: Entry, reused: bool, source: string, cap: Cap, helper: bool)
    requires e.value.Some?
    ensures Hands(CheckoutAnswer(e, e.value.value, reused, source, helper, cap.delivery.username), e, reused, source, cap, helper)
  {
    HalvesApart();
    PlainShows(e, reused, source);
    if helper { HandedShows(e, reused, source, cap); }
  }

  lemma HandedShows(e: Entry, reused: bool, source: string, cap: Cap)
    requires e.value.Some?
    ensures Hands(CheckoutAnswer(e, e.value.value, reused, source, true, cap.delivery.username), e, reused, source, cap, true)
  {
    HalvesApart();
    PlainShows(e, reused, source);
    var plain, v := Plain(e, reused, source), ValueJson(e.value.value);
    AlsoShows(plain, e, "value", v);
    if cap.delivery.username.Some? { AlsoShows(plain["value" := v], e, "username", Text(cap.delivery.username.value)); }
  }

  ghost predicate Admitted(config: Config, env: Env, req: Request, turn: Turn, k: int)
    requires req.params.CheckoutParams?
  {
    Names(config.caps, req.params.target, k) && HarnessListed(config.caps[k], turn.attr.harness) &&
    HandedBy(config.caps[k], req.frontEnd) && config.caps[k].issuerKind in env.kinds
  }

  /** How an admitted request reads: its session, its lifetime, and the least life of a shared checkout. */
  ghost predicate Asks(config: Config, env: Env, req: Request, turn: Turn, k: int, session: string, ttl: int, least: real)
    requires req.params.CheckoutParams?
  {
    Admitted(config, env, req, turn, k) && IsSession(config, req, turn.attr, session) &&
    IsTtl(config.caps[k], req.params.ttl, ttl) && IsMinimum(ttl, least)
  }

  lemma AsksSo(config: Config, env: Env, r: Reg, req: Request, turn: Turn, k: int, session: string, ttl: int, least: real)
    requires req.params.CheckoutParams? && Asks(config, env, req, turn, k, session, ttl, least)
    ensures session == SessionOf(config, req, turn.attr) && ttl == Ttl(config.caps[k], req.params.ttl) && least == MinRemaining(ttl)
    ensures Dispatch(config, env, r, req, turn) == CheckoutCap(config, env, r, req, config.caps[k], req.params.ttl, turn)
  {
    ResolveIs(config, req.params.target);
    var j :| Names(config.caps, req.params.target, j) && Resolve(config, req.params.target).value == config.caps[j];
    NamesOne(config.caps, req.params.target, j, k);
  }

  ghost predicate FirstShareable(live: seq<Entry>, i: int, cap: Cap, session: string, harness: string, now: real, least: real) {
    && 0 <= i < |live| && Shareable(live[i], cap, session, harness, now, least)
    && forall j :: 0 <= j < i ==> !Shareable(live[j], cap, session, harness, now, least)
  }

  lemma ShareableIs(e: Entry, cap: Cap, session: string, harness: string, now: real, least: real)
    ensures Shareable(e, cap, session, harness, now, least) <==> Reusable(e, cap.id, session, harness, now, least)
  {
  }

  lemma {:induction false} FoundIs(live: seq<Entry>, cap: Cap, session: string, harness: string, now: real, least: real)
    ensures match FindReusable(live, cap.id, session, harness, now, least)
            case Some(e) => exists i :: FirstShareable(live, i, cap, session, harness, now, least) && e == live[i]
            case None => forall i :: 0 <= i < |live| ==> !Shareable(live[i], cap, session, harness, now, least)
  {
    ReuseIsFirst(live, cap.id, session, harness, now, least);
    forall i | 0 <= i < |live|
      ensures Shareable(live[i], cap, session, harness, now, least) <==> Reusable(live[i], cap.id, session, harness, now, least)
    {
      ShareableIs(live[i], cap, session, harness, now, least);
    }
    var found := FindReusable(live, cap.id, session, harness, now, least);
    if found.Some? {
      var i :| 0 <= i < |live| && live[i] == found.value && Reusable(found.value, cap.id, session, harness, now, least)
               && forall j :: 0 <= j < i ==> !Reusable(live[j], cap.id, session, harness, now, least);
      assert FirstShareable(live, i, cap, session, harness, now, least);
    }
  }

  /** An admitted request is answered from the first checkout that can be shared, if there is one, and changes nothing. */
  lemma CheckoutShares(config: Config, env: Env, r: Reg, req: Request, turn: Turn, k: int, session: string, ttl: int, least: real, i: int)
    requires req.params.CheckoutParams? && Asks(config, env, req, turn, k, session, ttl, least)
    requires FirstShareable(r.live, i, config.caps[k], session, turn.attr.harness, turn.lookup, least)
    ensures var (r1, resp) := Dispatch(config, env, r, req, turn);
            r1 == r && Hands(resp, r.live[i], true, turn.attr.source, config.caps[k], req.frontEnd.Some?)
  {
    var cap := config.caps[k];
    AsksSo(config, env, r, req, turn, k, session, ttl, least);
    FoundIs(r.live, cap, session, turn.attr.harness, turn.lookup, least);
    var found := FindReusable(r.live, cap.id, session, turn.attr.harness, turn.lookup, least);
    var j :| FirstShareable(r.live, j, cap, session, turn.attr.harness, turn.lookup, least) && found.value == r.live[j];
    assert i == j;
    AnswerHands(r.live[i], true, turn.attr.source, cap, req.frontEnd.Some?);
  }

  /** The new checkout is in memory, beside all others; it is on disk with them, and logged, if the write succeeded. */
  ghost predicate Registers(env: Env, r: Reg, r1: Reg, e: Entry) {
    && (forall q :: Find(r1.live, q) == if q == e.info.id then Some(e) else Find(r.live, q))
    && r1.attempts == r.attempts && r1.writes == r.writes + 1
    && (if env.disk(r.writes)
        then |r1.file| == |r1.live| && r1.events == r.events + [Event("broker_checkout", e.info, true, "")] &&
             forall i :: 0 <= i < |r1.live| ==> r1.file[i].info == r1.live[i].info && r1.file[i].pending == r1.live[i].pending
        else r1.file == r.file && r1.events == r.events)
  }

  lemma AddRegisters(env: Env, r: Reg, e: Entry)
    requires Unique(r.live) && e.value.Some?
    ensures var (r1, saved) := Add(env, r, e); Registers(env, r, r1, e) && (saved.Ok? <==> env.disk(r.writes))
  {
    forall q ensures Find(Put(r.live, e), q) == if q == e.info.id then Some(e) else Find(r.live, q) { PutFind(r.live, e, q); }
  }

  lemma FreshIs(cap: Cap, session: string, ttl: int, turn: Turn, issued: Issued)
    ensures IsFresh(Fresh(cap, session, ttl, turn, issued), cap, session, ttl, turn, issued)
  {
    assert IsLifetime(ttl, issued.ttl, Lifetime(ttl, issued.ttl));
  }

  /** What an admitted request that nothing can be shared with comes to: one issue, and its checkout registered and handed over. */
  ghost predicate Issues(env: Env, r: Reg, r1: Reg, resp: Response, req: Request, cap: Cap, session: string, ttl: int, turn: Turn) {
    match turn.issued
    case Raised(code) => r1 == r && resp == Failure(code)
    case Ok(issued) =>
      exists e :: IsFresh(e, cap, session, ttl, turn, issued) && Registers(env, r, r1, e) &&
                  if env.disk(r.writes) then Hands(resp, e, false, turn.attr.source, cap, req.frontEnd.Some?) else resp == Failure(Internal)
  }

  lemma CheckoutIssues(config: Config, env: Env, r: Reg, req: Request, turn: Turn, k: int, session: string, ttl: int, least: real)
    requires req.params.CheckoutParams? && Asks(config, env, req, turn, k, session, ttl, least) && Unique(r.live)
    requires forall i :: 0 <= i < |r.live| ==> !Shareable(r.live[i], config.caps[k], session, turn.attr.harness, turn.lookup, least)
    ensures var (r1, resp) := Dispatch(config, env, r, req, turn); Issues(env, r, r1, resp, req, config.caps[k], session, ttl, turn)
  {
    var cap := config.caps[k];
    AsksSo(config, env, r, req, turn, k, session, ttl, least);
    FoundIs(r.live, cap, session, turn.attr.harness, turn.lookup, least);
    FreshAnswer(env, r, req, cap, session, ttl, turn);
  }

  lemma FreshAnswer(env: Env, r: Reg, req: Request, cap: Cap, session: string, ttl: int, turn: Turn)
    requires Unique(r.live)
    ensures var (r1, resp) := CheckoutFresh(env, r, cap, session, ttl, req.frontEnd.Some?, turn);
            Issues(env, r, r1, resp, req, cap, session, ttl, turn)
  {
    if turn.issued.Ok? {
      var e := Fresh(cap, session, ttl, turn, turn.issued.value);
      FreshIs(cap, session, ttl, turn, turn.issued.value);
      AddRegisters(env, r, e);
      AnswerHands(e, false, turn.attr.source, cap, req.frontEnd.Some?);
    }
  }

  // ---------------------------------------------------------------- listings

  /** Rows for exactly the wanted checkouts, each once, the oldest first. */
  ghost predicate Rows(j: Json, live: seq<Entry>, want: Info -> bool) {
    j.List? && exists es: seq<Entry> :: RowsOf(j.items, es) && Picks(es, live, want)
  }

  ghost predicate RowsOf(items: seq<Json>, es: seq<Entry>) {
    |items| == |es| && forall i :: 0 <= i < |items| ==> items[i].Object? && items[i].fields.Keys == ROW && Shows(items[i].fields, es[i])
  }

  ghost predicate Picks(es: seq<Entry>, live: seq<Entry>, want: Info -> bool) {
    && (forall e :: e in es <==> e in live && want(e.info))
    && (forall i, j :: 0 <= i < j < |es| ==> es[i].info.id != es[j].info.id && es[i].info.issuedAt <= es[j].info.issuedAt)
  }

  lemma ListRows(es: seq<Entry>)
    ensures RowsOf(MetaList(es).items, es)
  {
    forall i | 0 <= i < |es|
      ensures var m := MetaList(es).items[i]; m.Object? && m.fields.Keys == ROW && Shows(m.fields, es[i])
    {
      MetaShows(es[i]);
    }
  }

  lemma {:induction false} UniqueCount(live: seq<Entry>, e: Entry)
    requires Unique(live)
    ensures multiset(live)[e] <= 1
  {
    if live != [] {
      var rest := live[1..];
      assert live == [live[0]] + rest;
      UniqueCount(rest, e);
      forall i | 0 <= i < |rest| ensures rest[i] != live[0] { assert live[i + 1] == rest[i]; }
    }
  }

  lemma {:induction false} ChosenCount(live: seq<Entry>, id: Option<string>, c: Option<string>, s: Option<string>, e: Entry)
    ensures multiset(Chosen(live, id, c, s))[e] <= multiset(live)[e]
  {
    if live != [] {
      ChosenCount(live[1..], id, c, s, e);
      assert live == [live[0]] + live[1..];
    }
  }

  lemma TwiceCounts(es: seq<Entry>, i: int, j: int)
    requires 0 <= i < j < |es| && es[i] == es[j]
    ensures multiset(es)[es[i]] >= 2
  {
    assert es == es[..j] + [es[j]] + es[j + 1..];
    assert es[..j][i] == es[i] && es[i] in es[..j];
    assert multiset(es) == multiset(es[..j]) + multiset([es[j]]) + multiset(es[j + 1..]);
  }

  lemma SelectPicks(live: seq<Entry>, id: Option<string>, c: Option<string>, s: Option<string>, want: Info -> bool)
    requires Unique(live) && forall i :: want(i) <==> Chooses(i, id, c, s)
    ensures Picks(Select(live, id, c, s), live, want)
  {
    var es := Select(live, id, c, s);
    forall e ensures e in es <==> e in live && want(e.info) { SelectIs(live, id, c, s, e); }
    SelectIs(live, id, c, s, Entry(Info("", "", "", "", 0.0, 0.0, "", "", None, None, None, None), false, None));
    forall i, j | 0 <= i < j < |es| ensures es[i].info.id != es[j].info.id && es[i].info.issuedAt <= es[j].info.issuedAt {
      assert es[i] in es && es[j] in es;
      FindIn(live, es[i]);
      FindIn(live, es[j]);
      if es[i] == es[j] {
        TwiceCounts(es, i, j);
        UniqueCount(live, es[i]);
        ChosenCount(live, id, c, s, es[i]);
      }
    }
  }

  /** A listing: the rows of the checkouts of the capability and session asked for, and nothing changed. */
  lemma ListIs(config: Config, env: Env, r: Reg, req: Request, turn: Turn)
    requires req.params.ListParams? && Unique(r.live)
    ensures var (r1, resp) := Dispatch(config, env, r, req, turn);
      && r1 == r && resp.Answer? && !resp.carriesSecret && resp.result.Keys == {"checkouts"}
      && Rows(resp.result["checkouts"], r.live, (i: Info) =>
           (req.params.capability.Some? ==> i.capability == req.params.capability.value) &&
           (req.params.session.Some? ==> i.session == req.params.session.value))
  {
    var c, s := req.params.capability, req.params.session;
    var want := (i: Info) => (c.Some? ==> i.capability == c.value) && (s.Some? ==> i.session == s.value);
    var es := Select(r.live, None, c, s);
    SelectPicks(r.live, None, c, s, want);
    ListRows(es);
    var resp := Dispatch(config, env, r, req, turn).1;
    assert RowsOf(resp.result["checkouts"].items, es) && Picks(es, r.live, want);
  }

  // ---------------------------------------------------------------- revocations

  /** Which checkouts a revocation request is about. */
  ghost predicate Concerns(config: Config, req: Request, turn: Turn, i: Info)
    requires req.params.RevokeParams?
  {
    (req.params.ownSession ==> IsSession(config, req, turn.attr, i.session)) &&
    match req.params.selector
    case All => true
    case OneCheckout(id) => i.id == id
    case OfCapability(target) => exists k :: Names(config.caps, target, k) && i.capability == config.caps[k].id
  }

  lemma ConcernsIs(config: Config, req: Request, turn: Turn, i: Info)
    requires req.params.RevokeParams?
    ensures Concerns(config, req, turn, i) <==> About(config, req, req.params, turn, i)
  {
    if req.params.selector.OfCapability? {
      var target := req.params.selector.target;
      ResolveIs(config, target);
      forall j, k | Names(config.caps, target, j) && Names(config.caps, target, k) ensures j == k { NamesOne(config.caps, target, j, k); }
    }
  }

  /** The request names a checkout that is not there for it, or a capability that is not served. */
  ghost predicate Missing(config: Config, r: Reg, req: Request, turn: Turn)
    requires req.params.RevokeParams?
  {
    match req.params.selector
    case All => false
    case OneCheckout(id) => forall e :: e in r.live ==> !Concerns(config, req, turn, e.info)
    case OfCapability(target) => forall k :: 0 <= k < |config.caps| ==> !Fits(target, config.caps[k])
  }

  function Refusal(req: Request): Code
    requires req.params.RevokeParams?
  {
    if req.params.selector.OfCapability? then Unnamed(req.params.selector.target) else NotFound
  }

  lemma MissingIs(config: Config, r: Reg, req: Request, turn: Turn)
    requires req.params.RevokeParams? && Unique(r.live)
    ensures var t := RevokeTargets(config, r, req, req.params, turn);
            && (t.Raised? <==> Missing(config, r, req, turn))
            && (t.Raised? ==> t.error == Refusal(req))
  {
    match req.params.selector
    case All =>
    case OneCheckout(id) =>
      NotFoundIff(config, Env({}, (n: nat) => true, (n: nat) => true), r, req, req.params, turn);
      OneMissing(config, r, req, turn, id);
    case OfCapability(target) =>
      ResolveIs(config, target);
  }

  lemma OneMissing(config: Config, r: Reg, req: Request, turn: Turn, id: string)
    requires req.params.RevokeParams? && req.params.selector == OneCheckout(id) && Unique(r.live)
    ensures Missing(config, r, req, turn) <==>
            var e := Find(r.live, id); e.None? || (req.params.ownSession && e.value.info.session != SessionOf(config, req, turn.attr))
  {
    forall e | e in r.live ensures Concerns(config, req, turn, e.info) ==> Find(r.live, id) == Some(e) { FindIn(r.live, e); }
    var e := Find(r.live, id);
    if e.Some? { assert e.value in r.live; }
  }

  /** A revocation request that cannot be met changes nothing and says which: nothing found, or no such capability. */
  lemma RevokeRefuses(config: Config, env: Env, r: Reg, req: Request, turn: Turn)
    requires req.params.RevokeParams? && Unique(r.live) && Missing(config, r, req, turn)
    ensures Dispatch(config, env, r, req, turn)
         == (r, Failure(Refusal(req)))
  {
    MissingIs(config, r, req, turn);
  }

  /** A dry run changes nothing and shows the rows of exactly what would be revoked. */
  lemma DryRunIs(config: Config, env: Env, r: Reg, req: Request, turn: Turn)
    requires req.params.RevokeParams? && req.params.dryRun && Unique(r.live) && !Missing(config, r, req, turn)
    ensures var (r1, resp) := Dispatch(config, env, r, req, turn);
      && r1 == r && resp.Answer? && !resp.carriesSecret && resp.result.Keys == {"dry_run", "would_revoke"}
      && resp.result["dry_run"] == Bool(true)
      && Rows(resp.result["would_revoke"], r.live, i => Concerns(config, req, turn, i))
  {
    MissingIs(config, r, req, turn);
    var es := RevokeTargets(config, r, req, req.params, turn).value;
    TargetsPicked(config, r, req, turn);
    ListRows(es);
    var resp := Dispatch(config, env, r, req, turn).1;
    assert RowsOf(resp.result["would_revoke"].items, es) && Picks(es, r.live, i => Concerns(config, req, turn, i));
  }

  lemma TargetsPicked(config: Config, r: Reg, req: Request, turn: Turn)
    requires req.params.RevokeParams? && Unique(r.live) && RevokeTargets(config, r, req, req.params, turn).Ok?
    ensures Picks(RevokeTargets(config, r, req, req.params, turn).value, r.live, i => Concerns(config, req, turn, i))
  {
    var session := if req.params.ownSession then Some(SessionOf(config, req, turn.attr)) else None;
    forall i ensures Concerns(config, req, turn, i) <==> About(config, req, req.params, turn, i) { ConcernsIs(config, req, turn, i); }
    var want := i => Concerns(config, req, turn, i);
    match req.params.selector
    case All => SelectPicks(r.live, None, None, session, want);
    case OneCheckout(id) => SelectPicks(r.live, Some(id), None, session, want);
    case OfCapability(target) => SelectPicks(r.live, None, Some(Resolve(config, target).value.id), session, want);
  }

  /**
   A revocation request, checkout by checkout: what it does not concern is
   untouched; what it concerns is gone and reported revoked if its issuer
   confirmed, and else stays without its value and is reported pending. If the
   state file cannot be written the answer is an internal error.
   */
  lemma RevokeDoes(config: Config, env: Env, r: Reg, req: Request, turn: Turn, q: string)
    requires req.params.RevokeParams? && !req.params.dryRun && Unique(r.live) && !Missing(config, r, req, turn)
    ensures var (r1, resp) := Dispatch(config, env, r, req, turn);
            var before := Find(r.live, q);
            var concerned := before.Some? && Concerns(config, req, turn, before.value.info);
            var confirmed := Called(r1.attempts, |r.attempts|, q, true);
            && Find(r1.live, q) == (if !concerned then before else if confirmed then None else Some(Entry(before.value.info, true, None)))
            && (resp.Failure? ==> resp == Failure(Internal) && r1.file == r.file)
            && (resp.Answer? ==> !resp.carriesSecret && resp.result.Keys == {"dry_run", "revoked", "pending"} &&
                                 resp.result["dry_run"] == Bool(false) && Reports(resp, q, concerned && confirmed, concerned && !confirmed))
  {
    MissingIs(config, r, req, turn);
    RevokeRequestFate(config, env, r, req, req.params, turn, q);
    if Find(r.live, q).Some? { ConcernsIs(config, req, turn, Find(r.live, q).value.info); }
  }

  // ---------------------------------------------------------------- status

  /** The places in the dict of checkouts waiting for their revocation, or not. */
  function Places(live: seq<Entry>, pending: bool): (places: set<nat>) {
    set i: nat | i < |live| && live[i].pending == pending
  }

  lemma PlacesMore(live: seq<Entry>, b: bool)
    requires live != []
    ensures var n := |live| - 1; |Places(live, b)| == |Places(live[..n], b)| + if live[n].pending == b then 1 else 0
  {
    var n := |live| - 1;
    var front := Places(live[..n], b);
    if live[n].pending == b {
      assert Places(live, b) == front + {n} && n !in front;
    } else {
      assert Places(live, b) == front;
    }
  }

  lemma {:induction false} CountIs(live: seq<Entry>)
    ensures |Places(live, true)| == CountPending(live) && |Places(live, false)| == |live| - CountPending(live)
  {
    if live == [] {
      assert Places(live, true) == {} && Places(live, false) == {};
    } else {
      CountIs(live[..|live| - 1]);
      PlacesMore(live, true);
      PlacesMore(live, false);
    }
  }

  const CAPABILITY: set<string> :=
    {"id", "issuer", "rung", "tool"} + {"assurance", "effective_assurance", "meets_floor", "issuer_available"}

  ghost predicate ShowsCap(d: Doc, env: Env, c: Cap) {
    && d.Keys == CAPABILITY
    && d["id"] == Text(c.id) && d["issuer"] == Text(c.issuerKind) && d["rung"] == Text(c.delivery.rung)
    && IsText(d["tool"], c.delivery.tool) && d["assurance"] == Text(c.assurance)
    && d["effective_assurance"] == Text(c.effective) && d["meets_floor"] == Bool(c.meetsFloor)
    && d["issuer_available"] == Bool(c.issuerKind in env.kinds)
  }

  lemma CapShows(env: Env, c: Cap)
    ensures CapRow(env, c).Object? && ShowsCap(CapRow(env, c).fields, env, c)
  {
  }

  /** A status request counts the checkouts that wait for their revocation and the others, and shows each capability. */
  lemma StatusIs(config: Config, env: Env, r: Reg, req: Request, turn: Turn)
    requires req.params.StatusParams?
    ensures var (r1, resp) := Dispatch(config, env, r, req, turn);
      && r1 == r && resp.Answer? && !resp.carriesSecret && resp.result.Keys == {"live_checkouts", "revoke_pending", "capabilities"}
      && resp.result["live_checkouts"] == Num(|Places(r.live, false)| as real)
      && resp.result["revoke_pending"] == Num(|Places(r.live, true)| as real)
      && resp.result["capabilities"].List? && |resp.result["capabilities"].items| == |config.caps|
      && forall k :: 0 <= k < |config.caps| ==>
           var row := resp.result["capabilities"].items[k]; row.Object? && ShowsCap(row.fields, env, config.caps[k])
  {
    CountIs(r.live);
    var resp := Dispatch(config, env, r, req, turn).1;
    forall k | 0 <= k < |config.caps|
      ensures var row := resp.result["capabilities"].items[k]; row.Object? && ShowsCap(row.fields, env, config.caps[k])
    {
      CapShows(env, config.caps[k]);
    }
  }

  /** What the value rule refuses: a value or a mark on anything but a front end's successful checkout, or one without the other. */
  lemma ShapeIff(asked: Method, frontEnd: Option<FrontEnd>, resp: Response)
    ensures !ShapeOk(asked, frontEnd, resp) <==>
            resp.Answer? && ("value" in resp.result || resp.carriesSecret) &&
            (asked == OtherMethod || frontEnd == None || !resp.carriesSecret || "value" !in resp.result)
  {
  }
}
