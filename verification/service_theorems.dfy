/** What a caller of the broker can rely on. */
module ServiceTheorems {
  import opened Base
  import opened RegistrySpec
  import opened RegistryTheorems
  import opened ServiceSpec
  import opened JsonTree

  // ---------------------------------------------------------------- selection

  lemma {:induction false} ChosenIs(live: seq<Entry>, id: Option<string>, c: Option<string>, s: Option<string>, e: Entry)
    ensures e in Chosen(live, id, c, s) <==> e in live && Chooses(e.info, id, c, s)
  {
    if live != [] { ChosenIs(live[1..], id, c, s, e); }
  }

  lemma {:induction false} ChosenUnique(live: seq<Entry>, id: Option<string>, c: Option<string>, s: Option<string>)
    requires Unique(live)
    ensures Unique(Chosen(live, id, c, s))
  {
    if live != [] {
      var rest := Chosen(live[1..], id, c, s);
      ChosenUnique(live[1..], id, c, s);
      forall j | 0 <= j < |rest| ensures rest[j].info.id != live[0].info.id {
        ChosenIs(live[1..], id, c, s, rest[j]);
      }
    }
  }

  lemma {:induction false} InsertPermutes(e: Entry, s: seq<Entry>)
    ensures multiset(InsertByIssue(e, s)) == multiset([e] + s)
  {
    if s != [] && e.info.issuedAt > s[0].info.issuedAt {
      InsertPermutes(e, s[1..]);
      assert [e] + s == [e] + ([s[0]] + s[1..]);
    }
  }

  lemma {:induction false} SortPermutes(es: seq<Entry>)
    ensures multiset(SortByIssue(es)) == multiset(es)
  {
    if es != [] {
      SortPermutes(es[1..]);
      InsertPermutes(es[0], SortByIssue(es[1..]));
      assert es == [es[0]] + es[1..];
    }
  }

  ghost predicate Sorted(s: seq<Entry>) {
    forall i, j :: 0 <= i < j < |s| ==> s[i].info.issuedAt <= s[j].info.issuedAt
  }

  lemma {:induction false} InsertSorted(e: Entry, s: seq<Entry>)
    requires Sorted(s)
    ensures Sorted(InsertByIssue(e, s))
  {
    if s != [] && e.info.issuedAt > s[0].info.issuedAt {
      var rest := InsertByIssue(e, s[1..]);
      InsertSorted(e, s[1..]);
      InsertPermutes(e, s[1..]);
      forall j | 0 <= j < |rest| ensures s[0].info.issuedAt <= rest[j].info.issuedAt {
        assert rest[j] in multiset(rest);
        assert rest[j] == e || rest[j] in s[1..];
      }
    }
  }

  lemma {:induction false} SortSorted(es: seq<Entry>)
    ensures Sorted(SortByIssue(es))
  {
    if es != [] {
      SortSorted(es[1..]);
      InsertSorted(es[0], SortByIssue(es[1..]));
    }
  }

  function At(es: seq<Entry>, t: real): (r: seq<Entry>) {
    if es == [] then [] else (if es[0].info.issuedAt == t then [es[0]] else []) + At(es[1..], t)
  }

  lemma {:induction false} InsertStable(e: Entry, s: seq<Entry>, t: real)
    requires Sorted(s)
    ensures At(InsertByIssue(e, s), t) == At([e] + s, t)
  {
    assert ([e] + s)[1..] == s;
    if s != [] && e.info.issuedAt > s[0].info.issuedAt {
      InsertStable(e, s[1..], t);
      assert ([e] + s[1..])[1..] == s[1..];
      assert InsertByIssue(e, s)[1..] == InsertByIssue(e, s[1..]);
    }
  }

  /** Checkouts issued at the same time keep their order. */
  lemma {:induction false} SortStable(es: seq<Entry>, t: real)
    ensures At(SortByIssue(es), t) == At(es, t)
  {
    if es != [] {
      SortStable(es[1..], t);
      SortSorted(es[1..]);
      var rest := SortByIssue(es[1..]);
      InsertStable(es[0], rest, t);
      assert ([es[0]] + rest)[1..] == rest;
    }
  }

  lemma SameMembers(a: seq<Entry>, b: seq<Entry>, e: Entry)
    requires multiset(a) == multiset(b)
    ensures e in a <==> e in b
  {
    assert e in a <==> e in multiset(a);
  }

  /** A listing holds each checkout that passes the filters once, oldest first. */
  lemma SelectIs(live: seq<Entry>, id: Option<string>, c: Option<string>, s: Option<string>, e: Entry)
    ensures e in Select(live, id, c, s) <==> e in live && Chooses(e.info, id, c, s)
    ensures Sorted(Select(live, id, c, s))
    ensures multiset(Select(live, id, c, s)) == multiset(Chosen(live, id, c, s))
  {
    var chosen := Chosen(live, id, c, s);
    SortPermutes(chosen);
    SortSorted(chosen);
    ChosenIs(live, id, c, s, e);
    SameMembers(SortByIssue(chosen), chosen, e);
  }

  // ---------------------------------------------------------------- revocation requests

  /** Which checkouts a revocation request is about, read off the request alone. */
  ghost predicate About(config: Config, req: Request, p: Params, turn: Turn, i: Info)
    requires p.RevokeParams?
  {
    (p.ownSession ==> i.session == SessionOf(config, req, turn.attr)) &&
    match p.selector
    case All => true
    case OneCheckout(id) => i.id == id
    case OfCapability(target) => Resolve(config, target).Ok? && i.capability == Resolve(config, target).value.id
  }

  lemma TargetsAreAbout(config: Config, r: Reg, req: Request, p: Params, turn: Turn, e: Entry)
    requires p.RevokeParams?
    ensures var t := RevokeTargets(config, r, req, p, turn);
            t.Ok? ==> (e in t.value <==> e in r.live && About(config, req, p, turn, e.info))
  {
    var session := if p.ownSession then Some(SessionOf(config, req, turn.attr)) else None;
    match p.selector
    case All => SelectIs(r.live, None, None, session, e);
    case OneCheckout(id) => SelectIs(r.live, Some(id), None, session, e);
    case OfCapability(target) =>
      var cap := Resolve(config, target);
      if cap.Ok? { SelectIs(r.live, None, Some(cap.value.id), session, e); }
  }

  lemma {:induction false} IdsHave(es: seq<Entry>, q: string)
    ensures q in Ids(es) <==> exists e :: e in es && e.info.id == q
  {
    if q in Ids(es) {
      var i :| 0 <= i < |Ids(es)| && Ids(es)[i] == q;
      assert es[i] in es;
    }
    if e :| e in es && e.info.id == q {
      var i :| 0 <= i < |es| && es[i] == e;
      assert Ids(es)[i] == q;
    }
  }

  lemma TargetIds(config: Config, r: Reg, req: Request, p: Params, turn: Turn, q: string)
    requires p.RevokeParams? && Unique(r.live) && RevokeTargets(config, r, req, p, turn).Ok?
    ensures var before := Find(r.live, q);
            q in Ids(RevokeTargets(config, r, req, p, turn).value) <==> before.Some? && About(config, req, p, turn, before.value.info)
  {
    var es := RevokeTargets(config, r, req, p, turn).value;
    IdsHave(es, q);
    if e :| e in es && e.info.id == q {
      TargetsAreAbout(config, r, req, p, turn, e);
      FindIn(r.live, e);
    }
    var before := Find(r.live, q);
    if before.Some? { TargetsAreAbout(config, r, req, p, turn, before.value); }
  }

  lemma TextsHave(ids: seq<string>, q: string)
    ensures Text(q) in Texts(ids).items <==> q in ids
  {
    var items := Texts(ids).items;
    if Text(q) in items {
      var i :| 0 <= i < |items| && items[i] == Text(q);
      assert ids[i] == q;
    }
    if q in ids {
      var i :| 0 <= i < |ids| && ids[i] == q;
      assert items[i] == Text(q);
    }
  }

  /** The two lists of a revocation's answer. */
  ghost predicate Reports(resp: Response, q: string, revoked: bool, pending: bool) {
    resp.Answer? && "revoked" in resp.result && "pending" in resp.result &&
    resp.result["revoked"].List? && resp.result["pending"].List? &&
    (Text(q) in resp.result["revoked"].items <==> revoked) &&
    (Text(q) in resp.result["pending"].items <==> pending)
  }

  lemma AnswerReports(ids: seq<string>, done: seq<string>, q: string)
    ensures Reports(RevokedAnswer(ids, done), q, q in done, q in ids && q !in done)
  {
    TextsHave(done, q);
    TextsHave(Without(ids, done), q);
  }

  /**
   A revocation request, checkout by checkout: what it is not about is
   untouched; what it is about is reported revoked and is gone when its issuer
   confirmed, and otherwise is reported pending and stays, without its value.
   */
  lemma RevokeRequestFate(config: Config, env: Env, r: Reg, req: Request, p: Params, turn: Turn, q: string)
    requires p.RevokeParams? && !p.dryRun && Unique(r.live) && RevokeTargets(config, r, req, p, turn).Ok?
    ensures var (r1, resp) := RevokeRequest(config, env, r, req, p, turn);
            var before := Find(r.live, q);
            var about := before.Some? && About(config, req, p, turn, before.value.info);
            var confirmed := Called(r1.attempts, |r.attempts|, q, true);
            && Find(r1.live, q) == (if !about then before else if confirmed then None
                                    else Some(Entry(before.value.info, true, None)))
            && (resp == Failure(Internal) || Reports(resp, q, about && confirmed, about && !confirmed))
            && (resp.Failure? ==> r1.file == r.file)
  {
    var ids := Ids(RevokeTargets(config, r, req, p, turn).value);
    TargetIds(config, r, req, p, turn, q);
    RevokeFate(env, r, ids, "requested", q);
    RevokeFile(env, r, ids, "requested");
    var (r1, done) := Revoke(env, r, ids, "requested");
    if done.Ok? { AnswerReports(ids, done.value, q); }
  }

  /** A dry run, a listing, a status request and a refused request change nothing. */
  lemma ReadOnly(config: Config, env: Env, r: Reg, req: Request, turn: Turn)
    requires req.params.ListParams? || req.params.StatusParams? || (req.params.RevokeParams? && req.params.dryRun) ||
             (req.params.RevokeParams? && RevokeTargets(config, r, req, req.params, turn).Raised?)
    ensures Dispatch(config, env, r, req, turn).0 == r
  {
  }

  /** Only a checkout that is named and absent, or not the caller's own, is not found. */
  lemma NotFoundIff(config: Config, env: Env, r: Reg, req: Request, p: Params, turn: Turn)
    requires p.RevokeParams? && Unique(r.live)
    ensures RevokeTargets(config, r, req, p, turn) == Raised(NotFound) <==>
            p.selector.OneCheckout? &&
            var e := Find(r.live, p.selector.id);
            e.None? || (p.ownSession && e.value.info.session != SessionOf(config, req, turn.attr))
  {
    if p.selector.OneCheckout? {
      OneFound(r.live, p.selector.id, if p.ownSession then Some(SessionOf(config, req, turn.attr)) else None);
    }
  }

  lemma OneFound(live: seq<Entry>, id: string, session: Option<string>)
    requires Unique(live)
    ensures Select(live, Some(id), None, session) == [] <==>
            var e := Find(live, id); e.None? || (session.Some? && e.value.info.session != session.value)
  {
    var found := Select(live, Some(id), None, session);
    if found != [] {
      SelectIs(live, Some(id), None, session, found[0]);
      FindIn(live, found[0]);
    }
    var e := Find(live, id);
    if e.Some? { SelectIs(live, Some(id), None, session, e.value); }
  }

  // ---------------------------------------------------------------- checkouts

  lemma ReusableIs(live: seq<Entry>, c: string, s: string, h: string, now: real, least: real)
    ensures var found := FindReusable(live, c, s, h, now, least);
            found.Some? ==> found.value in live && Reusable(found.value, c, s, h, now, least)
  {
    ReuseIsFirst(live, c, s, h, now, least);
  }

  /** The checkout an answered request is given, old or new. */
  ghost function Given(config: Config, r: Reg, req: Request, cap: Cap, asked: Option<int>, turn: Turn): (e: Option<Entry>) {
    var session := SessionOf(config, req, turn.attr);
    var ttl := Ttl(cap, asked);
    var found := FindReusable(r.live, cap.id, session, turn.attr.harness, turn.lookup, MinRemaining(ttl));
    if found.Some? then found
    else match turn.issued case Raised(_) => None case Ok(issued) => Some(Fresh(cap, session, ttl, turn, issued))
  }

  /**
   Whoever is answered is answered from a checkout the registry holds under the
   reported id, for the capability, session and harness asked for, not pending,
   and the value a helper is handed is that checkout's own.
   */
  lemma HandedIsHeld(config: Config, env: Env, r: Reg, req: Request, cap: Cap, asked: Option<int>, turn: Turn)
    requires Unique(r.live)
    ensures var (r1, resp) := CheckoutCap(config, env, r, req, cap, asked, turn);
            resp.Answer? ==>
              var e := Given(config, r, req, cap, asked, turn);
              e.Some? && Find(r1.live, e.value.info.id) == e && e.value.value.Some? && !e.value.pending &&
              e.value.info.capability == cap.id && e.value.info.harness == turn.attr.harness &&
              e.value.info.session == SessionOf(config, req, turn.attr) &&
              "id" in resp.result && resp.result["id"] == Text(e.value.info.id) &&
              (req.frontEnd.Some? ==> "value" in resp.result && resp.result["value"] == ValueJson(e.value.value.value))
  {
    var session := SessionOf(config, req, turn.attr);
    var ttl := Ttl(cap, asked);
    ReusableIs(r.live, cap.id, session, turn.attr.harness, turn.lookup, MinRemaining(ttl));
    var found := FindReusable(r.live, cap.id, session, turn.attr.harness, turn.lookup, MinRemaining(ttl));
    if found.Some? {
      FindIn(r.live, found.value);
      AnswerNames(found.value, found.value.value.value, true, turn.attr.source, req.frontEnd.Some?, cap.delivery.username);
    } else if turn.issued.Ok? {
      var e := Fresh(cap, session, ttl, turn, turn.issued.value);
      AddFate(env, r, e, e.info.id);
      AnswerNames(e, turn.issued.value.value, false, turn.attr.source, req.frontEnd.Some?, cap.delivery.username);
    }
  }

  lemma AnswerNames(e: Entry, v: Fields, reused: bool, source: string, helper: bool, username: Option<string>)
    ensures var resp := CheckoutAnswer(e, v, reused, source, helper, username);
            resp.Answer? && "id" in resp.result && resp.result["id"] == Text(e.info.id) &&
            (helper ==> "value" in resp.result && resp.result["value"] == ValueJson(v))
  {
  }

  /** Whatever was on disk before, answering a fresh checkout puts it and everything else in memory there. */
  lemma FreshIsDurable(env: Env, r: Reg, cap: Cap, session: string, ttl: int, helper: bool, turn: Turn)
    requires Unique(r.live)
    ensures var (r1, resp) := CheckoutFresh(env, r, cap, session, ttl, helper, turn); resp.Answer? ==> Durable(r1)
  {
    if turn.issued.Ok? {
      var e := Fresh(cap, session, ttl, turn, turn.issued.value);
      if Add(env, r, e).1.Ok? { AddDurable(env, r, e); }
    }
  }

  /** The checkout that would be shared, if any. */
  function Shared(config: Config, r: Reg, req: Request, cap: Cap, asked: Option<int>, turn: Turn): Option<Entry> {
    FindReusable(r.live, cap.id, SessionOf(config, req, turn.attr), turn.attr.harness, turn.lookup, MinRemaining(Ttl(cap, asked)))
  }

  /** An answered checkout is on disk exactly when it is a fresh one, or was on disk before. */
  lemma AnsweredIsFiledIff(config: Config, env: Env, r: Reg, req: Request, cap: Cap, asked: Option<int>, turn: Turn)
    requires Unique(r.live)
    ensures var (r1, resp) := CheckoutCap(config, env, r, req, cap, asked, turn);
            resp.Answer? ==>
              var e := Given(config, r, req, cap, asked, turn);
              e.Some? && Find(r1.live, e.value.info.id) == e &&
              (Filed(r1.file, e.value.info.id, e.value.info.handle) <==>
               Shared(config, r, req, cap, asked, turn) == None || Filed(r.file, e.value.info.id, e.value.info.handle))
  {
    HandedIsHeld(config, env, r, req, cap, asked, turn);
    if Shared(config, r, req, cap, asked, turn) == None {
      FreshIsDurable(env, r, cap, SessionOf(config, req, turn.attr), Ttl(cap, asked), req.frontEnd.Some?, turn);
    }
  }

  /**
   The failure: the first of two like requests cannot write the state file and
   is refused; its checkout stays in memory, the second request is answered from
   it, and the file still does not know it.
   */
  lemma FailedAddIsShared(config: Config, env: Env, req: Request, cap: Cap, asked: Option<int>, first: Turn, second: Turn)
    requires !env.disk(0) && first.issued.Ok? && second.attr == first.attr
    requires var e := Fresh(cap, SessionOf(config, req, first.attr), Ttl(cap, asked), first, first.issued.value);
             e.info.expiresAt - second.lookup >= MinRemaining(Ttl(cap, asked))
    ensures var (r1, a1) := CheckoutCap(config, env, Reg([], [], [], 0, []), req, cap, asked, first);
            var (r2, a2) := CheckoutCap(config, env, r1, req, cap, asked, second);
            && a1 == Failure(Internal) && a2.Answer? && r2.file == [] && !Durable(r2)
            && Given(config, r1, req, cap, asked, second) == Find(r2.live, first.id)
            && (req.frontEnd.Some? ==> "value" in a2.result && a2.result["value"] == ValueJson(first.issued.value.value))
  {
    var session, ttl := SessionOf(config, req, first.attr), Ttl(cap, asked);
    var e := Fresh(cap, session, ttl, first, first.issued.value);
    var r0 := Reg([], [], [], 0, []);
    var (r1, a1) := CheckoutCap(config, env, r0, req, cap, asked, first);
    assert r1.live == [e] && r1.file == [] && a1 == Failure(Internal);
    assert Reusable(e, cap.id, session, first.attr.harness, second.lookup, MinRemaining(ttl));
    assert Shared(config, r1, req, cap, asked, second) == Some(e);
    AnswerNames(e, first.issued.value.value, true, second.attr.source, req.frontEnd.Some?, cap.delivery.username);
    assert Find(r1.live, first.id) == Some(e);
    assert !Filed([], first.id, e.info.handle);
  }

  /** A fresh checkout lives at least a second, and no longer than declared, asked for, or the longest the broker allows. */
  lemma FreshLifetime(config: Config, r: Reg, req: Request, cap: Cap, asked: Option<int>, turn: Turn)
    requires 1 <= cap.ttl <= MAX_TTL && (asked.Some? ==> 1 <= asked.value)
    ensures var session := SessionOf(config, req, turn.attr);
            turn.issued.Ok? ==>
              var e := Fresh(cap, session, Ttl(cap, asked), turn, turn.issued.value);
              var lifetime := e.info.expiresAt - e.info.issuedAt;
              1.0 <= lifetime <= cap.ttl as real && lifetime <= MAX_TTL as real &&
              (asked.Some? ==> lifetime <= asked.value as real) &&
              (turn.issued.value.ttl >= 1 ==> lifetime <= turn.issued.value.ttl as real)
  {
  }

  // ---------------------------------------------------------------- every run

  lemma GroupSettles(env: Env, r: Reg, ids: seq<string>, reason: string)
    requires Unique(r.live) && Settled(r.live)
    ensures Unique(ReapGroup(env, r, ids, reason).0.live) && Settled(ReapGroup(env, r, ids, reason).0.live)
  {
    RevokeFate(env, r, ids, reason, "");
    RevokeSettles(env, r, ids, reason);
  }

  lemma ReapSettles(env: Env, r: Reg, now: real, alive: (int, Option<int>) -> bool)
    requires Unique(r.live) && Settled(r.live)
    ensures Unique(Reap(env, r, now, alive).0.live) && Settled(Reap(env, r, now, alive).0.live)
  {
    var x, s, t := Due(r.live, now, alive, Expired), Due(r.live, now, alive, SessionEnd), Due(r.live, now, alive, Retry);
    GroupSettles(env, r, x, "expired");
    var r1 := ReapGroup(env, r, x, "expired").0;
    GroupSettles(env, r1, s, "session_end");
    var r2 := ReapGroup(env, r1, s, "session_end").0;
    GroupSettles(env, r2, t, "retry");
  }

  lemma {:induction false} RestoreSettles(file: seq<Record>)
    ensures Unique(Restore([], file)) && Settled(Restore([], file))
  {
    if file != [] {
      var n := |file| - 1;
      var e := FromRecord(file[n]).(pending := true);
      RestoreSettles(file[..n]);
      PutFind(Restore([], file[..n]), e, "");
      var put := Put(Restore([], file[..n]), e);
      forall i | 0 <= i < |put| ensures put[i].pending <==> put[i].value.None? {
        assert put[i] == e || put[i] in Restore([], file[..n]);
      }
    }
  }

  lemma RecoverSettles(env: Env, r: Reg)
    ensures Unique(Recover(env, Crash(r)).0.live) && Settled(Recover(env, Crash(r)).0.live)
  {
    var restored := r.(live := Restore([], r.file));
    RestoreSettles(r.file);
    RevokeFate(env, restored, RecordIds(r.file), "recovered", "");
    RevokeSettles(env, restored, RecordIds(r.file), "recovered");
  }

  lemma DispatchSettles(config: Config, env: Env, r: Reg, req: Request, turn: Turn)
    requires Unique(r.live) && Settled(r.live)
    ensures var r1 := Dispatch(config, env, r, req, turn).0; Unique(r1.live) && Settled(r1.live)
  {
    match req.params
    case CheckoutParams(target, asked) =>
      var cap := Permit(config, env, req, target, turn.attr);
      if cap.Ok? && turn.issued.Ok? {
        var e := Fresh(cap.value, SessionOf(config, req, turn.attr), Ttl(cap.value, asked), turn, turn.issued.value);
        AddFate(env, r, e, "");
        AddSettles(env, r, e);
      }
    case RevokeParams(_, _, _) =>
      var targets := RevokeTargets(config, r, req, req.params, turn);
      if targets.Ok? {
        RevokeFate(env, r, Ids(targets.value), "requested", "");
        RevokeSettles(env, r, Ids(targets.value), "requested");
      }
    case _ =>
  }

  lemma HappenSettles(config: Config, env: Env, r: Reg, h: Happening)
    requires Unique(r.live) && Settled(r.live)
    ensures var r1 := Happen(config, env, r, h).0; Unique(r1.live) && Settled(r1.live)
  {
    match h
    case Ask(req, turn) => DispatchSettles(config, env, r, req, turn);
    case ReapTurn(now, alive) => ReapSettles(env, r, now, alive);
    case Restart => RecoverSettles(env, r);
    case Shutdown =>
      RevokeFate(env, r, Ids(r.live), "shutdown", "");
      RevokeSettles(env, r, Ids(r.live), "shutdown");
  }

  /**
   Over every run of requests, reaping, restarts and shutdowns, whatever fails,
   ids stay distinct and a checkout has lost its value exactly when its
   revocation is pending; so a status count is the number of listed rows of that kind.
   */
  lemma {:induction false} RunSettles(config: Config, env: Env, r: Reg, hs: seq<Happening>)
    requires Unique(r.live) && Settled(r.live)
    ensures var r1 := Run(config, env, r, hs).0; Unique(r1.live) && Settled(r1.live)
    decreases |hs|
  {
    if hs != [] {
      HappenSettles(config, env, r, hs[0]);
      RunSettles(config, env, Happen(config, env, r, hs[0]).0, hs[1..]);
    }
  }
}
