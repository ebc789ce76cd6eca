/**
 No issued value reaches the state file, an event or any answer but a helper's
 checkout: erasing the values before a run gives the erased run.
 */
module ServiceSecrecy {
  import opened Base
  import opened RegistrySpec
  import opened ServiceSpec
  import opened JsonTree

  // ---------------------------------------------------------------- erasure

  const BLANK: Option<Fields> := Some(map[])

  function EraseValue(v: Option<Fields>): Option<Fields> {
    if v.None? then None else BLANK
  }

  function EraseEntry(e: Entry): Entry {
    e.(value := EraseValue(e.value))
  }

  function EraseLive(live: seq<Entry>): (r: seq<Entry>) {
    seq(|live|, i requires 0 <= i < |live| => EraseEntry(live[i]))
  }

  function EraseReg(r: Reg): Reg {
    r.(live := EraseLive(r.live))
  }

  function EraseIssued(o: Outcome<Issued, Code>): Outcome<Issued, Code> {
    match o case Raised(_) => o case Ok(i) => Ok(i.(value := map[]))
  }

  function EraseTurn(t: Turn): Turn {
    t.(issued := EraseIssued(t.issued))
  }

  function EraseHappening(h: Happening): Happening {
    match h case Ask(req, turn) => Ask(req, EraseTurn(turn)) case _ => h
  }

  function EraseResponse(resp: Response): Response {
    match resp
    case Answer(result, carries) => if "value" in result then Answer(result["value" := ValueJson(map[])], carries) else resp
    case Failure(_) => resp
  }

  // ---------------------------------------------------------------- the registry commutes with erasure

  lemma EraseRecords(live: seq<Entry>)
    ensures Records(EraseLive(live)) == Records(live)
    ensures Ids(EraseLive(live)) == Ids(live)
  {
  }

  lemma EraseClear(live: seq<Entry>, ids: seq<string>)
    ensures Clear(EraseLive(live), ids) == EraseLive(Clear(live, ids))
  {
  }

  lemma EraseMark(live: seq<Entry>, id: string)
    ensures Mark(EraseLive(live), id) == EraseLive(Mark(live, id))
  {
  }

  lemma EraseRest(live: seq<Entry>)
    requires live != []
    ensures EraseLive(live)[0] == EraseEntry(live[0]) && EraseLive(live)[1..] == EraseLive(live[1..])
    ensures EraseLive(live) == [EraseEntry(live[0])] + EraseLive(live[1..])
  {
  }

  lemma EraseCons(e: Entry, live: seq<Entry>)
    ensures EraseLive([e] + live) == [EraseEntry(e)] + EraseLive(live)
  {
  }

  lemma {:induction false} ErasePut(live: seq<Entry>, e: Entry)
    ensures Put(EraseLive(live), EraseEntry(e)) == EraseLive(Put(live, e))
  {
    if live == [] {
      EraseCons(e, []);
    } else {
      EraseRest(live);
      EraseCons(e, live[1..]);
      ErasePut(live[1..], e);
      EraseCons(live[0], Put(live[1..], e));
    }
  }

  lemma {:induction false} EraseDrop(live: seq<Entry>, id: string)
    ensures Drop(EraseLive(live), id) == EraseLive(Drop(live, id))
  {
    if live != [] {
      EraseRest(live);
      EraseDrop(live[1..], id);
      EraseCons(live[0], Drop(live[1..], id));
    }
  }

  lemma {:induction false} EraseFind(live: seq<Entry>, id: string)
    ensures Find(EraseLive(live), id) == match Find(live, id) case None => None case Some(e) => Some(EraseEntry(e))
  {
    if live != [] {
      EraseRest(live);
      EraseFind(live[1..], id);
    }
  }

  lemma {:induction false} EraseTargets(live: seq<Entry>, ids: seq<string>)
    ensures Targets(EraseLive(live), ids) == Targets(live, ids)
  {
    if ids != [] {
      EraseFind(live, ids[0]);
      EraseTargets(live, ids[1..]);
    }
  }

  lemma ErasePersist(env: Env, r: Reg)
    ensures Persist(env, EraseReg(r)).0 == EraseReg(Persist(env, r).0)
    ensures Persist(env, EraseReg(r)).1 == Persist(env, r).1
  {
    EraseRecords(r.live);
  }

  lemma EraseAdd(env: Env, r: Reg, e: Entry)
    ensures Add(env, EraseReg(r), EraseEntry(e)).0 == EraseReg(Add(env, r, e).0)
    ensures Add(env, EraseReg(r), EraseEntry(e)).1 == Add(env, r, e).1
  {
    ErasePut(r.live, e);
    ErasePersist(env, r.(live := Put(r.live, e)));
  }

  lemma EraseRevokeOne(env: Env, r: Reg, info: Info, reason: string)
    ensures RevokeOne(env, EraseReg(r), info, reason).0 == EraseReg(RevokeOne(env, r, info, reason).0)
    ensures RevokeOne(env, EraseReg(r), info, reason).1 == RevokeOne(env, r, info, reason).1
  {
    EraseMark(r.live, info.id);
    EraseDrop(r.live, info.id);
  }

  lemma {:induction false} EraseRevokeEach(env: Env, r: Reg, ts: seq<Info>, reason: string)
    ensures RevokeEach(env, EraseReg(r), ts, reason).0 == EraseReg(RevokeEach(env, r, ts, reason).0)
    ensures RevokeEach(env, EraseReg(r), ts, reason).1 == RevokeEach(env, r, ts, reason).1
    decreases |ts|
  {
    if ts != [] {
      EraseRevokeOne(env, r, ts[0], reason);
      EraseRevokeEach(env, RevokeOne(env, r, ts[0], reason).0, ts[1..], reason);
    }
  }

  lemma EraseRevoke(env: Env, r: Reg, ids: seq<string>, reason: string)
    ensures Revoke(env, EraseReg(r), ids, reason).0 == EraseReg(Revoke(env, r, ids, reason).0)
    ensures Revoke(env, EraseReg(r), ids, reason).1 == Revoke(env, r, ids, reason).1
  {
    var ts := Targets(r.live, Dedup(ids));
    var cleared := r.(live := Clear(r.live, ids));
    EraseTargets(r.live, Dedup(ids));
    EraseClear(r.live, ids);
    EraseRevokeEach(env, cleared, ts, reason);
    ErasePersist(env, RevokeEach(env, cleared, ts, reason).0);
  }

  lemma {:induction false} EraseDue(live: seq<Entry>, now: real, alive: (int, Option<int>) -> bool, why: Reason)
    ensures Due(EraseLive(live), now, alive, why) == Due(live, now, alive, why)
  {
    if live != [] {
      var n := |live| - 1;
      assert EraseLive(live)[..n] == EraseLive(live[..n]);
      EraseDue(live[..n], now, alive, why);
    }
  }

  lemma EraseGroup(env: Env, r: Reg, ids: seq<string>, reason: string)
    ensures ReapGroup(env, EraseReg(r), ids, reason).0 == EraseReg(ReapGroup(env, r, ids, reason).0)
    ensures ReapGroup(env, EraseReg(r), ids, reason).1 == ReapGroup(env, r, ids, reason).1
  {
    EraseRevoke(env, r, ids, reason);
  }

  lemma EraseReap(env: Env, r: Reg, now: real, alive: (int, Option<int>) -> bool)
    ensures Reap(env, EraseReg(r), now, alive).0 == EraseReg(Reap(env, r, now, alive).0)
  {
    EraseDue(r.live, now, alive, Expired);
    EraseDue(r.live, now, alive, SessionEnd);
    EraseDue(r.live, now, alive, Retry);
    var expired := Due(r.live, now, alive, Expired);
    var ended := Due(r.live, now, alive, SessionEnd);
    EraseGroup(env, r, expired, "expired");
    var r1 := ReapGroup(env, r, expired, "expired").0;
    EraseGroup(env, r1, ended, "session_end");
    var r2 := ReapGroup(env, r1, ended, "session_end").0;
    EraseGroup(env, r2, Due(r.live, now, alive, Retry), "retry");
  }

  lemma {:induction false} EraseRestore(live: seq<Entry>, file: seq<Record>)
    ensures Restore(EraseLive(live), file) == EraseLive(Restore(live, file))
  {
    if file != [] {
      var n := |file| - 1;
      EraseRestore(live, file[..n]);
      ErasePut(Restore(live, file[..n]), FromRecord(file[n]).(pending := true));
    }
  }

  lemma EraseRecover(env: Env, r: Reg)
    ensures Recover(env, Crash(EraseReg(r))).0 == EraseReg(Recover(env, Crash(r)).0)
  {
    var restored := r.(live := Restore([], r.file));
    EraseRestore([], r.file);
    assert EraseLive([]) == [];
    assert EraseReg(restored) == restored;
    EraseRevoke(env, restored, RecordIds(r.file), "recovered");
  }

  lemma {:induction false} EraseReusable(live: seq<Entry>, c: string, s: string, h: string, now: real, least: real)
    ensures FindReusable(EraseLive(live), c, s, h, now, least) ==
            match FindReusable(live, c, s, h, now, least) case None => None case Some(e) => Some(EraseEntry(e))
  {
    if live != [] {
      EraseRest(live);
      EraseReusable(live[1..], c, s, h, now, least);
    }
  }

  // ---------------------------------------------------------------- the service commutes with erasure

  lemma EraseMeta(e: Entry)
    ensures Metadata(EraseEntry(e)) == Metadata(e)
  {
  }

  lemma EraseMetaList(es: seq<Entry>)
    ensures MetaList(EraseLive(es)) == MetaList(es)
  {
    forall i | 0 <= i < |es| ensures Metadata(EraseLive(es)[i]) == Metadata(es[i]) { EraseMeta(es[i]); }
    assert MetaList(EraseLive(es)).items == MetaList(es).items;
  }

  lemma EraseCheckoutAnswer(e: Entry, v: Fields, reused: bool, source: string, helper: bool, username: Option<string>)
    ensures CheckoutAnswer(EraseEntry(e), map[], reused, source, helper, username)
            == EraseResponse(CheckoutAnswer(e, v, reused, source, helper, username))
  {
    EraseMeta(e);
    var plain := Plain(e, reused, source);
    assert plain["value" := ValueJson(v)]["value" := ValueJson(map[])] == plain["value" := ValueJson(map[])];
    if username.Some? {
      var u := Text(username.value);
      assert plain["value" := ValueJson(v)]["username" := u]["value" := ValueJson(map[])]
          == plain["value" := ValueJson(map[])]["username" := u];
    }
  }

  lemma EraseFresh(env: Env, r: Reg, cap: Cap, session: string, ttl: int, helper: bool, turn: Turn)
    ensures var (a, x) := CheckoutFresh(env, EraseReg(r), cap, session, ttl, helper, EraseTurn(turn));
            var (b, y) := CheckoutFresh(env, r, cap, session, ttl, helper, turn);
            a == EraseReg(b) && x == EraseResponse(y)
  {
    match turn.issued
    case Raised(code) =>
    case Ok(issued) =>
      var e := Fresh(cap, session, ttl, turn, issued);
      assert Fresh(cap, session, ttl, EraseTurn(turn), issued.(value := map[])) == EraseEntry(e);
      EraseAdd(env, r, e);
      EraseCheckoutAnswer(e, issued.value, false, turn.attr.source, helper, cap.delivery.username);
  }

  lemma EraseCheckoutCap(config: Config, env: Env, r: Reg, req: Request, cap: Cap, asked: Option<int>, turn: Turn)
    ensures var (a, x) := CheckoutCap(config, env, EraseReg(r), req, cap, asked, EraseTurn(turn));
            var (b, y) := CheckoutCap(config, env, r, req, cap, asked, turn);
            a == EraseReg(b) && x == EraseResponse(y)
  {
    var session := SessionOf(config, req, turn.attr);
    var ttl := Ttl(cap, asked);
    EraseReusable(r.live, cap.id, session, turn.attr.harness, turn.lookup, MinRemaining(ttl));
    EraseFresh(env, r, cap, session, ttl, req.frontEnd.Some?, turn);
    var found := FindReusable(r.live, cap.id, session, turn.attr.harness, turn.lookup, MinRemaining(ttl));
    if found.Some? {
      var v := if found.value.value.Some? then found.value.value.value else map[];
      EraseCheckoutAnswer(found.value, v, true, turn.attr.source, req.frontEnd.Some?, cap.delivery.username);
    }
  }

  lemma {:induction false} EraseInsert(e: Entry, s: seq<Entry>)
    ensures InsertByIssue(EraseEntry(e), EraseLive(s)) == EraseLive(InsertByIssue(e, s))
  {
    EraseCons(e, s);
    if s != [] {
      EraseRest(s);
      EraseInsert(e, s[1..]);
      EraseCons(s[0], InsertByIssue(e, s[1..]));
    }
  }

  lemma {:induction false} EraseSort(es: seq<Entry>)
    ensures SortByIssue(EraseLive(es)) == EraseLive(SortByIssue(es))
  {
    if es != [] {
      EraseRest(es);
      EraseSort(es[1..]);
      EraseInsert(es[0], SortByIssue(es[1..]));
    }
  }

  lemma {:induction false} EraseChosen(live: seq<Entry>, id: Option<string>, c: Option<string>, s: Option<string>)
    ensures Chosen(EraseLive(live), id, c, s) == EraseLive(Chosen(live, id, c, s))
  {
    if live != [] {
      EraseRest(live);
      EraseChosen(live[1..], id, c, s);
      EraseCons(live[0], Chosen(live[1..], id, c, s));
      assert [] + Chosen(live[1..], id, c, s) == Chosen(live[1..], id, c, s);
    }
  }

  lemma EraseSelect(live: seq<Entry>, id: Option<string>, c: Option<string>, s: Option<string>)
    ensures Select(EraseLive(live), id, c, s) == EraseLive(Select(live, id, c, s))
  {
    EraseChosen(live, id, c, s);
    EraseSort(Chosen(live, id, c, s));
  }

  lemma EraseRevokeTargets(config: Config, r: Reg, req: Request, p: Params, turn: Turn)
    requires p.RevokeParams?
    ensures RevokeTargets(config, EraseReg(r), req, p, EraseTurn(turn)) ==
            match RevokeTargets(config, r, req, p, turn) case Raised(code) => Raised(code) case Ok(es) => Ok(EraseLive(es))
  {
    var session := if p.ownSession then Some(SessionOf(config, req, turn.attr)) else None;
    match p.selector
    case All => EraseSelect(r.live, None, None, session);
    case OneCheckout(id) => EraseSelect(r.live, Some(id), None, session);
    case OfCapability(target) =>
      var cap := Resolve(config, target);
      if cap.Ok? { EraseSelect(r.live, None, Some(cap.value.id), session); }
  }

  lemma EraseRevokeRequest(config: Config, env: Env, r: Reg, req: Request, p: Params, turn: Turn)
    requires p.RevokeParams?
    ensures var (a, x) := RevokeRequest(config, env, EraseReg(r), req, p, EraseTurn(turn));
            var (b, y) := RevokeRequest(config, env, r, req, p, turn);
            a == EraseReg(b) && x == y
  {
    EraseRevokeTargets(config, r, req, p, turn);
    var targets := RevokeTargets(config, r, req, p, turn);
    if targets.Ok? {
      EraseMetaList(targets.value);
      EraseRecords(targets.value);
      EraseRevoke(env, r, Ids(targets.value), "requested");
    }
  }

  lemma {:induction false} EraseCount(live: seq<Entry>)
    ensures CountPending(EraseLive(live)) == CountPending(live)
  {
    if live != [] {
      var n := |live| - 1;
      assert EraseLive(live)[..n] == EraseLive(live[..n]);
      EraseCount(live[..n]);
    }
  }

  lemma EraseStatus(config: Config, env: Env, r: Reg)
    ensures Status(config, env, EraseReg(r)) == Status(config, env, r)
  {
    EraseCount(r.live);
  }

  lemma EraseList(r: Reg, c: Option<string>, s: Option<string>)
    ensures ListAnswer(EraseReg(r), c, s) == ListAnswer(r, c, s)
  {
    EraseSelect(r.live, None, c, s);
    EraseMetaList(Select(r.live, None, c, s));
  }

  // ---------------------------------------------------------------- the value rule

  /** Every answer but a helper's checkout is free of values and unmarked. */
  lemma Valueless(config: Config, env: Env, r: Reg, req: Request, turn: Turn)
    requires !req.params.CheckoutParams?
    ensures var resp := Dispatch(config, env, r, req, turn).1;
            resp.Answer? ==> "value" !in resp.result && !resp.carriesSecret
  {
  }

  lemma CheckoutShape(config: Config, env: Env, r: Reg, req: Request, turn: Turn)
    requires req.params.CheckoutParams?
    ensures var resp := Dispatch(config, env, r, req, turn).1;
            resp.Answer? ==> ("value" in resp.result <==> req.frontEnd.Some?) && (resp.carriesSecret <==> req.frontEnd.Some?)
  {
  }

  /** No dispatched answer is ever refused by the value rule. */
  lemma DispatchedShapeOk(config: Config, env: Env, r: Reg, req: Request, turn: Turn)
    ensures ShapeOk(MethodOf(req), req.frontEnd, Dispatch(config, env, r, req, turn).1)
    ensures Respond(config, env, r, req, turn) == Dispatch(config, env, r, req, turn)
  {
    if req.params.CheckoutParams? {
      CheckoutShape(config, env, r, req, turn);
    } else {
      Valueless(config, env, r, req, turn);
    }
  }

  // ---------------------------------------------------------------- non-interference

  lemma EraseDispatch(config: Config, env: Env, r: Reg, req: Request, turn: Turn)
    ensures var (a, x) := Dispatch(config, env, EraseReg(r), req, EraseTurn(turn));
            var (b, y) := Dispatch(config, env, r, req, turn);
            a == EraseReg(b) && x == EraseResponse(y)
  {
    match req.params
    case CheckoutParams(target, ttl) =>
      var cap := Permit(config, env, req, target, turn.attr);
      if cap.Ok? { EraseCheckoutCap(config, env, r, req, cap.value, ttl, turn); }
    case RevokeParams(_, _, _) =>
      EraseRevokeRequest(config, env, r, req, req.params, turn);
      Valueless(config, env, r, req, turn);
    case ListParams(c, s) =>
      EraseList(r, c, s);
      Valueless(config, env, r, req, turn);
    case StatusParams =>
      EraseStatus(config, env, r);
      Valueless(config, env, r, req, turn);
  }

  function EraseAnswer(a: Option<Response>): Option<Response> {
    match a case None => None case Some(resp) => Some(EraseResponse(resp))
  }

  lemma EraseHappen(config: Config, env: Env, r: Reg, h: Happening)
    ensures var (a, x) := Happen(config, env, EraseReg(r), EraseHappening(h));
            var (b, y) := Happen(config, env, r, h);
            a == EraseReg(b) && x == EraseAnswer(y)
  {
    match h
    case Ask(req, turn) =>
      DispatchedShapeOk(config, env, r, req, turn);
      DispatchedShapeOk(config, env, EraseReg(r), req, EraseTurn(turn));
      EraseDispatch(config, env, r, req, turn);
    case ReapTurn(now, alive) => EraseReap(env, r, now, alive);
    case Restart => EraseRecover(env, r);
    case Shutdown =>
      EraseRecords(r.live);
      EraseRevoke(env, r, Ids(r.live), "shutdown");
  }

  function EraseAll(hs: seq<Happening>): (es: seq<Happening>) {
    if hs == [] then [] else [EraseHappening(hs[0])] + EraseAll(hs[1..])
  }

  function EraseAnswers(xs: seq<Option<Response>>): (es: seq<Option<Response>>) {
    if xs == [] then [] else [EraseAnswer(xs[0])] + EraseAnswers(xs[1..])
  }

  lemma {:induction false} EraseRun(config: Config, env: Env, r: Reg, hs: seq<Happening>)
    ensures var (a, x) := Run(config, env, EraseReg(r), EraseAll(hs));
            var (b, y) := Run(config, env, r, hs);
            a == EraseReg(b) && x == EraseAnswers(y)
    decreases |hs|
  {
    if hs != [] {
      EraseHappen(config, env, r, hs[0]);
      EraseRun(config, env, Happen(config, env, r, hs[0]).0, hs[1..]);
    }
  }

  predicate HelperCheckout(h: Happening) {
    h.Ask? && h.req.params.CheckoutParams? && h.req.frontEnd.Some?
  }

  /**
   Two runs that differ only in the values the issuers hand out leave the same
   state file, make the same revocation calls and emit the same events.
   */
  lemma SameRecords(config: Config, env: Env, r1: Reg, r2: Reg, hs1: seq<Happening>, hs2: seq<Happening>)
    requires EraseReg(r1) == EraseReg(r2) && EraseAll(hs1) == EraseAll(hs2)
    ensures var a := Run(config, env, r1, hs1).0;
            var b := Run(config, env, r2, hs2).0;
            a.file == b.file && a.events == b.events && a.attempts == b.attempts && a.writes == b.writes && Ids(a.live) == Ids(b.live)
  {
    EraseRun(config, env, r1, hs1);
    EraseRun(config, env, r2, hs2);
    EraseRecords(Run(config, env, r1, hs1).0.live);
    EraseRecords(Run(config, env, r2, hs2).0.live);
  }

  lemma {:induction false} AnswerAt(config: Config, env: Env, r: Reg, hs: seq<Happening>, i: nat) returns (at: Reg)
    requires i < |hs|
    ensures |Run(config, env, r, hs).1| == |hs|
    ensures Run(config, env, r, hs).1[i] == Happen(config, env, at, hs[i]).1
    decreases |hs|
  {
    RunLength(config, env, r, hs);
    RunNext(config, env, r, hs);
    if i == 0 {
      at := r;
    } else {
      at := AnswerAt(config, env, Happen(config, env, r, hs[0]).0, hs[1..], i - 1);
    }
  }

  lemma RunNext(config: Config, env: Env, r: Reg, hs: seq<Happening>)
    requires hs != []
    ensures Run(config, env, r, hs).1 == [Happen(config, env, r, hs[0]).1] + Run(config, env, Happen(config, env, r, hs[0]).0, hs[1..]).1
  {
  }

  lemma {:induction false} RunLength(config: Config, env: Env, r: Reg, hs: seq<Happening>)
    ensures |Run(config, env, r, hs).1| == |hs|
    decreases |hs|
  {
    if hs != [] { RunLength(config, env, Happen(config, env, r, hs[0]).0, hs[1..]); }
  }

  lemma {:induction false} EraseAnswersAt(xs: seq<Option<Response>>, i: nat)
    requires i < |xs|
    ensures |EraseAnswers(xs)| == |xs| && EraseAnswers(xs)[i] == EraseAnswer(xs[i])
  {
    if i > 0 { EraseAnswersAt(xs[1..], i - 1); } else if |xs| > 1 { EraseAnswersAt(xs[1..], 0); }
  }

  lemma Unmarked(config: Config, env: Env, at: Reg, h: Happening)
    requires !HelperCheckout(h)
    ensures var x := Happen(config, env, at, h).1; EraseAnswer(x) == x
  {
    if h.Ask? {
      DispatchedShapeOk(config, env, at, h.req, h.turn);
    }
  }

  /** And they answer the same to everything that is not a helper's checkout. */
  lemma SameAnswers(config: Config, env: Env, r1: Reg, r2: Reg, hs1: seq<Happening>, hs2: seq<Happening>, i: nat)
    requires EraseReg(r1) == EraseReg(r2) && EraseAll(hs1) == EraseAll(hs2) && |hs1| == |hs2| && i < |hs1|
    requires !HelperCheckout(hs1[i]) && !HelperCheckout(hs2[i])
    ensures |Run(config, env, r1, hs1).1| == |Run(config, env, r2, hs2).1| == |hs1|
    ensures Run(config, env, r1, hs1).1[i] == Run(config, env, r2, hs2).1[i]
  {
    EraseRun(config, env, r1, hs1);
    EraseRun(config, env, r2, hs2);
    var at1 := AnswerAt(config, env, r1, hs1, i);
    var at2 := AnswerAt(config, env, r2, hs2, i);
    Unmarked(config, env, at1, hs1[i]);
    Unmarked(config, env, at2, hs2[i]);
    EraseAnswersAt(Run(config, env, r1, hs1).1, i);
    EraseAnswersAt(Run(config, env, r2, hs2).1, i);
  }
}
