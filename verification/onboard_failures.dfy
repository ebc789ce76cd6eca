/**
 Two runs of onboarding that its documentation does not lead one to expect: one
 that succeeds and is not clean, and one whose rollback puts back a plane file
 that no longer works.
 */
module OnboardFailures {
  import opened Base
  import opened OnboardSpec
  import opened OnboardRollback
  import opened OnboardAgreement
  import P = PlaneEnv

  // ---------------------------------------------------------------- a success that is not clean

  /** Vault can be read, every call returns, and what it returns is well formed. */
  ghost predicate Obliging(env: Env) {
    Readable(env) && forall n :: env.ok(n) && env.tellsSecret(n) && env.secretText(n) != "" && env.newRoleId(n) != ""
  }

  ghost predicate Named(cap: Cap, w: World) {
    cap.rname in w.roles ==> w.roles[cap.rname].roleId != ""
  }

  ghost predicate GoingWell(cap: Cap, r: Run, k: nat) {
    !r.aborted && Named(cap, r.w) && (k >= 2 ==> r.roleId.Some?)
  }

  lemma ObligingRole(env: Env, cap: Cap, w: World)
    requires Obliging(env) && Named(cap, w)
    ensures var (w', s, id, u) := ApplyRole(env, cap, w); s != Failed && id.Some? && Named(cap, w')
  {
  }

  lemma ObligingPlane(env: Env, cap: Cap, w: World, id: string, path: string)
    requires Obliging(env)
    ensures var (w', s, u) := ApplyPlane(env, cap, w, Some(id), path); s != Failed && w'.roles == w.roles
  {
    PlaneOutcome(env, cap, w, Some(id), path);
  }

  lemma ObligingStep(env: Env, cap: Cap, values: Option<map<string, string>>, r: Run, k: nat)
    requires Obliging(env) && k < |Plan(cap)| && GoingWell(cap, r, k)
    ensures GoingWell(cap, Step(env, cap, values, r, Plan(cap)[k]), k + 1)
  {
    PlanShape(cap, k);
    if k == 1 {
      ObligingRole(env, cap, r.w);
    } else if 2 <= k < |cap.planes| + 2 {
      ObligingPlane(env, cap, r.w, r.roleId.value, cap.planes[k - 2]);
    }
  }

  lemma {:induction false} ObligingPrefix(env: Env, cap: Cap, values: Option<map<string, string>>, w: World, k: nat)
    requires Obliging(env) && Named(cap, w) && k <= |Plan(cap)|
    ensures GoingWell(cap, Prefix(env, cap, values, w, k), k)
  {
    assert Plan(cap)[..0] == [];
    if k > 0 {
      ObligingPrefix(env, cap, values, w, k - 1);
      PrefixNext(env, cap, values, w, k - 1);
      ObligingStep(env, cap, values, Prefix(env, cap, values, w, k - 1), k - 1);
    }
  }

  lemma ObligingSucceeds(env: Env, cap: Cap, w: World, values: map<string, string>)
    requires Obliging(env) && Named(cap, w)
    ensures Succeeded(env, cap, w, values)
  {
    var n := |Plan(cap)|;
    assert Plan(cap)[..n] == Plan(cap);
    ObligingPrefix(env, cap, Some(values), w, n);
    forall a ensures Did(a, Failed) !in Apply(env, cap, w, Some(values)).1 {
      if Did(a, Failed) in Prefix(env, cap, Some(values), w, n).rows {
        FailedAborts(env, cap, Some(values), w, n, a);
      }
    }
  }

  /**
   Everything is granted and every step succeeds; but with an address that no
   plane file can carry, the check that follows is not clean, and the new plane
   is one for which every further run mints another SecretID.
   */
  lemma SuccessNotClean(env: Env, cap: Cap, w: World, values: map<string, string>, j: nat)
    requires Obliging(env) && Named(cap, w) && OneLineSecrets(env) && PathsApart(cap.planes)
    requires j < |cap.planes| && cap.planes[j] !in w.files && !P.Plain(cap.addr)
    ensures var w' := Apply(env, cap, w, Some(values)).0;
      Succeeded(env, cap, w, values) && !Clean(Check(env, cap, w')) && Unsettled(cap, w', j)
  {
    ObligingSucceeds(env, cap, w, values);
    CleanAfterApplyIff(env, cap, w, values);
    FirstUnsettles(env, cap, w, values, j);
  }

  const EMPTY := World(map[], map[], map[], map[], map[], 0, 0, {})

  function Granting(ok: nat -> bool, secret: string): Env {
    Env(Clear, Clear, true, true, true, p => true, ok, n => false, p => true, n => secret, n => true, n => true, n => "i")
  }

  /** An address with a space before it, onboarded into an empty Vault with every call returning. */
  lemma SpacedAddress()
    ensures var env, cap := Granting(n => true, "s"), Cap("p", "r", "h", ["f"], "k", " a");
      var w' := Apply(env, cap, EMPTY, Some(map[])).0;
      Succeeded(env, cap, EMPTY, map[]) && !Clean(Check(env, cap, w')) && Unsettled(cap, w', 0)
  {
    var env, cap := Granting(n => true, "s"), Cap("p", "r", "h", ["f"], "k", " a");
    BakInjective("f", "f");
    assert !P.Plain(" a") by { assert P.IsSpace(" a"[0]); }
    SuccessNotClean(env, cap, EMPTY, map[], 0);
  }

  // ---------------------------------------------------------------- a rollback that leaves a dead plane

  /** Policy and role are as declared; the one plane file names a live SecretID, under another address. */
  ghost predicate Moved(env: Env, cap: Cap, w: World, p: string, id: string) {
    && cap.planes == [p] && cap.kvPath !in w.kv && WellFormed(w)
    && PolicyMatches(env, cap, w) && RoleMatches(env, cap, w) && ReadRoleId(env, cap, w) == Some(id)
    && !PlaneMatches(env, cap, w, id, p) && NamesLive(env, cap, w, p)
  }

  /** Every call returns but the fourth, which writes the value. */
  ghost predicate AllButValue(env: Env, cap: Cap, w: World, p: string) {
    && Readable(env) && env.staleReadable && env.staleDrops(p)
    && (forall n :: env.ok(n) <==> n != w.calls + 3) && (forall n :: !env.took(n))
    && (forall n :: env.tellsSecret(n) && env.tellsAccessor(n) && env.secretText(n) != "")
    && FreshTexts(env, cap, w)
  }

  /** The plane step mints, writes and revokes: three calls, two undos. */
  lemma PlaneMoves(env: Env, cap: Cap, w: World, p: string, id: string)
    requires Moved(env, cap, w, p, id) && AllButValue(env, cap, w, p)
    ensures var (w', s, u) := ApplyPlane(env, cap, w, Some(id), p);
      s == Applied && w'.calls == w.calls + 3 && |u| == 2 && w'.kv == w.kv
  {
    var stale, n := StaleSecret(env, w, p), w.minted;
    var m := Mint(env, cap, w);
    var k :| k in w.secrets && w.secrets[k] == Secret(cap.rname, stale);
    assert k in Found(cap, WriteFile(m, p, P.PlaneText(cap.addr, id, env.secretText(n))), stale);
    assert Provision(env, cap, w, id, p, stale) == Install(env, cap, m, n, id, p, stale);
  }

  /** The first two steps find nothing to do. */
  lemma PolicyThenRole(env: Env, cap: Cap, w: World, values: Option<map<string, string>>, p: string, id: string)
    requires Moved(env, cap, w, p, id)
    ensures var r1 := Step(env, cap, values, Run(w, [], None, [], false), CreatePolicy);
      && r1 == Run(w, [], None, [Did(CreatePolicy, Converged)], false)
      && Step(env, cap, values, r1, CreateRole) == Run(w, [], Some(id), [Did(CreatePolicy, Converged), Did(CreateRole, Converged)], false)
  {
    PolicyAgrees(env, cap, w);
    RoleAgrees(env, cap, w);
  }

  lemma PlaneThenValue(env: Env, cap: Cap, w: World, values: map<string, string>, p: string, id: string, r: Run)
    requires Moved(env, cap, w, p, id) && AllButValue(env, cap, w, p)
    requires r.w == w && r.undo == [] && !r.aborted && r.roleId == Some(id)
    ensures var r' := Step(env, cap, Some(values), Step(env, cap, Some(values), r, WritePlane(p)), WriteKv);
      && r'.aborted && r'.w.calls == w.calls + 4 && |r'.undo| == 2
      && r'.rows == r.rows + [Did(WritePlane(p), Applied), Did(WriteKv, Failed)]
  {
    PlaneMoves(env, cap, w, p, id);
    PlaneTaken(env, cap, values, r, p);
    ValueRefused(env, cap, values, Step(env, cap, Some(values), r, WritePlane(p)));
  }

  lemma PlaneTaken(env: Env, cap: Cap, values: map<string, string>, r: Run, p: string)
    requires !r.aborted && r.undo == [] && ApplyPlane(env, cap, r.w, r.roleId, p).1 == Applied
    ensures var (w', s, u) := ApplyPlane(env, cap, r.w, r.roleId, p);
      Step(env, cap, Some(values), r, WritePlane(p)) == Run(w', u, r.roleId, r.rows + [Did(WritePlane(p), Applied)], false)
  {
    var (w', s, u) := ApplyPlane(env, cap, r.w, r.roleId, p);
    assert [] + u == u;
  }

  lemma ValueRefused(env: Env, cap: Cap, values: map<string, string>, r: Run)
    requires !r.aborted && cap.kvPath !in r.w.kv && !env.ok(r.w.calls) && !env.took(r.w.calls)
    ensures Step(env, cap, Some(values), r, WriteKv) == Run(Call(r.w), r.undo, r.roleId, r.rows + [Did(WriteKv, Failed)], true)
  {
  }

  lemma FourSteps(env: Env, cap: Cap, values: Option<map<string, string>>, start: Run, p: string)
    requires cap.planes == [p]
    ensures Steps(env, cap, values, start, Plan(cap)) ==
            Step(env, cap, values, Step(env, cap, values, Step(env, cap, values, Step(env, cap, values, start,
              CreatePolicy), CreateRole), WritePlane(p)), WriteKv)
  {
    FourPlan(cap, p);
    StepsOf(env, cap, values, start, CreatePolicy, CreateRole, WritePlane(p), WriteKv);
  }

  lemma FourPlan(cap: Cap, p: string)
    requires cap.planes == [p]
    ensures Plan(cap) == [CreatePolicy, CreateRole, WritePlane(p), WriteKv]
  {
  }

  lemma StepsOf(env: Env, cap: Cap, values: Option<map<string, string>>, start: Run, a: Action, b: Action, c: Action, d: Action)
    ensures Steps(env, cap, values, start, [a, b, c, d]) ==
            Step(env, cap, values, Step(env, cap, values, Step(env, cap, values, Step(env, cap, values, start, a), b), c), d)
  {
    StepsLast(env, cap, values, start, [], a);
    StepsLast(env, cap, values, start, [a], b);
    StepsLast(env, cap, values, start, [a, b], c);
    StepsLast(env, cap, values, start, [a, b, c], d);
    assert [] + [a] == [a] && [a] + [b] == [a, b] && [a, b] + [c] == [a, b, c] && [a, b, c] + [d] == [a, b, c, d];
  }

  lemma StepsLast(env: Env, cap: Cap, values: Option<map<string, string>>, start: Run, plan: seq<Action>, a: Action)
    ensures Steps(env, cap, values, start, plan + [a]) == Step(env, cap, values, Steps(env, cap, values, start, plan), a)
  {
    assert (plan + [a])[..|plan|] == plan;
  }

  lemma WholePlan(env: Env, cap: Cap, w: World, values: map<string, string>, p: string, id: string)
    requires Moved(env, cap, w, p, id) && AllButValue(env, cap, w, p)
    ensures var r := Steps(env, cap, Some(values), Run(w, [], None, [], false), Plan(cap));
      && r.aborted && r.w.calls == w.calls + 4 && |r.undo| == 2
      && r.rows == [Did(CreatePolicy, Converged), Did(CreateRole, Converged), Did(WritePlane(p), Applied), Did(WriteKv, Failed)]
  {
    FourSteps(env, cap, Some(values), Run(w, [], None, [], false), p);
    PolicyThenRole(env, cap, w, Some(values), p, id);
    PlaneThenValue(env, cap, w, values, p, id, Run(w, [], Some(id), [Did(CreatePolicy, Converged), Did(CreateRole, Converged)], false));
  }

  lemma BothUndone(env: Env, cap: Cap, w: World, undo: seq<Undo>)
    requires |undo| == 2 && env.ok(w.calls) && env.ok(w.calls + 1)
    ensures Unwind(env, cap, w, undo).1 == [RolledBack(undo[1]), RolledBack(undo[0])]
  {
    var w1 := UndoOne(env, cap, w, undo[1]);
    assert w1.calls == w.calls + 1;
    var u := undo[..1];
    assert u[..0] == [];
    assert Unwind(env, cap, w1, u).1 == [RolledBack(u[0])] + Unwind(env, cap, UndoOne(env, cap, w1, u[0]), u[..0]).1;
  }

  lemma MovedRows(env: Env, cap: Cap, w: World, values: map<string, string>, p: string, id: string)
    requires Moved(env, cap, w, p, id) && AllButValue(env, cap, w, p)
    ensures var rows := Apply(env, cap, w, Some(values)).1;
      Did(WritePlane(p), Applied) in rows && RolledBackRun(env, cap, w, Some(values))
  {
    WholePlan(env, cap, w, values, p, id);
    var r := Steps(env, cap, Some(values), Run(w, [], None, [], false), Plan(cap));
    BothUndone(env, cap, r.w, r.undo);
    RowsJoined(env, cap, w, values, r, p);
  }

  lemma RowsJoined(env: Env, cap: Cap, w: World, values: map<string, string>, r: Run, p: string)
    requires r.aborted && r == Steps(env, cap, Some(values), Run(w, [], None, [], false), Plan(cap)) && |r.undo| == 2
    requires r.rows == [Did(CreatePolicy, Converged), Did(CreateRole, Converged), Did(WritePlane(p), Applied), Did(WriteKv, Failed)]
    requires Unwind(env, cap, r.w, r.undo).1 == [RolledBack(r.undo[1]), RolledBack(r.undo[0])]
    ensures var rows := Apply(env, cap, w, Some(values)).1;
      Did(WritePlane(p), Applied) in rows && RolledBackRun(env, cap, w, Some(values))
  {
    var rows := Apply(env, cap, w, Some(values)).1;
    assert rows == r.rows + [RolledBack(r.undo[1]), RolledBack(r.undo[0])];
    assert rows[2] == Did(WritePlane(p), Applied) && rows[3] == Did(WriteKv, Failed);
  }

  /**
   Onboarding after the address moved, in which only the last call raises: it is
   rolled back in full, every undo returning, and the plane file that was there is
   put back. It named a live SecretID before the run and names none after it.
   */
  lemma RolledBackDead(env: Env, cap: Cap, w: World, values: map<string, string>, p: string, id: string)
    requires Moved(env, cap, w, p, id) && AllButValue(env, cap, w, p)
    ensures var w' := Apply(env, cap, w, Some(values)).0;
      RolledBackRun(env, cap, w, Some(values)) && SameFile(w, w', p) && !NamesLive(env, cap, w', p)
  {
    MovedRows(env, cap, w, values, p, id);
    BakInjective(p, p);
    FailedRunRestores(env, cap, w, Some(values));
    RestoredPlaneLives(env, cap, w, Some(values), p);
    assert Replaces(env, w, Apply(env, cap, w, Some(values)).1, p, StaleSecret(env, w, p));
  }

  /** One plane, onboarded when another address was declared. */
  function Onboarded(cap: Cap, p: string, addr: string, id: string, secret: string): World {
    World(map[cap.pname := cap.hcl], map[cap.rname := Role(Desired(cap.pname), id)], map[0 := Secret(cap.rname, secret)], map[],
          map[p := File(Text(P.PlaneText(addr, id, secret)), true)], 0, 1, {})
  }

  lemma OnboardedFile(env: Env, cap: Cap, p: string, addr: string, id: string, secret: string)
    requires Readable(env) && P.Plain(addr) && P.Plain(id) && P.Plain(secret)
    ensures var read := ReadPlane(env, Onboarded(cap, p, addr, id, secret), p);
      read.Pairs? && P.ADDR in read.env && read.env[P.ADDR] == addr && Get(read.env, P.SECRET_ID) == secret
  {
    P.RoundTrip(addr, id, secret);
    P.WrittenAt(addr, id, secret);
  }

  lemma OnboardedRole(env: Env, cap: Cap, p: string, addr: string, id: string, secret: string)
    requires Readable(env) && id != ""
    ensures var w := Onboarded(cap, p, addr, id, secret);
      PolicyMatches(env, cap, w) && RoleMatches(env, cap, w) && ReadRoleId(env, cap, w) == Some(id)
  {
    DesiredMatches(cap.pname);
  }

  lemma OnboardedMoved(env: Env, cap: Cap, p: string, addr: string, id: string, secret: string)
    requires Readable(env) && P.Plain(addr) && P.Plain(id) && P.Plain(secret) && id != "" && secret != ""
    requires cap.planes == [p] && cap.addr != addr
    ensures Moved(env, cap, Onboarded(cap, p, addr, id, secret), p, id)
    ensures StaleSecret(env, Onboarded(cap, p, addr, id, secret), p) == secret
  {
    var w := Onboarded(cap, p, addr, id, secret);
    OnboardedFile(env, cap, p, addr, id, secret);
    OnboardedRole(env, cap, p, addr, id, secret);
    assert StaleSecret(env, w, p) == secret;
    assert w.secrets[0] == Secret(cap.rname, secret);
  }

  /** Such worlds: onboarded for one address, with another one declared now; a new SecretID has another text. */
  lemma AddressMoved(cap: Cap, values: map<string, string>, p: string, addr: string, id: string, secret: string, next: string)
    requires cap.planes == [p] && P.Plain(addr) && P.Plain(id) && P.Plain(secret) && cap.addr != addr
    requires id != "" && secret != "" && next != "" && next != secret
    ensures var env, w := Granting(n => n != 3, next), Onboarded(cap, p, addr, id, secret);
      var w' := Apply(env, cap, w, Some(values)).0;
      RolledBackRun(env, cap, w, Some(values)) && SameFile(w, w', p) && NamesLive(env, cap, w, p) && !NamesLive(env, cap, w', p)
  {
    var env, w := Granting(n => n != 3, next), Onboarded(cap, p, addr, id, secret);
    OnboardedMoved(env, cap, p, addr, id, secret);
    RolledBackDead(env, cap, w, values, p, id);
  }
}
