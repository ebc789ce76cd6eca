/** The drift check and the applier agree about when there is nothing to do. */
module OnboardAgreement {
  import opened Base
  import opened OnboardSpec
  import opened OnboardRollback
  import P = PlaneEnv

  type Values = map<string, string>

  lemma PolicyAgrees(env: Env, cap: Cap, w: World)
    ensures CheckPolicy(env, cap, w) == Fine <==> PolicyMatches(env, cap, w)
    ensures ApplyPolicy(env, cap, w).0.calls == w.calls <==> PolicyMatches(env, cap, w)
    ensures PolicyMatches(env, cap, w) ==> ApplyPolicy(env, cap, w) == (w, Converged, [])
  {
  }

  lemma RoleAgrees(env: Env, cap: Cap, w: World)
    ensures CheckRole(env, cap, w).0 == Fine <==> RoleMatches(env, cap, w)
    ensures ApplyRole(env, cap, w).0.calls == w.calls <==> RoleMatches(env, cap, w)
    ensures RoleMatches(env, cap, w) ==>
              var id := ReadRoleId(env, cap, w);
              CheckRole(env, cap, w).1 == id && ApplyRole(env, cap, w) == (w, if id.Some? then Converged else Failed, id, [])
  {
    WrittenRoleCalls(env, cap, w);
  }

  lemma WrittenRoleCalls(env: Env, cap: Cap, w: World)
    ensures CreateOrUpdateRole(env, cap, w).0.calls == w.calls + 1
  {
  }

  lemma ProvisionCalls(env: Env, cap: Cap, w: World, roleId: string, path: string, stale: string)
    ensures Provision(env, cap, w, roleId, path, stale).0.calls > w.calls
  {
    InstallCalls(env, cap, Mint(env, cap, w), w.minted, roleId, path, stale);
  }

  lemma InstallCalls(env: Env, cap: Cap, w: World, n: nat, roleId: string, path: string, stale: string)
    ensures Install(env, cap, w, n, roleId, path, stale).0.calls > w.calls
  {
    StaleCalls(env, cap, WriteFile(w, path, P.PlaneText(cap.addr, roleId, env.secretText(n))), path, stale);
  }

  lemma StaleCalls(env: Env, cap: Cap, w: World, path: string, stale: string)
    ensures RevokeStale(env, cap, w, path, stale).calls >= w.calls
  {
  }

  lemma PlaneAgrees(env: Env, cap: Cap, w: World, roleId: Option<string>, path: string)
    requires roleId.Some? ==> roleId.value != ""
    ensures CheckPlane(env, cap, w, roleId, path) == Fine <==> roleId.Some? && PlaneMatches(env, cap, w, roleId.value, path)
    ensures roleId.Some? && PlaneMatches(env, cap, w, roleId.value, path) ==> ApplyPlane(env, cap, w, roleId, path) == (w, Converged, [])
    ensures !(roleId.Some? && PlaneMatches(env, cap, w, roleId.value, path)) ==>
              ApplyPlane(env, cap, w, roleId, path).0.calls > w.calls || ApplyPlane(env, cap, w, roleId, path).1 == Failed
    ensures ApplyPlane(env, cap, w, roleId, path).0.calls >= w.calls
  {
    if roleId.Some? {
      ProvisionCalls(env, cap, w, roleId.value, path, StaleSecret(env, w, path));
    }
  }

  lemma KvAgrees(env: Env, cap: Cap, w: World, values: Values)
    ensures CheckKv(env, cap, w) == Fine <==> ApplyKv(env, cap, w, Some(values)).0.calls == w.calls
    ensures CheckKv(env, cap, w) == Fine ==> ApplyKv(env, cap, w, Some(values)) == (w, Skipped)
  {
  }

  /** Nothing changed and nothing failed in the first `k` steps. */
  ghost predicate Idle(env: Env, cap: Cap, w: World, r: Run, k: nat) {
    && r.w == w && r.undo == [] && !r.aborted
    && (k >= 2 ==> r.roleId == CheckRole(env, cap, w).1 && r.roleId.Some? && r.roleId.value != "")
  }

  /** A step taken on the checked state changes nothing and does not fail exactly when its row is fine. */
  ghost predicate Agree(env: Env, cap: Cap, w: World, r': Run, k: nat, fine: bool) {
    && r'.w.calls >= w.calls
    && (fine <==> r'.w.calls == w.calls && !r'.aborted)
    && (fine ==> Idle(env, cap, w, r', k + 1))
  }

  lemma PolicyIdle(env: Env, cap: Cap, values: Option<Values>, w: World, r: Run)
    requires Idle(env, cap, w, r, 0)
    ensures Agree(env, cap, w, Step(env, cap, values, r, CreatePolicy), 0, CheckPolicy(env, cap, w) == Fine)
  {
    PolicyAgrees(env, cap, w);
  }

  lemma RoleIdle(env: Env, cap: Cap, values: Option<Values>, w: World, r: Run)
    requires Idle(env, cap, w, r, 1)
    ensures Agree(env, cap, w, Step(env, cap, values, r, CreateRole), 1,
                  CheckRole(env, cap, w).0 == Fine && CheckRole(env, cap, w).1.Some?)
  {
    RoleAgrees(env, cap, w);
    WrittenRoleCalls(env, cap, w);
  }

  lemma PlaneIdle(env: Env, cap: Cap, values: Option<Values>, w: World, r: Run, k: nat, path: string)
    requires k >= 2 && Idle(env, cap, w, r, k)
    ensures Agree(env, cap, w, Step(env, cap, values, r, WritePlane(path)), k, CheckPlane(env, cap, w, r.roleId, path) == Fine)
  {
    PlaneAgrees(env, cap, w, r.roleId, path);
  }

  lemma KvIdle(env: Env, cap: Cap, values: Values, w: World, r: Run, k: nat)
    requires k >= 2 && Idle(env, cap, w, r, k)
    ensures Agree(env, cap, w, Step(env, cap, Some(values), r, WriteKv), k, CheckKv(env, cap, w) == Fine)
  {
    KvAgrees(env, cap, w, values);
  }

  /** Row `k` of the report, and for the role row also that the role id could be read. */
  ghost predicate RowFine(env: Env, cap: Cap, w: World, k: nat)
    requires k < |Plan(cap)|
  {
    CheckAction(env, cap, w, CheckRole(env, cap, w).1, Plan(cap)[k]) == Fine && (k == 1 ==> CheckRole(env, cap, w).1.Some?)
  }

  lemma StepAgrees(env: Env, cap: Cap, values: Values, w: World, r: Run, k: nat)
    requires k < |Plan(cap)| && Idle(env, cap, w, r, k)
    ensures Agree(env, cap, w, Step(env, cap, Some(values), r, Plan(cap)[k]), k, RowFine(env, cap, w, k))
  {
    PlanShape(cap, k);
    if k == 0 {
      PolicyIdle(env, cap, Some(values), w, r);
    } else if k == 1 {
      RoleIdle(env, cap, Some(values), w, r);
    } else if k < |cap.planes| + 2 {
      PlaneIdle(env, cap, Some(values), w, r, k, cap.planes[k - 2]);
    } else {
      KvIdle(env, cap, values, w, r, k);
    }
  }

  /** Changing calls are never taken back, and an aborted run stays aborted. */
  ghost predicate Later(r: Run, r': Run) {
    r'.w.calls >= r.w.calls && (r.aborted ==> r'.aborted)
  }

  lemma StepMonotone(env: Env, cap: Cap, values: Option<Values>, r: Run, a: Action)
    ensures Later(r, Step(env, cap, values, r, a))
  {
    if !r.aborted {
      match a
      case CreatePolicy => LaterPolicy(env, cap, r.w);
      case CreateRole => LaterRole(env, cap, r.w);
      case WritePlane(path) => LaterPlane(env, cap, r.w, r.roleId, path);
      case WriteKv => LaterKv(env, cap, r.w, values);
    }
  }

  lemma LaterPolicy(env: Env, cap: Cap, w: World)
    ensures ApplyPolicy(env, cap, w).0.calls >= w.calls
  {
  }

  lemma LaterRole(env: Env, cap: Cap, w: World)
    ensures ApplyRole(env, cap, w).0.calls >= w.calls
  {
    WrittenRoleCalls(env, cap, w);
  }

  lemma LaterKv(env: Env, cap: Cap, w: World, values: Option<Values>)
    ensures ApplyKv(env, cap, w, values).0.calls >= w.calls
  {
  }

  lemma LaterPlane(env: Env, cap: Cap, w: World, id: Option<string>, path: string)
    ensures ApplyPlane(env, cap, w, id, path).0.calls >= w.calls
  {
    if id.Some? { ProvisionCalls(env, cap, w, id.value, path, StaleSecret(env, w, path)); }
  }

  lemma {:induction false} PrefixMonotone(env: Env, cap: Cap, values: Option<Values>, w: World, j: nat, k: nat)
    requires j <= k <= |Plan(cap)|
    ensures Later(Prefix(env, cap, values, w, j), Prefix(env, cap, values, w, k))
    decreases k - j
  {
    if j < k {
      PrefixMonotone(env, cap, values, w, j, k - 1);
      NextIsLater(env, cap, values, w, k - 1);
    }
  }

  lemma NextIsLater(env: Env, cap: Cap, values: Option<Values>, w: World, k: nat)
    requires k < |Plan(cap)|
    ensures Later(Prefix(env, cap, values, w, k), Prefix(env, cap, values, w, k + 1))
  {
    PrefixNext(env, cap, values, w, k);
    StepMonotone(env, cap, values, Prefix(env, cap, values, w, k), Plan(cap)[k]);
  }

  ghost predicate RowsFine(env: Env, cap: Cap, w: World, k: nat)
    requires k <= |Plan(cap)|
  {
    forall i :: 0 <= i < k ==> RowFine(env, cap, w, i)
  }

  ghost predicate Unmoved(w: World, r: Run) {
    r.w.calls == w.calls && !r.aborted
  }

  /** The first `k` rows are fine exactly when the first `k` steps change nothing and none fails. */
  lemma {:induction false} PrefixAgrees(env: Env, cap: Cap, values: Values, w: World, k: nat)
    requires k <= |Plan(cap)|
    ensures var r := Prefix(env, cap, Some(values), w, k);
      (RowsFine(env, cap, w, k) <==> Unmoved(w, r)) && (RowsFine(env, cap, w, k) ==> Idle(env, cap, w, r, k))
  {
    assert Plan(cap)[..0] == [];
    if k > 0 {
      PrefixAgrees(env, cap, values, w, k - 1);
      PrefixNext(env, cap, Some(values), w, k - 1);
      PrefixMonotone(env, cap, Some(values), w, 0, k - 1);
      PrefixMonotone(env, cap, Some(values), w, k - 1, k);
      RowsSnoc(env, cap, w, k);
      if RowsFine(env, cap, w, k - 1) {
        StepAgrees(env, cap, values, w, Prefix(env, cap, Some(values), w, k - 1), k - 1);
      }
    }
  }

  lemma RowsSnoc(env: Env, cap: Cap, w: World, k: nat)
    requires 0 < k <= |Plan(cap)|
    ensures RowsFine(env, cap, w, k) <==> RowsFine(env, cap, w, k - 1) && RowFine(env, cap, w, k - 1)
  {
  }

  /**
   The drift report is clean exactly when onboarding, run with values, would
   have nothing to do: it makes no changing call and no step fails. (A plan has
   at least one plane file: a capability without harnesses is refused.)
   */
  lemma CleanIffNothingToDo(env: Env, cap: Cap, w: World, values: Values)
    requires cap.planes != []
    ensures var (w', rows) := Apply(env, cap, w, Some(values));
      Clean(Check(env, cap, w)) <==> w'.calls == w.calls && forall a :: Did(a, Failed) !in rows
    ensures Clean(Check(env, cap, w)) ==> Apply(env, cap, w, Some(values)).0 == w
  {
    var n := |Plan(cap)|;
    assert Plan(cap)[..n] == Plan(cap);
    var r := Prefix(env, cap, Some(values), w, n);
    PrefixAgrees(env, cap, values, w, n);
    CleanRows(env, cap, w);
    if r.aborted {
      AbortedFailed(env, cap, Some(values), w, n);
    } else {
      forall a ensures Did(a, Failed) !in r.rows {
        if Did(a, Failed) in r.rows {
          FailedAborts(env, cap, Some(values), w, n, a);
        }
      }
    }
  }

  lemma CleanRows(env: Env, cap: Cap, w: World)
    requires cap.planes != []
    ensures Clean(Check(env, cap, w)) <==> RowsFine(env, cap, w, |Plan(cap)|)
  {
    var c := Check(env, cap, w);
    PlanShape(cap, 2);
    if Clean(c) {
      forall i | 0 <= i < |Plan(cap)| ensures RowFine(env, cap, w, i) {
        assert c[i] in c;
        assert c[2] in c;
      }
    }
    if RowsFine(env, cap, w, |Plan(cap)|) {
      forall f | f in c ensures f == Fine {
        var i :| 0 <= i < |c| && c[i] == f;
        assert RowFine(env, cap, w, i);
      }
    }
  }

  lemma {:induction false} AbortedFailed(env: Env, cap: Cap, values: Option<Values>, w: World, k: nat)
    requires k <= |Plan(cap)| && Prefix(env, cap, values, w, k).aborted
    ensures exists a :: Did(a, Failed) in Prefix(env, cap, values, w, k).rows
  {
    assert Plan(cap)[..0] == [];
    if k > 0 {
      PrefixNext(env, cap, values, w, k - 1);
      var r, r' := Prefix(env, cap, values, w, k - 1), Prefix(env, cap, values, w, k);
      if r.aborted {
        AbortedFailed(env, cap, values, w, k - 1);
        var a :| Did(a, Failed) in r.rows;
        assert Did(a, Failed) in r'.rows;
      } else {
        assert r'.rows[|r.rows|] == Did(Plan(cap)[k - 1], Failed);
      }
    }
  }

  // ---------------------------------------------------------------- what a written plane file gives back

  ghost predicate Readable(env: Env) {
    env.policySight == Clear && env.roleSight == Clear && env.roleIdReadable && env.kvReadable
    && forall p :: env.fileReadable(p)
  }

  /** A plane file written with these values reads as naming this address and role, and some SecretID. */
  predicate Carries(addr: string, roleId: string, secret: string) {
    var read := P.Parse(P.PlaneText(addr, roleId, secret));
    P.ROLE_ID in read && read[P.ROLE_ID] == roleId && Get(read, P.SECRET_ID) != "" && P.ADDR in read && read[P.ADDR] == addr
  }

  /** What can be seen of the values before they are written. A SecretID of several lines is another matter. */
  ghost predicate Carriable(addr: string, roleId: string, secret: string) {
    if P.OneLine(secret) then P.Plain(addr) && P.Plain(roleId) && P.ParseValue(secret) != "" else Carries(addr, roleId, secret)
  }

  lemma CarriesIff(addr: string, roleId: string, secret: string)
    ensures Carries(addr, roleId, secret) <==> Carriable(addr, roleId, secret)
  {
    if P.OneLine(secret) {
      P.ReadOneLine(P.PlaneText(addr, roleId, secret));
      if P.OneLine(addr) && P.OneLine(roleId) { OneLineCarries(addr, roleId, secret); }
    }
  }

  lemma OneLineCarries(addr: string, roleId: string, secret: string)
    requires P.OneLine(addr) && P.OneLine(roleId) && P.OneLine(secret)
    ensures Carries(addr, roleId, secret) <==> P.Plain(addr) && P.Plain(roleId) && P.ParseValue(secret) != ""
  {
    P.OneLineParse(addr, roleId, secret);
    P.WrittenAt(P.ParseValue(addr), P.ParseValue(roleId), P.ParseValue(secret));
    P.ParseValueIff(addr);
    P.ParseValueIff(roleId);
  }

  function Written(cap: Cap, roleId: string, secret: string): File {
    File(Text(P.PlaneText(cap.addr, roleId, secret)), true)
  }

  lemma WrittenMatches(env: Env, cap: Cap, w: World, roleId: string, path: string, secret: string)
    requires Readable(env) && path in w.files && w.files[path] == Written(cap, roleId, secret)
    ensures PlaneMatches(env, cap, w, roleId, path) <==> Carriable(cap.addr, roleId, secret)
  {
    CarriesIff(cap.addr, roleId, secret);
  }

  lemma SameMatches(env: Env, cap: Cap, w: World, w': World, roleId: string, path: string)
    requires SameFile(w, w', path)
    ensures PlaneMatches(env, cap, w', roleId, path) <==> PlaneMatches(env, cap, w, roleId, path)
  {
  }

  // ---------------------------------------------------------------- a successful apply, plane by plane

  /** The number of the SecretID that would be minted for plane `j`: one for each plane before it that did not match. */
  function MintAt(env: Env, cap: Cap, w: World, id: string, j: nat): (n: nat)
    requires j <= |cap.planes|
  {
    if j == 0 then w.minted
    else MintAt(env, cap, w, id, j - 1) + if PlaneMatches(env, cap, w, id, cap.planes[j - 1]) then 0 else 1
  }

  /** Plane `j` is as it was if it matched, and newly written if it did not. */
  ghost predicate PlaneDone(env: Env, cap: Cap, w0: World, w: World, id: string, j: nat)
    requires j < |cap.planes|
  {
    var p := cap.planes[j];
    if PlaneMatches(env, cap, w0, id, p) then SameFile(w0, w, p)
    else p in w.files && w.files[p] == Written(cap, id, env.secretText(MintAt(env, cap, w0, id, j)))
  }

  ghost predicate Provisioned(env: Env, cap: Cap, w0: World, r: Run, k: nat) {
    && (k >= 1 ==> PolicyMatches(env, cap, r.w))
    && (k >= 2 ==> RoleMatches(env, cap, r.w) && r.roleId.Some? && r.roleId == ReadRoleId(env, cap, r.w))
    && (cap.rname in w0.roles ==> cap.rname in r.w.roles && r.w.roles[cap.rname].roleId == w0.roles[cap.rname].roleId)
    && (k <= 2 ==> r.w.files == w0.files && r.w.minted == w0.minted)
    && (2 <= k <= |cap.planes| + 2 ==>
          PlanesDone(env, cap, w0, r.w, r.roleId.value, k - 2) && r.w.minted == MintAt(env, cap, w0, r.roleId.value, k - 2))
    && (k >= |cap.planes| + 3 ==>
          PlanesDone(env, cap, w0, r.w, r.roleId.value, |cap.planes|) && cap.kvPath in r.w.kv &&
          r.w.minted == MintAt(env, cap, w0, r.roleId.value, |cap.planes|))
  }

  ghost predicate PlanesDone(env: Env, cap: Cap, w0: World, w: World, id: string, k: nat)
    requires k <= |cap.planes|
  {
    && (forall j :: 0 <= j < k ==> PlaneDone(env, cap, w0, w, id, j))
    && (forall j :: k <= j < |cap.planes| ==> SameFile(w0, w, cap.planes[j]))
  }

  lemma DesiredMatches(pname: string)
    ensures !Drifted(pname, Some(Desired(pname)))
  {
    assert Many([pname]) != Many([]) by { assert |[pname]| == 1; }
  }

  lemma PolicyProvisions(env: Env, cap: Cap, w: World)
    requires Readable(env) && ApplyPolicy(env, cap, w).1 != Failed
    ensures PolicyMatches(env, cap, ApplyPolicy(env, cap, w).0)
  {
  }

  lemma RoleProvisions(env: Env, cap: Cap, w: World)
    requires Readable(env) && ApplyRole(env, cap, w).1 != Failed
    ensures var (w', s, id, u) := ApplyRole(env, cap, w);
      && RoleMatches(env, cap, w') && id.Some? && id == ReadRoleId(env, cap, w')
      && w'.policies == w.policies && w'.files == w.files && w'.minted == w.minted
      && (cap.rname in w.roles ==> w'.roles[cap.rname].roleId == w.roles[cap.rname].roleId)
  {
    DesiredMatches(cap.pname);
  }

  /** A plane step that did not fail: the file is kept, or written with the SecretID minted for it. */
  lemma PlaneStepIs(env: Env, cap: Cap, w: World, id: string, path: string)
    requires ApplyPlane(env, cap, w, Some(id), path).1 != Failed
    ensures var w' := ApplyPlane(env, cap, w, Some(id), path).0;
      && w'.policies == w.policies && w'.roles == w.roles && w'.kv == w.kv
      && (if PlaneMatches(env, cap, w, id, path) then w' == w
          else w'.minted == w.minted + 1 && w'.files == NewFiles(w, path, Written(cap, id, env.secretText(w.minted))))
  {
    if !PlaneMatches(env, cap, w, id, path) {
      var stale := StaleSecret(env, w, path);
      InstallOutcome(env, cap, Mint(env, cap, w), w.minted, id, path, stale);
      StaleOnlyDrops(env, cap, WriteFile(Mint(env, cap, w), path, P.PlaneText(cap.addr, id, env.secretText(w.minted))), path, stale);
      assert NewFiles(Mint(env, cap, w), path, Written(cap, id, env.secretText(w.minted)))
          == NewFiles(w, path, Written(cap, id, env.secretText(w.minted)));
    }
  }

  lemma PlanesMore(env: Env, cap: Cap, w0: World, w: World, w': World, id: string, k: nat)
    requires PathsApart(cap.planes) && k < |cap.planes| && PlanesDone(env, cap, w0, w, id, k)
    requires w.minted == MintAt(env, cap, w0, id, k)
    requires var path := cap.planes[k];
             if PlaneMatches(env, cap, w, id, path) then w' == w
             else w'.minted == w.minted + 1 && w'.files == NewFiles(w, path, Written(cap, id, env.secretText(w.minted)))
    ensures PlanesDone(env, cap, w0, w', id, k + 1) && w'.minted == MintAt(env, cap, w0, id, k + 1)
  {
    var path := cap.planes[k];
    assert SameFile(w0, w, path);
    SameMatches(env, cap, w0, w, id, path);
    if !PlaneMatches(env, cap, w, id, path) {
      BakInjective(path, path);
      forall j | 0 <= j < |cap.planes| && j != k ensures SameFile(w, w', cap.planes[j]) {
        assert cap.planes[j] != path && cap.planes[j] != Bak(path);
      }
      forall j | 0 <= j < k + 1 ensures PlaneDone(env, cap, w0, w', id, j) {
        if j < k { assert PlaneDone(env, cap, w0, w, id, j); }
      }
    } else {
      assert PlaneDone(env, cap, w0, w', id, k);
    }
  }

  lemma PlaneProvisions(env: Env, cap: Cap, values: Values, w0: World, r: Run, k: nat)
    requires PathsApart(cap.planes) && 2 <= k < |cap.planes| + 2 && Provisioned(env, cap, w0, r, k) && !r.aborted
    requires !Step(env, cap, Some(values), r, WritePlane(cap.planes[k - 2])).aborted
    ensures Provisioned(env, cap, w0, Step(env, cap, Some(values), r, WritePlane(cap.planes[k - 2])), k + 1)
  {
    var path, id := cap.planes[k - 2], r.roleId.value;
    var w' := ApplyPlane(env, cap, r.w, r.roleId, path).0;
    PlaneStepIs(env, cap, r.w, id, path);
    PlanesMore(env, cap, w0, r.w, w', id, k - 2);
  }

  lemma StepProvisions(env: Env, cap: Cap, values: Values, w0: World, r: Run, k: nat)
    requires Readable(env) && PathsApart(cap.planes) && k < |Plan(cap)|
    requires Provisioned(env, cap, w0, r, k) && !r.aborted
    requires !Step(env, cap, Some(values), r, Plan(cap)[k]).aborted
    ensures Provisioned(env, cap, w0, Step(env, cap, Some(values), r, Plan(cap)[k]), k + 1)
  {
    PlanShape(cap, k);
    if k == 0 {
      PolicyProvisions(env, cap, r.w);
      PolicyPolicies(env, cap, r.w);
    } else if k == 1 {
      RoleProvisions(env, cap, r.w);
      assert PlanesDone(env, cap, w0, ApplyRole(env, cap, r.w).0, ApplyRole(env, cap, r.w).2.value, 0);
    } else if k < |cap.planes| + 2 {
      PlaneProvisions(env, cap, values, w0, r, k);
    } else {
      KvProvisions(env, cap, values, w0, r, k);
    }
  }

  lemma KvProvisions(env: Env, cap: Cap, values: Values, w0: World, r: Run, k: nat)
    requires k == |cap.planes| + 2 && Provisioned(env, cap, w0, r, k) && !r.aborted
    requires !Step(env, cap, Some(values), r, WriteKv).aborted
    ensures Provisioned(env, cap, w0, Step(env, cap, Some(values), r, WriteKv), k + 1)
  {
    KvOnly(env, cap, r.w, Some(values));
    var w' := ApplyKv(env, cap, r.w, Some(values)).0;
    assert w'.files == r.w.files && w'.minted == r.w.minted;
    forall j | 0 <= j < |cap.planes| ensures PlaneDone(env, cap, w0, w', r.roleId.value, j) {
      assert PlaneDone(env, cap, w0, r.w, r.roleId.value, j);
    }
  }

  lemma {:induction false} PrefixProvisions(env: Env, cap: Cap, values: Values, w: World, k: nat)
    requires Readable(env) && PathsApart(cap.planes) && k <= |Plan(cap)|
    requires !Prefix(env, cap, Some(values), w, k).aborted
    ensures Provisioned(env, cap, w, Prefix(env, cap, Some(values), w, k), k)
  {
    if k == 0 {
      StartProvisioned(env, cap, values, w);
    } else {
      PrefixMonotone(env, cap, Some(values), w, k - 1, k);
      PrefixProvisions(env, cap, values, w, k - 1);
      NextProvisions(env, cap, values, w, k - 1);
    }
  }

  lemma NextProvisions(env: Env, cap: Cap, values: Values, w: World, k: nat)
    requires Readable(env) && PathsApart(cap.planes) && k < |Plan(cap)|
    requires !Prefix(env, cap, Some(values), w, k).aborted && !Prefix(env, cap, Some(values), w, k + 1).aborted
    requires Provisioned(env, cap, w, Prefix(env, cap, Some(values), w, k), k)
    ensures Provisioned(env, cap, w, Prefix(env, cap, Some(values), w, k + 1), k + 1)
  {
    var r := Prefix(env, cap, Some(values), w, k);
    PrefixNext(env, cap, Some(values), w, k);
    assert Prefix(env, cap, Some(values), w, k + 1) == Step(env, cap, Some(values), r, Plan(cap)[k]);
    StepProvisions(env, cap, values, w, r, k);
  }

  lemma StartProvisioned(env: Env, cap: Cap, values: Values, w: World)
    ensures Provisioned(env, cap, w, Prefix(env, cap, Some(values), w, 0), 0)
  {
    assert Plan(cap)[..0] == [];
  }

  ghost predicate Succeeded(env: Env, cap: Cap, w: World, values: Values) {
    forall a :: Did(a, Failed) !in Apply(env, cap, w, Some(values)).1
  }

  /** A successful run is its whole plan, with nothing unwound. */
  lemma SuccessIs(env: Env, cap: Cap, w: World, values: Values)
    requires Readable(env) && PathsApart(cap.planes) && Succeeded(env, cap, w, values)
    ensures var r := Prefix(env, cap, Some(values), w, |Plan(cap)|);
      !r.aborted && r.w == Apply(env, cap, w, Some(values)).0 && Provisioned(env, cap, w, r, |cap.planes| + 3)
  {
    var n := |Plan(cap)|;
    assert Plan(cap)[..n] == Plan(cap);
    if Prefix(env, cap, Some(values), w, n).aborted {
      AbortedFailed(env, cap, Some(values), w, n);
    }
    PlanShape(cap, 0);
    PrefixProvisions(env, cap, values, w, n);
  }

  // ---------------------------------------------------------------- when a successful apply is clean

  /** Plane `j` matched before, or its new values can be carried by a plane file. */
  ghost predicate Settles(env: Env, cap: Cap, w: World, id: string, j: nat)
    requires j < |cap.planes|
  {
    PlaneMatches(env, cap, w, id, cap.planes[j]) || Carriable(cap.addr, id, env.secretText(MintAt(env, cap, w, id, j)))
  }

  lemma DoneMatches(env: Env, cap: Cap, w0: World, w: World, id: string, j: nat)
    requires Readable(env) && j < |cap.planes| && PlaneDone(env, cap, w0, w, id, j)
    ensures PlaneMatches(env, cap, w, id, cap.planes[j]) <==> Settles(env, cap, w0, id, j)
  {
    if PlaneMatches(env, cap, w0, id, cap.planes[j]) {
      SameMatches(env, cap, w0, w, id, cap.planes[j]);
    } else {
      WrittenMatches(env, cap, w, id, cap.planes[j], env.secretText(MintAt(env, cap, w0, id, j)));
    }
  }

  /**
   After an onboarding with values in a Vault that can be read, in which no step
   failed, the drift check is clean if and only if each plane file matched
   before or was written with values that a plane file can carry.
   */
  lemma CleanAfterApplyIff(env: Env, cap: Cap, w: World, values: Values)
    requires Readable(env) && PathsApart(cap.planes) && cap.planes != [] && Succeeded(env, cap, w, values)
    ensures var w' := Apply(env, cap, w, Some(values)).0;
      && cap.rname in w'.roles
      && var id := w'.roles[cap.rname].roleId;
         Clean(Check(env, cap, w')) <==> forall j :: 0 <= j < |cap.planes| ==> Settles(env, cap, w, id, j)
  {
    SuccessIs(env, cap, w, values);
    var r := Prefix(env, cap, Some(values), w, |Plan(cap)|);
    var id := r.roleId.value;
    CleanRows(env, cap, r.w);
    PolicyAgrees(env, cap, r.w);
    RoleAgrees(env, cap, r.w);
    PlanShape(cap, 0);
    forall j | 0 <= j < |cap.planes| ensures RowFine(env, cap, r.w, j + 2) <==> Settles(env, cap, w, id, j) {
      assert PlaneDone(env, cap, w, r.w, id, j);
      PlaneRow(env, cap, w, r.w, id, j);
    }
    RowsAre(env, cap, r.w, w, id);
  }

  lemma PlaneRow(env: Env, cap: Cap, w0: World, w: World, id: string, j: nat)
    requires Readable(env) && j < |cap.planes| && PlaneDone(env, cap, w0, w, id, j)
    requires id != "" && CheckRole(env, cap, w).1 == Some(id) && j + 2 < |Plan(cap)|
    ensures RowFine(env, cap, w, j + 2) <==> Settles(env, cap, w0, id, j)
  {
    DoneMatches(env, cap, w0, w, id, j);
    PlanShape(cap, j + 2);
    PlaneAgrees(env, cap, w, Some(id), cap.planes[j]);
  }

  /** All rows are fine exactly when the plane rows are, once the others are. */
  lemma RowsAre(env: Env, cap: Cap, w: World, w0: World, id: string)
    requires PolicyMatches(env, cap, w) && RoleMatches(env, cap, w) && ReadRoleId(env, cap, w) == Some(id)
    requires CheckPolicy(env, cap, w) == Fine && CheckRole(env, cap, w) == (Fine, Some(id)) && CheckKv(env, cap, w) == Fine
    requires |Plan(cap)| == |cap.planes| + 3
    requires forall j :: 0 <= j < |cap.planes| ==> (RowFine(env, cap, w, j + 2) <==> Settles(env, cap, w0, id, j))
    ensures RowsFine(env, cap, w, |Plan(cap)|) <==> forall j :: 0 <= j < |cap.planes| ==> Settles(env, cap, w0, id, j)
  {
    if forall j :: 0 <= j < |cap.planes| ==> Settles(env, cap, w0, id, j) {
      forall i | 0 <= i < |Plan(cap)| ensures RowFine(env, cap, w, i) {
        PlanShape(cap, i);
        if 2 <= i < |cap.planes| + 2 { assert Settles(env, cap, w0, id, i - 2); }
      }
    }
    if RowsFine(env, cap, w, |Plan(cap)|) {
      forall j | 0 <= j < |cap.planes| ensures Settles(env, cap, w0, id, j) { assert RowFine(env, cap, w, j + 2); }
    }
  }

  /** And then running it again does nothing at all. */
  lemma ApplyThenNothing(env: Env, cap: Cap, w: World, values: Values)
    requires Readable(env) && PathsApart(cap.planes) && cap.planes != [] && Succeeded(env, cap, w, values)
    ensures var w' := Apply(env, cap, w, Some(values)).0;
      && cap.rname in w'.roles
      && ((forall j :: 0 <= j < |cap.planes| ==> Settles(env, cap, w, w'.roles[cap.rname].roleId, j)) ==>
            Apply(env, cap, w', Some(values)).0 == w')
  {
    CleanAfterApplyIff(env, cap, w, values);
    CleanIffNothingToDo(env, cap, Apply(env, cap, w, Some(values)).0, values);
  }

  // ---------------------------------------------------------------- runs that never settle

  /** Plane `j` holds a file onboarding wrote, with an address or a role id that no plane file can carry. */
  ghost predicate Unsettled(cap: Cap, w: World, j: nat)
    requires j < |cap.planes|
  {
    && cap.rname in w.roles && !(P.Plain(cap.addr) && P.Plain(w.roles[cap.rname].roleId))
    && cap.planes[j] in w.files
    && exists secret :: P.OneLine(secret) && w.files[cap.planes[j]] == Written(cap, w.roles[cap.rname].roleId, secret)
  }

  ghost predicate OneLineSecrets(env: Env) {
    forall n :: P.OneLine(env.secretText(n))
  }

  lemma {:induction false} MintsMore(env: Env, cap: Cap, w: World, id: string, j: nat, k: nat)
    requires j < k <= |cap.planes| && !PlaneMatches(env, cap, w, id, cap.planes[j])
    ensures MintAt(env, cap, w, id, k) > w.minted && MintAt(env, cap, w, id, j) >= w.minted
    decreases k
  {
    AtLeast(env, cap, w, id, k - 1);
    if j < k - 1 { MintsMore(env, cap, w, id, j, k - 1); }
  }

  lemma {:induction false} AtLeast(env: Env, cap: Cap, w: World, id: string, j: nat)
    requires j <= |cap.planes|
    ensures MintAt(env, cap, w, id, j) >= w.minted
  {
    if j > 0 { AtLeast(env, cap, w, id, j - 1); }
  }

  /** A successful run over such a plane mints another SecretID and leaves the plane as it found it: unsettled. */
  lemma UnsettledMints(env: Env, cap: Cap, w: World, values: Values, j: nat)
    requires Readable(env) && OneLineSecrets(env) && PathsApart(cap.planes) && j < |cap.planes|
    requires Unsettled(cap, w, j) && Succeeded(env, cap, w, values)
    ensures var w' := Apply(env, cap, w, Some(values)).0; Unsettled(cap, w', j) && w'.minted > w.minted
  {
    SuccessIs(env, cap, w, values);
    var r := Prefix(env, cap, Some(values), w, |Plan(cap)|);
    var id, p := w.roles[cap.rname].roleId, cap.planes[j];
    assert r.roleId == Some(id);
    var secret :| P.OneLine(secret) && w.files[p] == Written(cap, id, secret);
    WrittenMatches(env, cap, w, id, p, secret);
    MintsMore(env, cap, w, id, j, |cap.planes|);
    assert PlaneDone(env, cap, w, r.w, id, j);
    assert r.w.files[p] == Written(cap, id, env.secretText(MintAt(env, cap, w, id, j)));
  }

  /** The world after running onboarding once in each environment. */
  function Reruns(envs: seq<Env>, cap: Cap, w: World, values: Values): World
    decreases |envs|
  {
    if envs == [] then w else Reruns(envs[1..], cap, Apply(envs[0], cap, w, Some(values)).0, values)
  }

  ghost predicate AllSucceed(envs: seq<Env>, cap: Cap, w: World, values: Values)
    decreases |envs|
  {
    envs == [] ||
    (Readable(envs[0]) && OneLineSecrets(envs[0]) && Succeeded(envs[0], cap, w, values) &&
     AllSucceed(envs[1..], cap, Apply(envs[0], cap, w, Some(values)).0, values))
  }

  /** However often onboarding is run again, each run mints at least one more SecretID. */
  lemma {:induction false} EveryRunMints(envs: seq<Env>, cap: Cap, w: World, values: Values, j: nat)
    requires PathsApart(cap.planes) && j < |cap.planes| && Unsettled(cap, w, j) && AllSucceed(envs, cap, w, values)
    ensures Reruns(envs, cap, w, values).minted >= w.minted + |envs|
    decreases |envs|
  {
    if envs != [] {
      UnsettledMints(envs[0], cap, w, values, j);
      EveryRunMints(envs[1..], cap, Apply(envs[0], cap, w, Some(values)).0, values, j);
    }
  }

  /** And a first run that writes such a plane starts it. */
  lemma FirstUnsettles(env: Env, cap: Cap, w: World, values: Values, j: nat)
    requires Readable(env) && OneLineSecrets(env) && PathsApart(cap.planes) && j < |cap.planes| && Succeeded(env, cap, w, values)
    requires var w' := Apply(env, cap, w, Some(values)).0;
             cap.rname in w'.roles && !(P.Plain(cap.addr) && P.Plain(w'.roles[cap.rname].roleId)) &&
             !PlaneMatches(env, cap, w, w'.roles[cap.rname].roleId, cap.planes[j])
    ensures var w' := Apply(env, cap, w, Some(values)).0;
      Unsettled(cap, w', j) && !Settles(env, cap, w, w'.roles[cap.rname].roleId, j)
  {
    SuccessIs(env, cap, w, values);
    var r := Prefix(env, cap, Some(values), w, |Plan(cap)|);
    var id := r.w.roles[cap.rname].roleId;
    assert r.roleId == Some(id);
    assert PlaneDone(env, cap, w, r.w, id, j);
    assert r.w.files[cap.planes[j]] == Written(cap, id, env.secretText(MintAt(env, cap, w, id, j)));
  }
}
