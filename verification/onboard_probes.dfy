/**
 What the drift check and the applier compare, in Vault's and the files' own
 terms: when a row is fine, what else it says, and what a step leaves behind.
 */
module OnboardProbes {
  import opened Base
  import opened OnboardSpec
  import opened OnboardRollback
  import A = OnboardAgreement
  import L = PlaneLines
  import R = OnboardReplaced
  import P = PlaneEnv

  // ---------------------------------------------------------------- the role

  /** A policies field that counts as not given. */
  predicate Empty(r: Raw) {
    match r
    case Absent => true
    case One(s) => s == ""
    case Many(ss) => |ss| == 0
    case Odd => false
  }

  /** The field names just this policy, as a text or as a list. */
  predicate Just(r: Raw, pname: string) {
    match r
    case Absent => false
    case One(s) => s == pname && s != ""
    case Many(ss) => |ss| == 1 && ss[0] == pname
    case Odd => false
  }

  /** Bound to exactly this policy: by `token_policies`, or by the older `policies` if that says nothing. */
  predicate Bound(d: RoleData, pname: string) {
    Just(d.tokenPolicies, pname) || (Empty(d.tokenPolicies) && Just(d.policies, pname))
  }

  /** Each of the four settings that is there holds the derived value. */
  predicate Settings(config: map<string, int>) {
    && ("token_ttl" in config ==> config["token_ttl"] == 3600)
    && ("token_max_ttl" in config ==> config["token_max_ttl"] == 14400)
    && ("secret_id_ttl" in config ==> config["secret_id_ttl"] == 0)
    && ("secret_id_num_uses" in config ==> config["secret_id_num_uses"] == 0)
  }

  predicate Blank(d: RoleData) {
    d.tokenPolicies.Absent? && d.policies.Absent? && d.config == map[] && !d.more
  }

  /** As declared: nothing can be read of it, or it is bound to the policy and set as derived. */
  predicate Declared(d: RoleData, pname: string) {
    Blank(d) || (Bound(d, pname) && Settings(d.config))
  }

  lemma EmptyFalsy(r: Raw)
    ensures Falsy(r) <==> Empty(r)
  {
    if r.Many? { assert |r.ss| == 0 ==> r.ss == []; }
  }

  lemma JustIs(r: Raw, pname: string)
    requires !Empty(r)
    ensures Just(r, pname) <==> (r.One? && r.s == pname) || (r.Many? && r.ss == [pname])
  {
    if r.Many? && |r.ss| == 1 { assert r.ss == [r.ss[0]]; }
  }

  lemma KeysOf(config: map<string, int>)
    ensures (exists k :: k in ROLE_CONFIG && k in config && config[k] != ROLE_CONFIG[k]) <==> !Settings(config)
  {
    if !Settings(config) {
      assert "token_ttl" in ROLE_CONFIG && "token_max_ttl" in ROLE_CONFIG;
      assert "secret_id_ttl" in ROLE_CONFIG && "secret_id_num_uses" in ROLE_CONFIG;
    }
  }

  lemma DriftedIff(pname: string, d: RoleData)
    ensures Drifted(pname, Some(d)) <==> !Declared(d, pname)
  {
    EmptyFalsy(d.tokenPolicies);
    EmptyFalsy(d.policies);
    KeysOf(d.config);
    if !Empty(d.tokenPolicies) { JustIs(d.tokenPolicies, pname); }
    if !Empty(d.policies) { JustIs(d.policies, pname); }
    assert Many([]) != Many([pname]) by { assert |[pname]| == 1; }
  }

  /**
   The role row, exactly. It is fine if and only if the role is there and, when
   its data can be read, they are empty or bind it to the one policy with the
   derived settings; missing if it is known to be absent; unknown if nothing can
   be told; and drift otherwise. The role id goes with it whenever the role is
   there and the id can be read.
   */
  lemma RoleRow(env: Env, cap: Cap, w: World)
    ensures var (f, id) := CheckRole(env, cap, w);
      && (env.roleSight == Blind <==> f == Unknown)
      && (env.roleSight != Blind && cap.rname !in w.roles <==> f == Missing)
      && (f == Fine <==> env.roleSight != Blind && cap.rname in w.roles &&
                         (env.roleSight == Clear ==> Declared(w.roles[cap.rname].data, cap.pname)))
      && (f in {Unknown, Missing} ==> id == None)
      && (f in {Fine, Drift} ==>
            id == if env.roleIdReadable && w.roles[cap.rname].roleId != "" then Some(w.roles[cap.rname].roleId) else None)
  {
    if cap.rname in w.roles { DriftedIff(cap.pname, w.roles[cap.rname].data); }
  }

  /**
   The role step, exactly: a role that is as declared, as far as can be seen, is
   left alone; any other is written, bound to the one policy, with all four
   settings, keeping its id if it had one. It fails if that call raises or the id
   cannot be read.
   */
  lemma RoleStepDoes(env: Env, cap: Cap, w: World)
    ensures var (w', s, id, u) := ApplyRole(env, cap, w);
      var fine := env.roleSight != Blind && cap.rname in w.roles && (env.roleSight == Clear ==> Declared(w.roles[cap.rname].data, cap.pname));
      && (fine ==> w' == w && u == [] && s in {Converged, Failed})
      && (!fine && env.ok(w.calls) ==> Wrote(env, cap, w, w') && s in {Applied, Failed})
      && (!fine && !env.ok(w.calls) ==> s == Failed && id == None && u == [] && (w' == Call(w) || (env.took(w.calls) && Wrote(env, cap, w, w'))))
      && (s != Failed <==> id.Some?)
      && (u == [DeleteRole] <==> !fine && env.ok(w.calls) && env.roleSight != Blind && cap.rname !in w.roles)
  {
    if cap.rname in w.roles { DriftedIff(cap.pname, w.roles[cap.rname].data); }
    if !RoleMatches(env, cap, w) { WroteRole(env, cap, w); }
  }

  /** The role as it is written: nothing else in Vault or on disk is touched. */
  ghost predicate Wrote(env: Env, cap: Cap, w: World, w': World) {
    && w'.roles.Keys == w.roles.Keys + {cap.rname} && (forall k :: k in w.roles && k != cap.rname ==> w'.roles[k] == w.roles[k])
    && w'.policies == w.policies && w'.secrets == w.secrets && w'.kv == w.kv && w'.files == w.files && w'.calls == w.calls + 1
    && var role := w'.roles[cap.rname];
       && role.data.tokenPolicies == Many([cap.pname]) && role.data.policies == Absent && AllSettings(role.data.config)
       && role.roleId == if cap.rname in w.roles then w.roles[cap.rname].roleId else env.newRoleId(w.calls)
  }

  predicate AllSettings(config: map<string, int>) {
    config.Keys == {"token_ttl", "token_max_ttl", "secret_id_ttl", "secret_id_num_uses"} && Settings(config)
  }

  lemma WroteRole(env: Env, cap: Cap, w: World)
    ensures Wrote(env, cap, w, WriteRole(env, cap, w))
  {
    assert ROLE_CONFIG.Keys == {"token_ttl", "token_max_ttl", "secret_id_ttl", "secret_id_num_uses"};
  }

  // ---------------------------------------------------------------- the policy

  /** Equal but for white space at the ends. */
  ghost predicate SameText(a: string, b: string) {
    exists core :: L.Inside(a, core) && L.Inside(b, core)
  }

  lemma SameTextIs(a: string, b: string)
    ensures SameText(a, b) <==> P.Strip(a) == P.Strip(b)
  {
    L.StripInside(a);
    L.StripInside(b);
    if core :| L.Inside(a, core) && L.Inside(b, core) {
      L.StripIs(a, core);
      L.StripIs(b, core);
    }
  }

  /** The policy row, exactly: fine if and only if the policy can be read and says what is declared, white space at its ends aside. */
  lemma PolicyRow(env: Env, cap: Cap, w: World)
    ensures var f := CheckPolicy(env, cap, w);
      && (f == Missing <==> env.policySight != Blind && cap.pname !in w.policies)
      && (f == Unknown <==> env.policySight == Blind || (env.policySight == Blurred && cap.pname in w.policies))
      && (f == Fine <==> env.policySight == Clear && cap.pname in w.policies && SameText(w.policies[cap.pname], cap.hcl))
  {
    if cap.pname in w.policies { SameTextIs(w.policies[cap.pname], cap.hcl); }
  }

  /** The policy step, exactly: a policy seen to be as declared is left alone, any other is written. */
  lemma PolicyStepDoes(env: Env, cap: Cap, w: World)
    ensures var (w', s, u) := ApplyPolicy(env, cap, w);
      var fine := env.policySight == Clear && cap.pname in w.policies && SameText(w.policies[cap.pname], cap.hcl);
      && (fine ==> w' == w && s == Converged && u == [])
      && (!fine ==> w'.calls == w.calls + 1 && (s == if env.ok(w.calls) then Applied else Failed) &&
                    w'.policies == (if env.ok(w.calls) || env.took(w.calls) then w.policies[cap.pname := cap.hcl] else w.policies) &&
                    w'.roles == w.roles && w'.secrets == w.secrets && w'.kv == w.kv && w'.files == w.files)
      && (u != [] <==> !fine && env.ok(w.calls) && env.policySight != Blind && cap.pname !in w.policies)
      && (u != [] ==> u == [DeletePolicy])
  {
    if cap.pname in w.policies { SameTextIs(w.policies[cap.pname], cap.hcl); }
  }

  // ---------------------------------------------------------------- plane files

  /** What the plane file at this path declares, if it can be read as text at all. */
  function Declares(w: World, path: string): P.Env
    requires path in w.files
  {
    match w.files[path].content case NotUtf8 => map[] case Text(t) => P.Parse(t)
  }

  predicate Holds(e: P.Env, key: string) {
    key in e && e[key] != ""
  }

  /** A complete plane file: role and SecretID named, this address, and readable by its owner alone. */
  predicate Complete(cap: Cap, w: World, path: string)
    requires path in w.files
  {
    var e := Declares(w, path);
    Holds(e, "VAULT_ROLE_ID") && Holds(e, "VAULT_SECRET_ID") && "VAULT_ADDR" in e && e["VAULT_ADDR"] == cap.addr && w.files[path].private
  }

  /** The plane row, exactly: fine if and only if the file is complete and names this role. */
  lemma PlaneRowIs(env: Env, cap: Cap, w: World, roleId: Option<string>, path: string)
    ensures var f := CheckPlane(env, cap, w, roleId, path);
      && (f == Missing <==> path !in w.files)
      && (f == Unknown <==> path in w.files && (!env.fileReadable(path) || (Complete(cap, w, path) && roleId == None)))
      && (f == Fine <==> path in w.files && env.fileReadable(path) && Complete(cap, w, path) && roleId == Some(Declares(w, path)["VAULT_ROLE_ID"]))
  {
  }

  /** The plane file written for a SecretID: its text, and nobody else can read it. */
  ghost predicate Holding(cap: Cap, f: File, roleId: string, secret: string) {
    f.private && f.content == Text(P.PlaneText(cap.addr, roleId, secret))
  }

  /** The new file is in its place, the old one under the backup name, and every other as it was. */
  ghost predicate Replaced(cap: Cap, w: World, w': World, path: string, roleId: string, secret: string) {
    && Bak(path) != path && path in w'.files && Holding(cap, w'.files[path], roleId, secret)
    && (path in w.files ==> Bak(path) in w'.files && w'.files[Bak(path)] == w.files[path])
    && (forall p :: p != path && (p != Bak(path) || path !in w.files) ==> SameFile(w, w', p))
  }

  lemma ReplacedIs(cap: Cap, w: World, w': World, path: string, roleId: string, secret: string)
    requires w'.files == NewFiles(w, path, File(Text(P.PlaneText(cap.addr, roleId, secret)), true))
    ensures Replaced(cap, w, w', path, roleId, secret)
  {
    BakInjective(path, path);
  }

  /**
   The plane step, exactly. Nothing happens to a file that is complete for this
   role. Otherwise, if the file can be read, a SecretID is minted; if it is told,
   the file is written with it, the old one kept beside it; and the SecretID the
   old one held is revoked if it can be. The step fails if the role id is not
   known, the file cannot be read, the mint or the write raises, or the SecretID
   is not told.
   */
  lemma PlaneStepDoes(env: Env, cap: Cap, w: World, roleId: Option<string>, path: string)
    requires roleId.Some? ==> roleId.value != ""
    ensures var (w', s, u) := ApplyPlane(env, cap, w, roleId, path);
      var readable := roleId.Some? && (path in w.files ==> env.fileReadable(path));
      var done := readable && path in w.files && Complete(cap, w, path) && roleId == Some(Declares(w, path)["VAULT_ROLE_ID"]);
      var told := env.ok(w.calls) && env.tellsSecret(w.minted) && env.secretText(w.minted) != "";
      && (!readable ==> w' == w && s == Failed && u == [])
      && (done ==> w' == w && s == Converged && u == [])
      && (readable && !done && !(told && env.ok(w.calls + 1)) ==> s == Failed && w'.files == w.files)
      && (readable && !done && told && env.ok(w.calls + 1) ==>
            && s == Applied && w'.minted == w.minted + 1
            && Replaced(cap, w, w', path, roleId.value, env.secretText(w.minted))
            && (forall n :: n in w'.secrets <==> (n in w.secrets || n == w.minted) && !Revoked(env, cap, w, path, n)))
      && w'.policies == w.policies && w'.roles == w.roles && w'.kv == w.kv
  {
    PlaneRowIs(env, cap, w, roleId, path);
    A.PlaneAgrees(env, cap, w, roleId, path);
    PlaneOutcome(env, cap, w, roleId, path);
    if roleId.Some? { Provisions(env, cap, w, roleId.value, path); }
  }

  /** The old file held this SecretID of this role, and revoking it took effect. */
  ghost predicate Revoked(env: Env, cap: Cap, w: World, path: string, n: nat) {
    && path in w.files && env.fileReadable(path) && Holds(Declares(w, path), "VAULT_SECRET_ID")
    && env.staleReadable && env.staleDrops(path)
    && (if n == w.minted then env.secretText(n) else if n in w.secrets then w.secrets[n].text else "") == Declares(w, path)["VAULT_SECRET_ID"]
    && (n != w.minted && n in w.secrets ==> w.secrets[n].role == cap.rname)
  }

  lemma Provisions(env: Env, cap: Cap, w: World, roleId: string, path: string)
    ensures var (w', s, u) := Provision(env, cap, w, roleId, path, StaleSecret(env, w, path));
      var told := env.ok(w.calls) && env.tellsSecret(w.minted) && env.secretText(w.minted) != "";
      && (!(told && env.ok(w.calls + 1)) ==> s == Failed && w'.files == w.files)
      && (told && env.ok(w.calls + 1) ==>
            && s == Applied && w'.minted == w.minted + 1 && Replaced(cap, w, w', path, roleId, env.secretText(w.minted))
            && (forall n :: n in w'.secrets <==> (n in w.secrets || n == w.minted) && !Revoked(env, cap, w, path, n)))
  {
    var stale := StaleSecret(env, w, path);
    R.ProvisionCounts(env, cap, w, roleId, path, stale, R.Cursor(w.calls, w.minted, {}));
    if R.Installs(env, R.Cursor(w.calls, w.minted, {})) {
      var w1 := R.Installed(env, cap, w, roleId, path);
      R.InstalledIs(env, cap, w, roleId, path);
      InstalledFiles(env, cap, w, roleId, path);
      StaleOnlyDrops(env, cap, w1, path, stale);
      StaleRevoked(env, cap, w, w1, path);
    } else {
      UninstalledFiles(env, cap, w, roleId, path, stale);
    }
  }

  lemma InstalledFiles(env: Env, cap: Cap, w: World, roleId: string, path: string)
    ensures Replaced(cap, w, R.Installed(env, cap, w, roleId, path), path, roleId, env.secretText(w.minted))
  {
    ReplacedIs(cap, w, R.Installed(env, cap, w, roleId, path), path, roleId, env.secretText(w.minted));
  }

  lemma UninstalledFiles(env: Env, cap: Cap, w: World, roleId: string, path: string, stale: string)
    requires !R.Installs(env, R.Cursor(w.calls, w.minted, {}))
    ensures Provision(env, cap, w, roleId, path, stale).0.files == w.files
  {
  }

  lemma StaleRevoked(env: Env, cap: Cap, w: World, w1: World, path: string)
    requires w1.secrets == w.secrets[w.minted := Secret(cap.rname, env.secretText(w.minted))]
    ensures var stale := StaleSecret(env, w, path);
      forall n :: n in w1.secrets ==>
        (stale != "" && env.staleReadable && env.staleDrops(path) && w1.secrets[n] == Secret(cap.rname, stale) <==> Revoked(env, cap, w, path, n))
  {
  }

  // ---------------------------------------------------------------- the value

  /** The value row, exactly. */
  lemma ValueRowIs(env: Env, cap: Cap, w: World)
    ensures var f := CheckKv(env, cap, w);
      && (f == Unknown <==> !env.kvReadable) && (f == Fine <==> env.kvReadable && cap.kvPath in w.kv)
      && (f == Missing <==> env.kvReadable && cap.kvPath !in w.kv)
  {
  }

  /** The value step, exactly: skipped without values, or if the path is seen or found to hold one. */
  lemma ValueStepDoes(env: Env, cap: Cap, w: World, values: Option<map<string, string>>)
    ensures var (w', s) := ApplyKv(env, cap, w, values);
      var held := cap.kvPath in w.kv;
      var tried := values.Some? && !(env.kvReadable && held);
      && (!tried ==> w' == w && s == Skipped)
      && (tried ==> w'.calls == w.calls + 1 && (s == if !env.ok(w.calls) then Failed else if held then Skipped else Applied))
      && w'.kv == (if tried && !held && (env.ok(w.calls) || env.took(w.calls)) then w.kv[cap.kvPath := values.value] else w.kv)
      && w'.policies == w.policies && w'.roles == w.roles && w'.secrets == w.secrets && w'.files == w.files && w'.minted == w.minted
  {
  }

  // ---------------------------------------------------------------- after a successful run

  lemma StepRoles(env: Env, cap: Cap, values: Option<map<string, string>>, r: Run, a: Action)
    requires a != CreateRole
    ensures Step(env, cap, values, r, a).w.roles == r.w.roles
  {
    if !r.aborted {
      match a
      case CreatePolicy => PolicyOnly(env, cap, r.w);
      case WritePlane(path) => PlaneOutcome(env, cap, r.w, r.roleId, path);
      case WriteKv => KvOnly(env, cap, r.w, values);
    }
  }

  lemma {:induction false} LaterRoles(env: Env, cap: Cap, values: Option<map<string, string>>, w: World, k: nat)
    requires 2 <= k <= |Plan(cap)|
    ensures Prefix(env, cap, values, w, k).w.roles == Prefix(env, cap, values, w, 2).w.roles
  {
    if k > 2 {
      LaterRoles(env, cap, values, w, k - 1);
      PrefixNext(env, cap, values, w, k - 1);
      PlanShape(cap, k - 1);
      StepRoles(env, cap, values, Prefix(env, cap, values, w, k - 1), Plan(cap)[k - 1]);
    }
  }

  /** The first two steps of a run whose role step did not fail. */
  lemma RoleOfRun(env: Env, cap: Cap, values: Option<map<string, string>>, w: World)
    requires env.roleSight == Clear && !Prefix(env, cap, values, w, 2).aborted
    ensures var w2 := Prefix(env, cap, values, w, 2).w;
      && cap.rname in w2.roles
      && if cap.rname in w.roles && Declared(w.roles[cap.rname].data, cap.pname) then w2.roles == w.roles
         else w2.roles[cap.rname].data.tokenPolicies == Many([cap.pname]) && w2.roles[cap.rname].data.policies == Absent &&
              AllSettings(w2.roles[cap.rname].data.config)
  {
    assert Plan(cap)[..0] == [];
    PrefixNext(env, cap, values, w, 0);
    PrefixNext(env, cap, values, w, 1);
    PlanShape(cap, 0);
    PlanShape(cap, 1);
    PolicyOnly(env, cap, w);
    var w1 := ApplyPolicy(env, cap, w).0;
    RoleStepDoes(env, cap, w1);
  }

  /**
   After a run in which no step failed, in a Vault whose roles can be read, the role
   is as declared; and if it was not before, it is bound to the one policy and has
   all four settings.
   */
  lemma RunDeclares(env: Env, cap: Cap, w: World, values: map<string, string>)
    requires A.Readable(env) && PathsApart(cap.planes) && A.Succeeded(env, cap, w, values)
    ensures var w' := Apply(env, cap, w, Some(values)).0;
      && cap.rname in w'.roles && Declared(w'.roles[cap.rname].data, cap.pname)
      && (!(cap.rname in w.roles && Declared(w.roles[cap.rname].data, cap.pname)) ==>
            Bound(w'.roles[cap.rname].data, cap.pname) && AllSettings(w'.roles[cap.rname].data.config))
  {
    A.SuccessIs(env, cap, w, values);
    PlanShape(cap, 0);
    A.PrefixMonotone(env, cap, Some(values), w, 2, |Plan(cap)|);
    LaterRoles(env, cap, Some(values), w, |Plan(cap)|);
    RoleOfRun(env, cap, Some(values), w);
  }
}
