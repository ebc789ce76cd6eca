/** What a failed onboarding leaves behind. */
module OnboardRollback {
  import opened Base
  import opened OnboardSpec
  import P = PlaneEnv

  type Values = Option<map<string, string>>

  /** Different planes, none of them another one's backup: one file name in different harness directories. */
  ghost predicate PathsApart(planes: seq<string>) {
    && (forall i, j :: 0 <= i < j < |planes| ==> planes[i] != planes[j])
    && (forall i, j :: 0 <= i < |planes| && 0 <= j < |planes| ==> planes[i] != Bak(planes[j]))
  }

  /** Vault's own invariant: a SecretID belongs to a role there is; and numbers are handed out in order. */
  ghost predicate WellFormed(w: World) {
    && (forall n :: n in w.secrets ==> n < w.minted && w.secrets[n].role in w.roles)
    && (forall n :: n in w.told ==> n < w.minted)
  }

  lemma BakInjective(p: string, q: string)
    ensures Bak(p) == Bak(q) ==> p == q
    ensures Bak(p) != p
  {
    if Bak(p) == Bak(q) {
      assert p == Bak(p)[..|Bak(p)| - 4] && q == Bak(q)[..|Bak(q)| - 4];
    }
  }

  // ---------------------------------------------------------------- what a rollback cannot put back

  /** The policies once everything this run knows it made is undone. */
  function PoliciesLeft(env: Env, cap: Cap, w0: World): map<string, string> {
    if PolicyMatches(env, cap, w0) || !Effect(env, w0.calls) then w0.policies
    else if env.ok(w0.calls) && env.policySight != Blind && cap.pname !in w0.policies then w0.policies
    else w0.policies[cap.pname := cap.hcl]
  }

  /** The roles, likewise; `w` is the world the role step starts from. */
  function RolesLeft(env: Env, cap: Cap, w: World): map<string, Role> {
    if RoleMatches(env, cap, w) || !Effect(env, w.calls) then w.roles
    else if env.ok(w.calls) && env.roleSight != Blind && cap.rname !in w.roles then w.roles
    else w.roles[cap.rname := NewRole(env, cap, w)]
  }

  /** The KV paths after a value step that failed. */
  function KvLeft(env: Env, cap: Cap, w: World, values: Values): map<string, map<string, string>> {
    if values.None? || cap.kvPath in w.kv || env.ok(w.calls) || !env.took(w.calls) then w.kv
    else w.kv[cap.kvPath := values.value]
  }

  /** What Vault holds when a run's undo stack is discharged. */
  datatype Residue = Residue(policies: map<string, string>, roles: map<string, Role>, kv: map<string, map<string, string>>)

  // ---------------------------------------------------------------- the invariant

  ghost predicate PoliciesOk(cap: Cap, w: World, undo: seq<Undo>, left: Residue) {
    && (DeletePolicy in undo ==> cap.pname !in left.policies)
    && w.policies == if DeletePolicy in undo then left.policies[cap.pname := cap.hcl] else left.policies
  }

  ghost predicate RolesOk(cap: Cap, w0: World, w: World, undo: seq<Undo>, left: Residue) {
    && (DeleteRole in undo ==> cap.rname !in left.roles && cap.rname !in w0.roles && cap.rname in w.roles)
    && (if DeleteRole in undo then w.roles == left.roles[cap.rname := w.roles[cap.rname]] else w.roles == left.roles)
    && (forall k :: k in w0.roles ==> k in left.roles)
  }

  /** A plane file that held this role's SecretID was replaced, and revoking that SecretID took effect. */
  ghost predicate Superseded(env: Env, cap: Cap, w0: World, rows: seq<Row>, n: nat)
    requires n in w0.secrets
  {
    w0.secrets[n].role == cap.rname && env.staleReadable &&
    exists p :: p in cap.planes && Replaces(env, w0, rows, p, w0.secrets[n].text)
  }

  predicate Replaces(env: Env, w0: World, rows: seq<Row>, p: string, text: string) {
    Did(WritePlane(p), Applied) in rows && text != "" && StaleSecret(env, w0, p) == text && env.staleDrops(p)
  }

  /** Vault makes no SecretID whose text a plane file already held. */
  ghost predicate FreshTexts(env: Env, cap: Cap, w0: World) {
    forall n, p :: w0.minted <= n && p in cap.planes && StaleSecret(env, w0, p) != "" ==> env.secretText(n) != StaleSecret(env, w0, p)
  }

  /** A SecretID from before the run lives exactly if it was not superseded. */
  ghost predicate OldOk(env: Env, cap: Cap, w0: World, w: World, rows: seq<Row>) {
    forall n :: n in w0.secrets ==>
      (n in w.secrets <==> !Superseded(env, cap, w0, rows, n)) && (n in w.secrets ==> w.secrets[n] == w0.secrets[n])
  }

  ghost predicate NewOk(env: Env, cap: Cap, w0: World, w: World) {
    forall n :: n in w.secrets && n !in w0.secrets ==> w0.minted <= n && w.secrets[n] == Secret(cap.rname, env.secretText(n))
  }

  /** Every SecretID whose accessor was told is on the stack; the others live as long as their role. */
  ghost predicate ToldOk(w0: World, w: World, undo: seq<Undo>) {
    && (forall n :: n in w.secrets && w0.minted <= n && n in w.told ==> DestroySecret(n) in undo)
    && (forall i :: 0 <= i < |undo| && undo[i].DestroySecret? ==> w0.minted <= undo[i].n && undo[i].n in w.told)
  }

  ghost predicate KeptOk(env: Env, cap: Cap, w0: World, w: World) {
    FreshTexts(env, cap, w0) && cap.rname in w.roles ==>
      forall n :: w0.minted <= n < w.minted && n !in w.told ==> n in w.secrets
  }

  ghost predicate SecretsOk(env: Env, cap: Cap, w0: World, w: World, undo: seq<Undo>, rows: seq<Row>) {
    && w0.minted <= w.minted && WellFormed(w)
    && OldOk(env, cap, w0, w, rows) && NewOk(env, cap, w0, w) && ToldOk(w0, w, undo) && KeptOk(env, cap, w0, w)
  }

  predicate SameFile(w0: World, w: World, p: string) {
    (p in w.files <==> p in w0.files) && (p in w.files ==> w.files[p] == w0.files[p])
  }

  /** The undo entry for a plane can bring its old content back. */
  ghost predicate CanRestore(w0: World, w: World, p: string, backup: Option<string>) {
    match backup
    case None => p !in w0.files
    case Some(q) => q == Bak(p) && p in w0.files && q in w.files && w.files[q] == w0.files[p]
  }

  ghost predicate FilesOk(cap: Cap, w0: World, w: World, undo: seq<Undo>) {
    && (forall p :: p in cap.planes && !Replaced(undo, p) ==> SameFile(w0, w, p))
    && (forall i :: 0 <= i < |undo| && undo[i].RestorePlane? ==>
          undo[i].path in cap.planes && CanRestore(w0, w, undo[i].path, undo[i].backup))
  }

  ghost predicate Replaced(undo: seq<Undo>, p: string) {
    exists i :: 0 <= i < |undo| && undo[i].RestorePlane? && undo[i].path == p
  }

  /** Each thing is undone at most once. */
  ghost predicate Once(undo: seq<Undo>) {
    forall i, j :: 0 <= i < j < |undo| ==>
      undo[i] != undo[j] && (undo[i].RestorePlane? && undo[j].RestorePlane? ==> undo[i].path != undo[j].path)
  }

  ghost predicate Compensable(env: Env, cap: Cap, w0: World, w: World, undo: seq<Undo>, rows: seq<Row>, left: Residue) {
    && PoliciesOk(cap, w, undo, left)
    && RolesOk(cap, w0, w, undo, left)
    && SecretsOk(env, cap, w0, w, undo, rows)
    && FilesOk(cap, w0, w, undo)
    && Once(undo)
    && w.kv == left.kv
  }

  // ---------------------------------------------------------------- unwinding

  lemma Snoc(undo: seq<Undo>)
    requires undo != [] && Once(undo)
    ensures var n := |undo| - 1;
      && Once(undo[..n])
      && undo[n] !in undo[..n]
      && (forall u :: u in undo <==> u in undo[..n] || u == undo[n])
      && (forall p :: Replaced(undo, p) <==> Replaced(undo[..n], p) || (undo[n].RestorePlane? && undo[n].path == p))
      && (undo[n].RestorePlane? ==> !Replaced(undo[..n], undo[n].path))
  {
    var n := |undo| - 1;
    assert undo == undo[..n] + [undo[n]];
    forall p ensures Replaced(undo, p) <==> Replaced(undo[..n], p) || (undo[n].RestorePlane? && undo[n].path == p) {
      if Replaced(undo[..n], p) {
        var i :| 0 <= i < n && undo[..n][i].RestorePlane? && undo[..n][i].path == p;
        assert undo[i].RestorePlane? && undo[i].path == p;
      }
    }
  }

  lemma CompensateFiles(cap: Cap, w0: World, w: World, undo: seq<Undo>)
    requires undo != [] && Once(undo) && FilesOk(cap, w0, w, undo) && PathsApart(cap.planes)
    ensures FilesOk(cap, w0, Compensate(cap, Call(w), undo[|undo| - 1]), undo[..|undo| - 1])
  {
    var n := |undo| - 1;
    Snoc(undo);
    if undo[n].RestorePlane? {
      RestoreFiles(cap, w0, w, undo);
    }
  }

  lemma RestoreFiles(cap: Cap, w0: World, w: World, undo: seq<Undo>)
    requires undo != [] && Once(undo) && FilesOk(cap, w0, w, undo) && PathsApart(cap.planes)
    requires undo[|undo| - 1].RestorePlane?
    ensures FilesOk(cap, w0, Compensate(cap, Call(w), undo[|undo| - 1]), undo[..|undo| - 1])
  {
    var n := |undo| - 1;
    var u := undo[n];
    Snoc(undo);
    var w' := Compensate(cap, Call(w), u);
    BakInjective(u.path, u.path);
    assert CanRestore(w0, w, u.path, u.backup);
    assert SameFile(w0, w', u.path);
    assert forall p :: p != u.path && p != Bak(u.path) ==> SameFile(w, w', p);
    forall p | p in cap.planes && !Replaced(undo[..n], p) ensures SameFile(w0, w', p) {
      assert p != Bak(u.path);
    }
    forall i | 0 <= i < n && undo[i].RestorePlane? ensures CanRestore(w0, w', undo[i].path, undo[i].backup) {
      BakInjective(undo[i].path, u.path);
      assert CanRestore(w0, w, undo[i].path, undo[i].backup);
      assert u.path != Bak(undo[i].path);
      assert SameFile(w, w', Bak(undo[i].path));
    }
  }

  lemma CompensatePolicies(cap: Cap, w: World, undo: seq<Undo>, left: Residue)
    requires undo != [] && Once(undo) && PoliciesOk(cap, w, undo, left)
    ensures PoliciesOk(cap, Compensate(cap, Call(w), undo[|undo| - 1]), undo[..|undo| - 1], left)
  {
    Snoc(undo);
    if undo[|undo| - 1] == DeletePolicy {
      assert left.policies[cap.pname := cap.hcl] - {cap.pname} == left.policies;
    }
  }

  lemma CompensateRoles(cap: Cap, w0: World, w: World, undo: seq<Undo>, left: Residue)
    requires undo != [] && Once(undo) && RolesOk(cap, w0, w, undo, left)
    ensures RolesOk(cap, w0, Compensate(cap, Call(w), undo[|undo| - 1]), undo[..|undo| - 1], left)
  {
    Snoc(undo);
    if undo[|undo| - 1] == DeleteRole {
      assert left.roles[cap.rname := w.roles[cap.rname]] - {cap.rname} == left.roles;
    }
  }

  lemma CompensateSecrets(env: Env, cap: Cap, w0: World, w: World, undo: seq<Undo>, rows: seq<Row>, left: Residue)
    requires undo != [] && Once(undo) && WellFormed(w0) && RolesOk(cap, w0, w, undo, left) && SecretsOk(env, cap, w0, w, undo, rows)
    ensures SecretsOk(env, cap, w0, Compensate(cap, Call(w), undo[|undo| - 1]), undo[..|undo| - 1], rows)
  {
    var u := undo[|undo| - 1];
    if u == DeleteRole {
      RoleTakesSecrets(env, cap, w0, w, undo, rows);
    } else if u.DestroySecret? {
      DestroyTakesOne(env, cap, w0, w, undo, rows);
    } else {
      PopSecrets(env, cap, w0, w, undo, rows);
      OtherUndo(cap, w, u);
      WriteSecrets(env, cap, w0, w, undo[..|undo| - 1], rows, Compensate(cap, Call(w), u));
    }
  }

  lemma OtherUndo(cap: Cap, w: World, u: Undo)
    requires !u.DestroySecret? && u != DeleteRole
    ensures var w1 := Compensate(cap, Call(w), u);
            w1.secrets == w.secrets && w1.roles == w.roles && w1.minted == w.minted && w1.told == w.told
  {
  }

  lemma PopSecrets(env: Env, cap: Cap, w0: World, w: World, undo: seq<Undo>, rows: seq<Row>)
    requires undo != [] && Once(undo) && SecretsOk(env, cap, w0, w, undo, rows) && !undo[|undo| - 1].DestroySecret?
    ensures SecretsOk(env, cap, w0, w, undo[..|undo| - 1], rows)
  {
    Snoc(undo);
  }

  lemma RoleTakesSecrets(env: Env, cap: Cap, w0: World, w: World, undo: seq<Undo>, rows: seq<Row>)
    requires undo != [] && Once(undo) && WellFormed(w0) && SecretsOk(env, cap, w0, w, undo, rows)
    requires undo[|undo| - 1] == DeleteRole && cap.rname !in w0.roles
    ensures SecretsOk(env, cap, w0, Compensate(cap, Call(w), DeleteRole), undo[..|undo| - 1], rows)
  {
    Snoc(undo);
    var w1 := Compensate(cap, Call(w), DeleteRole);
    forall n | n in w0.secrets ensures !Superseded(env, cap, w0, rows, n) && w0.secrets[n].role != cap.rname { }
    assert OldOk(env, cap, w0, w1, rows);
  }

  lemma DestroyTakesOne(env: Env, cap: Cap, w0: World, w: World, undo: seq<Undo>, rows: seq<Row>)
    requires undo != [] && Once(undo) && WellFormed(w0) && SecretsOk(env, cap, w0, w, undo, rows)
    requires undo[|undo| - 1].DestroySecret?
    ensures SecretsOk(env, cap, w0, Compensate(cap, Call(w), undo[|undo| - 1]), undo[..|undo| - 1], rows)
  {
    Snoc(undo);
    var u := undo[|undo| - 1];
    var w1 := Compensate(cap, Call(w), u);
    assert w0.minted <= u.n && u.n in w.told;
    assert OldOk(env, cap, w0, w1, rows);
    assert ToldOk(w0, w1, undo[..|undo| - 1]);
  }

  /** Unwinding with no failed undo discharges the whole stack. */
  lemma {:induction false} UnwindDischarges(env: Env, cap: Cap, w0: World, w: World, undo: seq<Undo>, rows: seq<Row>, left: Residue)
    requires WellFormed(w0) && Compensable(env, cap, w0, w, undo, rows, left) && PathsApart(cap.planes)
    requires forall row :: row in Unwind(env, cap, w, undo).1 ==> !row.RollbackFailed?
    ensures Compensable(env, cap, w0, Unwind(env, cap, w, undo).0, [], rows, left)
    decreases |undo|
  {
    if undo != [] {
      var n := |undo| - 1;
      var undone := Unwind(env, cap, w, undo).1;
      assert undone[0] in undone;
      OneUndone(env, cap, w0, w, undo, rows, left);
      var w1 := Compensate(cap, Call(w), undo[n]);
      assert undone[1..] == Unwind(env, cap, w1, undo[..n]).1;
      assert forall row :: row in undone[1..] ==> row in undone;
      UnwindDischarges(env, cap, w0, w1, undo[..n], rows, left);
    }
  }

  lemma OneUndone(env: Env, cap: Cap, w0: World, w: World, undo: seq<Undo>, rows: seq<Row>, left: Residue)
    requires WellFormed(w0) && undo != [] && Compensable(env, cap, w0, w, undo, rows, left) && PathsApart(cap.planes)
    ensures Compensable(env, cap, w0, Compensate(cap, Call(w), undo[|undo| - 1]), undo[..|undo| - 1], rows, left)
  {
    CompensateFiles(cap, w0, w, undo);
    CompensatePolicies(cap, w, undo, left);
    CompensateRoles(cap, w0, w, undo, left);
    CompensateSecrets(env, cap, w0, w, undo, rows, left);
    Snoc(undo);
  }

  /** Every entry is undone exactly once, in the reverse of the order it was pushed. */
  lemma {:induction false} UnwindOrder(env: Env, cap: Cap, w: World, undo: seq<Undo>)
    ensures var rows := Unwind(env, cap, w, undo).1;
      && |rows| == |undo|
      && forall i :: 0 <= i < |rows| ==> (rows[i].RolledBack? || rows[i].RollbackFailed?) && rows[i].undo == undo[|undo| - 1 - i]
    decreases |undo|
  {
    if undo != [] {
      var n := |undo| - 1;
      UnwindOrder(env, cap, UndoOne(env, cap, w, undo[n]), undo[..n]);
    }
  }

  // ---------------------------------------------------------------- applying

  ghost function Prefix(env: Env, cap: Cap, values: Option<map<string, string>>, w0: World, k: nat): Run
    requires k <= |Plan(cap)|
  {
    Steps(env, cap, values, Run(w0, [], None, [], false), Plan(cap)[..k])
  }

  lemma PrefixNext(env: Env, cap: Cap, values: Option<map<string, string>>, w0: World, k: nat)
    requires k < |Plan(cap)|
    ensures Prefix(env, cap, values, w0, k + 1) == Step(env, cap, values, Prefix(env, cap, values, w0, k), Plan(cap)[k])
  {
    assert Plan(cap)[..k + 1][..k] == Plan(cap)[..k];
  }

  lemma PlanShape(cap: Cap, k: nat)
    requires k < |Plan(cap)|
    ensures |Plan(cap)| == |cap.planes| + 3
    ensures Plan(cap)[k] == (if k == 0 then CreatePolicy else if k == 1 then CreateRole
                             else if k < |cap.planes| + 2 then WritePlane(cap.planes[k - 2]) else WriteKv)
  {
  }

  lemma OnceAppend(undo: seq<Undo>, u: Undo)
    requires Once(undo) && u !in undo && (u.RestorePlane? ==> !Replaced(undo, u.path))
    ensures Once(undo + [u])
    ensures forall x :: x in undo + [u] <==> x in undo || x == u
    ensures forall p :: Replaced(undo + [u], p) <==> Replaced(undo, p) || (u.RestorePlane? && u.path == p)
  {
    var all := undo + [u];
    assert all[..|undo|] == undo && all[|undo|] == u;
    forall p | Replaced(undo, p) ensures Replaced(all, p) {
      var i :| 0 <= i < |undo| && undo[i].RestorePlane? && undo[i].path == p;
      assert all[i] == undo[i];
    }
    forall i, j | 0 <= i < j < |all|
      ensures all[i] != all[j] && (all[i].RestorePlane? && all[j].RestorePlane? ==> all[i].path != all[j].path)
    {
    }
  }

  /** Entries pushed so far concern only steps already taken. */
  ghost predicate Behind(cap: Cap, undo: seq<Undo>, k: nat) {
    forall i :: 0 <= i < |undo| ==>
      match undo[i]
      case DeletePolicy => k >= 1
      case DeleteRole => k >= 2
      case DestroySecret(n) => true
      case RestorePlane(p, _) => exists j :: 0 <= j < k - 2 && j < |cap.planes| && cap.planes[j] == p
  }

  lemma BehindFresh(cap: Cap, undo: seq<Undo>, k: nat)
    requires Behind(cap, undo, k) && PathsApart(cap.planes)
    ensures k == 0 ==> DeletePolicy !in undo
    ensures k <= 1 ==> DeleteRole !in undo
    ensures 2 <= k < |cap.planes| + 2 ==> !Replaced(undo, cap.planes[k - 2])
  {
  }

  /** What holds after the first `k` steps, aborted or not. */
  ghost predicate Good(env: Env, cap: Cap, w0: World, r: Run, k: nat, left: Residue) {
    && Compensable(env, cap, w0, r.w, r.undo, r.rows, left)
    && Behind(cap, r.undo, k)
    && (r.roleId.Some? ==> cap.rname in r.w.roles)
  }

  /** The shapes a plane step can take, by the undo entries it pushes. */
  ghost predicate PlaneShape(w: World, path: string, w': World, u: seq<Undo>) {
    var destroy, restore := DestroySecret(w.minted), RestorePlane(path, Backup(w, path));
    && (u == [] || u == [destroy] || u == [restore] || u == [destroy, restore])
    && (u == [] || u == [destroy] ==> w'.files == w.files)
    && (u == [restore] || u == [destroy, restore] ==> exists f: File :: NewFiles(w, path, f) == w'.files)
    && w'.policies == w.policies && w'.roles == w.roles && w'.kv == w.kv
  }

  lemma PlaneOutcome(env: Env, cap: Cap, w: World, roleId: Option<string>, path: string)
    ensures var (w', s, u) := ApplyPlane(env, cap, w, roleId, path); PlaneShape(w, path, w', u)
  {
    if roleId.Some? {
      ProvisionOutcome(env, cap, w, roleId.value, path, StaleSecret(env, w, path));
    }
  }

  lemma ProvisionOutcome(env: Env, cap: Cap, w: World, roleId: string, path: string, stale: string)
    ensures var (w', s, u) := Provision(env, cap, w, roleId, path, stale); PlaneShape(w, path, w', u)
  {
    var w1, f := Mint(env, cap, w), File(Text(P.PlaneText(cap.addr, roleId, env.secretText(w.minted))), true);
    InstallOutcome(env, cap, w1, w.minted, roleId, path, stale);
    assert Backup(w1, path) == Backup(w, path) && NewFiles(w1, path, f) == NewFiles(w, path, f);
  }

  lemma InstallOutcome(env: Env, cap: Cap, w: World, n: nat, roleId: string, path: string, stale: string)
    ensures var (w', s, u) := Install(env, cap, w, n, roleId, path, stale);
      var destroy, restore := DestroySecret(n), RestorePlane(path, Backup(w, path));
      && (u == [] || u == [destroy] || u == [restore] || u == [destroy, restore])
      && (u == [] || u == [destroy] ==> w'.files == w.files && s == Failed)
      && (u == [restore] || u == [destroy, restore] ==>
            NewFiles(w, path, File(Text(P.PlaneText(cap.addr, roleId, env.secretText(n))), true)) == w'.files)
      && w'.policies == w.policies && w'.roles == w.roles && w'.kv == w.kv
  {
    var destroy, restore := DestroySecret(n), RestorePlane(path, Backup(w, path));
    assert [] + [restore] == [restore] && [destroy] + [restore] == [destroy, restore];
    StaleOnlyDrops(env, cap, WriteFile(w, path, P.PlaneText(cap.addr, roleId, env.secretText(n))), path, stale);
  }

  function NewFiles(w: World, path: string, f: File): map<string, File> {
    (if path in w.files then w.files[Bak(path) := w.files[path]] else w.files)[path := f]
  }

  lemma PlaneFiles(env: Env, cap: Cap, w0: World, w: World, undo: seq<Undo>, roleId: Option<string>, path: string)
    requires path in cap.planes && PathsApart(cap.planes)
    requires FilesOk(cap, w0, w, undo) && Once(undo) && !Replaced(undo, path) && DestroySecret(w.minted) !in undo
    ensures var (w', s, u) := ApplyPlane(env, cap, w, roleId, path);
      FilesOk(cap, w0, w', undo + u) && Once(undo + u)
  {
    var (w', s, u) := ApplyPlane(env, cap, w, roleId, path);
    PlaneOutcome(env, cap, w, roleId, path);
    var destroy, restore := DestroySecret(w.minted), RestorePlane(path, Backup(w, path));
    OnceAppend(undo, destroy);
    DestroyKeepsFiles(cap, w0, w, undo, w.minted);
    if u == [] {
      assert undo + u == undo;
    } else if u == [destroy] {
    } else if f: File :| NewFiles(w, path, f) == w'.files {
      var first := if u == [restore] then undo else undo + [destroy];
      assert undo + u == first + [restore];
      OnceAppend(first, restore);
      WriteKeepsFiles(cap, w0, w, w', first, path, f);
    }
  }

  lemma DestroyKeepsFiles(cap: Cap, w0: World, w: World, undo: seq<Undo>, n: nat)
    requires FilesOk(cap, w0, w, undo)
    ensures FilesOk(cap, w0, w, undo + [DestroySecret(n)])
    ensures forall p :: Replaced(undo + [DestroySecret(n)], p) <==> Replaced(undo, p)
  {
    var all := undo + [DestroySecret(n)];
    forall p ensures Replaced(all, p) <==> Replaced(undo, p) {
      if Replaced(undo, p) {
        var i :| 0 <= i < |undo| && undo[i].RestorePlane? && undo[i].path == p;
        assert all[i] == undo[i];
      }
    }
  }

  lemma WriteKeepsFiles(cap: Cap, w0: World, w: World, w': World, undo: seq<Undo>, path: string, f: File)
    requires path in cap.planes && PathsApart(cap.planes)
    requires FilesOk(cap, w0, w, undo) && !Replaced(undo, path)
    requires w'.files == NewFiles(w, path, f)
    ensures FilesOk(cap, w0, w', undo + [RestorePlane(path, Backup(w, path))])
  {
    var e := RestorePlane(path, Backup(w, path));
    var all := undo + [e];
    BakInjective(path, path);
    assert SameFile(w0, w, path);
    forall p | p in cap.planes && !Replaced(all, p) ensures SameFile(w0, w', p) {
      assert all[|undo|] == e;
      forall i | 0 <= i < |undo| && undo[i].RestorePlane? ensures undo[i].path != p {
        assert all[i] == undo[i];
      }
      assert p != path && p != Bak(path);
    }
    forall i | 0 <= i < |undo| && undo[i].RestorePlane? ensures CanRestore(w0, w', undo[i].path, undo[i].backup) {
      BakInjective(undo[i].path, path);
      assert undo[i].path != path;
      assert CanRestore(w0, w, undo[i].path, undo[i].backup);
      assert Bak(undo[i].path) != path;
    }
  }

  // ---------------------------------------------------------------- SecretIDs through a plane step

  /** A row that is not an applied plane row supersedes nothing. */
  lemma SameRows(env: Env, cap: Cap, w0: World, rows: seq<Row>, row: Row, n: nat)
    requires n in w0.secrets && !(row.Did? && row.action.WritePlane? && row.status == Applied)
    ensures Superseded(env, cap, w0, rows + [row], n) <==> Superseded(env, cap, w0, rows, n)
  {
    forall p ensures Did(WritePlane(p), Applied) in rows + [row] <==> Did(WritePlane(p), Applied) in rows { }
    if Superseded(env, cap, w0, rows, n) {
      var p :| p in cap.planes && Replaces(env, w0, rows, p, w0.secrets[n].text);
      assert Replaces(env, w0, rows + [row], p, w0.secrets[n].text);
    }
    if Superseded(env, cap, w0, rows + [row], n) {
      var p :| p in cap.planes && Replaces(env, w0, rows + [row], p, w0.secrets[n].text);
      assert Replaces(env, w0, rows, p, w0.secrets[n].text);
    }
  }

  lemma SameOld(env: Env, cap: Cap, w0: World, w: World, rows: seq<Row>, row: Row)
    requires OldOk(env, cap, w0, w, rows) && !(row.Did? && row.action.WritePlane? && row.status == Applied)
    ensures OldOk(env, cap, w0, w, rows + [row])
  {
    forall n | n in w0.secrets ensures Superseded(env, cap, w0, rows + [row], n) <==> Superseded(env, cap, w0, rows, n) {
      SameRows(env, cap, w0, rows, row, n);
    }
  }

  lemma UntoldSecrets(env: Env, cap: Cap, w0: World, w: World, undo: seq<Undo>, rows: seq<Row>)
    requires WellFormed(w0) && SecretsOk(env, cap, w0, w, undo, rows) && cap.rname in w.roles
    ensures SecretsOk(env, cap, w0, MintUntold(env, cap, w), undo, rows)
  {
  }

  lemma ToldSecrets(env: Env, cap: Cap, w0: World, w: World, undo: seq<Undo>, rows: seq<Row>)
    requires WellFormed(w0) && SecretsOk(env, cap, w0, w, undo, rows) && cap.rname in w.roles
    ensures SecretsOk(env, cap, w0, Mint(env, cap, w), undo + (if env.tellsAccessor(w.minted) then [DestroySecret(w.minted)] else []), rows)
  {
    UntoldSecrets(env, cap, w0, w, undo, rows);
    if env.tellsAccessor(w.minted) {
      var all := undo + [DestroySecret(w.minted)];
      assert forall u :: u in undo ==> u in all;
      assert all[|undo|] == DestroySecret(w.minted);
    } else {
      assert undo + [] == undo;
    }
  }

  /** One superseded SecretID more, when the file's old one is dropped. */
  lemma AppliedRow(env: Env, cap: Cap, w0: World, rows: seq<Row>, path: string, n: nat)
    requires n in w0.secrets && path in cap.planes
    ensures Superseded(env, cap, w0, rows + [Did(WritePlane(path), Applied)], n) <==>
            Superseded(env, cap, w0, rows, n) ||
            (w0.secrets[n].role == cap.rname && env.staleReadable && w0.secrets[n].text != "" &&
             StaleSecret(env, w0, path) == w0.secrets[n].text && env.staleDrops(path))
  {
    var all, text := rows + [Did(WritePlane(path), Applied)], w0.secrets[n].text;
    assert all[|rows|] == Did(WritePlane(path), Applied);
    forall p ensures Did(WritePlane(p), Applied) in all <==> Did(WritePlane(p), Applied) in rows || p == path { }
    if Superseded(env, cap, w0, all, n) {
      var p :| p in cap.planes && Replaces(env, w0, all, p, text);
      if p != path { assert Replaces(env, w0, rows, p, text); }
    }
    if Superseded(env, cap, w0, rows, n) {
      var p :| p in cap.planes && Replaces(env, w0, rows, p, text);
      assert Replaces(env, w0, all, p, text);
    }
    if w0.secrets[n].role == cap.rname && env.staleReadable && Replaces(env, w0, all, path, text) {
      assert Superseded(env, cap, w0, all, n);
    }
  }

  lemma StaleOnlyDrops(env: Env, cap: Cap, w: World, path: string, stale: string)
    ensures var w' := RevokeStale(env, cap, w, path, stale);
      && w'.policies == w.policies && w'.roles == w.roles && w'.kv == w.kv && w'.files == w.files
      && w'.minted == w.minted && w'.told == w.told
      && (forall n :: n in w'.secrets <==>
            n in w.secrets && !(stale != "" && env.staleReadable && env.staleDrops(path) && w.secrets[n] == Secret(cap.rname, stale)))
      && (forall n :: n in w'.secrets ==> w'.secrets[n] == w.secrets[n])
  {
    if Found(cap, w, stale) == {} {
      forall n | n in w.secrets ensures w.secrets[n] != Secret(cap.rname, stale) { assert n !in Found(cap, w, stale); }
    }
  }

  lemma StaleSecrets(env: Env, cap: Cap, w0: World, w: World, undo: seq<Undo>, rows: seq<Row>, path: string)
    requires WellFormed(w0) && SecretsOk(env, cap, w0, w, undo, rows) && path in cap.planes
    ensures SecretsOk(env, cap, w0, RevokeStale(env, cap, w, path, StaleSecret(env, w0, path)), undo,
                      rows + [Did(WritePlane(path), Applied)])
  {
    var stale := StaleSecret(env, w0, path);
    var w', all := RevokeStale(env, cap, w, path, stale), rows + [Did(WritePlane(path), Applied)];
    StaleOnlyDrops(env, cap, w, path, stale);
    forall n | n in w0.secrets
      ensures (n in w'.secrets <==> !Superseded(env, cap, w0, all, n)) && (n in w'.secrets ==> w'.secrets[n] == w0.secrets[n])
    {
      AppliedRow(env, cap, w0, rows, path, n);
    }
    if FreshTexts(env, cap, w0) && cap.rname in w.roles {
      forall n | w0.minted <= n < w.minted && n !in w.told ensures n in w'.secrets {
        assert n in w.secrets && n !in w0.secrets;
        assert stale != "" ==> env.secretText(n) != StaleSecret(env, w0, path);
      }
    }
    assert NewOk(env, cap, w0, w') && ToldOk(w0, w', undo);
  }

  /** Files aside, writing a plane file changes nothing the SecretIDs depend on. */
  lemma WriteSecrets(env: Env, cap: Cap, w0: World, w: World, undo: seq<Undo>, rows: seq<Row>, w': World)
    requires SecretsOk(env, cap, w0, w, undo, rows)
    requires w'.secrets == w.secrets && w'.roles == w.roles && w'.minted == w.minted && w'.told == w.told
    ensures SecretsOk(env, cap, w0, w', undo, rows)
  {
  }

  lemma PushSecrets(env: Env, cap: Cap, w0: World, w: World, undo: seq<Undo>, rows: seq<Row>, u: Undo)
    requires SecretsOk(env, cap, w0, w, undo, rows) && !u.DestroySecret?
    ensures SecretsOk(env, cap, w0, w, undo + [u], rows)
  {
    assert forall x :: x in undo ==> x in undo + [u];
  }

  lemma InstallSecrets(env: Env, cap: Cap, w0: World, w: World, undo: seq<Undo>, rows: seq<Row>, n: nat, roleId: string, path: string)
    requires WellFormed(w0) && path in cap.planes
    requires SecretsOk(env, cap, w0, w, undo + (if env.tellsAccessor(n) then [DestroySecret(n)] else []), rows)
    ensures var (w', s, u) := Install(env, cap, w, n, roleId, path, StaleSecret(env, w0, path));
            SecretsOk(env, cap, w0, w', undo + u, rows + [Did(WritePlane(path), s)])
  {
    var minted := if env.tellsAccessor(n) then [DestroySecret(n)] else [];
    if !env.ok(w.calls) {
      WriteSecrets(env, cap, w0, w, undo + minted, rows, Call(w));
      SameOld(env, cap, w0, Call(w), rows, Did(WritePlane(path), Failed));
    } else {
      var w1 := WriteFile(w, path, P.PlaneText(cap.addr, roleId, env.secretText(n)));
      var restore := RestorePlane(path, Backup(w, path));
      WriteSecrets(env, cap, w0, w, undo + minted, rows, w1);
      StaleSecrets(env, cap, w0, w1, undo + minted, rows, path);
      PushSecrets(env, cap, w0, RevokeStale(env, cap, w1, path, StaleSecret(env, w0, path)), undo + minted,
                  rows + [Did(WritePlane(path), Applied)], restore);
      assert undo + minted + [restore] == undo + (minted + [restore]);
    }
  }

  lemma ProvisionSecrets(env: Env, cap: Cap, w0: World, w: World, undo: seq<Undo>, rows: seq<Row>, roleId: string, path: string)
    requires WellFormed(w0) && SecretsOk(env, cap, w0, w, undo, rows) && cap.rname in w.roles && path in cap.planes
    ensures var (w', s, u) := Provision(env, cap, w, roleId, path, StaleSecret(env, w0, path));
            SecretsOk(env, cap, w0, w', undo + u, rows + [Did(WritePlane(path), s)])
  {
    if env.ok(w.calls) && env.tellsSecret(w.minted) && env.secretText(w.minted) != "" {
      ToldSecrets(env, cap, w0, w, undo, rows);
      InstallSecrets(env, cap, w0, Mint(env, cap, w), undo, rows, w.minted, roleId, path);
    } else {
      UnmintedSecrets(env, cap, w0, w, undo, rows, Did(WritePlane(path), Failed));
    }
  }

  /** A mint that failed, or whose answer did not tell the SecretID. */
  lemma UnmintedSecrets(env: Env, cap: Cap, w0: World, w: World, undo: seq<Undo>, rows: seq<Row>, failed: Row)
    requires WellFormed(w0) && SecretsOk(env, cap, w0, w, undo, rows) && cap.rname in w.roles
    requires failed.Did? && failed.status != Applied
    ensures SecretsOk(env, cap, w0, Call(w), undo + [], rows + [failed])
    ensures SecretsOk(env, cap, w0, MintUntold(env, cap, w), undo + [], rows + [failed])
  {
    assert undo + [] == undo;
    UntoldSecrets(env, cap, w0, w, undo, rows);
    WriteSecrets(env, cap, w0, w, undo, rows, Call(w));
    SameOld(env, cap, w0, Call(w), rows, failed);
    SameOld(env, cap, w0, MintUntold(env, cap, w), rows, failed);
  }

  /** A plane not yet replaced still holds the SecretID it held before the run. */
  lemma SameStale(env: Env, w0: World, w: World, path: string)
    requires SameFile(w0, w, path)
    ensures StaleSecret(env, w, path) == StaleSecret(env, w0, path)
  {
  }

  lemma PlaneSecrets(env: Env, cap: Cap, w0: World, w: World, undo: seq<Undo>, rows: seq<Row>, roleId: Option<string>, path: string)
    requires WellFormed(w0) && SecretsOk(env, cap, w0, w, undo, rows) && path in cap.planes
    requires SameFile(w0, w, path) && (roleId.Some? ==> cap.rname in w.roles)
    ensures var (w', s, u) := ApplyPlane(env, cap, w, roleId, path);
            SecretsOk(env, cap, w0, w', undo + u, rows + [Did(WritePlane(path), s)])
  {
    assert undo + [] == undo;
    SameOld(env, cap, w0, w, rows, Did(WritePlane(path), Failed));
    SameOld(env, cap, w0, w, rows, Did(WritePlane(path), Converged));
    if roleId.Some? {
      SameStale(env, w0, w, path);
      ProvisionSecrets(env, cap, w0, w, undo, rows, roleId.value, path);
    }
  }

  // ---------------------------------------------------------------- the steps

  lemma PlaneStep(env: Env, cap: Cap, w0: World, r: Run, values: Values, k: nat, left: Residue)
    requires WellFormed(w0) && PathsApart(cap.planes) && 2 <= k < |cap.planes| + 2 && !r.aborted
    requires Good(env, cap, w0, r, k, left)
    ensures Good(env, cap, w0, Step(env, cap, values, r, WritePlane(cap.planes[k - 2])), k + 1, left)
  {
    var path := cap.planes[k - 2];
    var (w', s, u) := ApplyPlane(env, cap, r.w, r.roleId, path);
    BehindFresh(cap, r.undo, k);
    PlaneOutcome(env, cap, r.w, r.roleId, path);
    PlaneFiles(env, cap, w0, r.w, r.undo, r.roleId, path);
    PlaneSecrets(env, cap, w0, r.w, r.undo, r.rows, r.roleId, path);
    assert forall i :: 0 <= i < |u| ==> u[i].DestroySecret? || u[i] == RestorePlane(path, Backup(r.w, path));
    PlaneBehind(cap, r.undo, u, path, Backup(r.w, path), k);
  }

  lemma PlaneBehind(cap: Cap, undo: seq<Undo>, u: seq<Undo>, path: string, backup: Option<string>, k: nat)
    requires 2 <= k < |cap.planes| + 2 && path == cap.planes[k - 2] && Behind(cap, undo, k)
    requires forall i :: 0 <= i < |u| ==> u[i].DestroySecret? || u[i] == RestorePlane(path, backup)
    ensures Behind(cap, undo + u, k + 1)
    ensures DeletePolicy in undo + u <==> DeletePolicy in undo
    ensures DeleteRole in undo + u <==> DeleteRole in undo
  {
    BehindMore(cap, undo, k);
  }

  lemma BehindMore(cap: Cap, undo: seq<Undo>, k: nat)
    requires Behind(cap, undo, k)
    ensures Behind(cap, undo, k + 1)
  {
  }

  /** A step that only adds a row. */
  lemma RowOnly(env: Env, cap: Cap, w0: World, r: Run, r': Run, k: nat, left: Residue, row: Row)
    requires Good(env, cap, w0, r, k, left) && r'.w == r.w && r'.undo == r.undo && r'.roleId == r.roleId && r'.rows == r.rows + [row]
    requires !(row.Did? && row.action.WritePlane? && row.status == Applied)
    ensures Good(env, cap, w0, r', k + 1, left)
  {
    SameOld(env, cap, w0, r.w, r.rows, row);
    BehindMore(cap, r.undo, k);
  }

  /** Nothing done, nothing to undo. */
  lemma StartGood(env: Env, cap: Cap, w0: World)
    requires WellFormed(w0)
    ensures Good(env, cap, w0, Run(w0, [], None, [], false), 0, Residue(w0.policies, w0.roles, w0.kv))
  {
    assert forall p :: !Replaced([], p);
    forall n | n in w0.secrets ensures !Superseded(env, cap, w0, [], n) { }
  }

  /** Entries about Vault's own objects change nothing else the invariant says. */
  lemma VaultEntry(env: Env, cap: Cap, w0: World, w: World, w': World, undo: seq<Undo>, rows: seq<Row>, u: Undo)
    requires u == DeletePolicy || u == DeleteRole
    requires u !in undo && Once(undo) && FilesOk(cap, w0, w, undo) && SecretsOk(env, cap, w0, w', undo, rows) && w'.files == w.files
    ensures Once(undo + [u]) && FilesOk(cap, w0, w', undo + [u]) && SecretsOk(env, cap, w0, w', undo + [u], rows)
    ensures DeletePolicy in undo + [u] <==> DeletePolicy in undo || u == DeletePolicy
    ensures DeleteRole in undo + [u] <==> DeleteRole in undo || u == DeleteRole
  {
    OnceAppend(undo, u);
    PushSecrets(env, cap, w0, w', undo, rows, u);
    forall i | 0 <= i < |undo| && undo[i].RestorePlane? ensures CanRestore(w0, w', undo[i].path, undo[i].backup) {
      assert CanRestore(w0, w, undo[i].path, undo[i].backup);
    }
  }

  lemma PolicyOnly(env: Env, cap: Cap, w0: World)
    ensures var w := ApplyPolicy(env, cap, w0).0;
      && w.roles == w0.roles && w.secrets == w0.secrets && w.kv == w0.kv && w.files == w0.files
      && w.minted == w0.minted && w.told == w0.told
  {
    WriteOnly(cap, w0);
    CallOnly(w0);
  }

  lemma WriteOnly(cap: Cap, w0: World)
    ensures WritePolicy(cap, w0) == w0.(calls := w0.calls + 1, policies := w0.policies[cap.pname := cap.hcl])
  {
  }

  lemma PolicyPolicies(env: Env, cap: Cap, w0: World)
    ensures var (w, s, u) := ApplyPolicy(env, cap, w0);
      && PoliciesOk(cap, w, u, Residue(PoliciesLeft(env, cap, w0), w0.roles, w0.kv))
      && (u == [] || u == [DeletePolicy])
      && w.roles == w0.roles && w.secrets == w0.secrets && w.kv == w0.kv && w.files == w0.files
      && w.minted == w0.minted && w.told == w0.told
  {
    PolicyOnly(env, cap, w0);
  }

  lemma PolicyStep(env: Env, cap: Cap, w0: World, values: Values)
    requires WellFormed(w0)
    ensures Good(env, cap, w0, Step(env, cap, values, Run(w0, [], None, [], false), CreatePolicy), 1,
                 Residue(PoliciesLeft(env, cap, w0), w0.roles, w0.kv))
  {
    var (w, s, u) := ApplyPolicy(env, cap, w0);
    PolicyPolicies(env, cap, w0);
    StartGood(env, cap, w0);
    SameOld(env, cap, w0, w0, [], Did(CreatePolicy, s));
    assert [] + u == u;
    FilesOnly(cap, w0, w0, w, []);
    PolicyGood(env, cap, w0, w, u, [] + [Did(CreatePolicy, s)]);
  }

  lemma PolicyGood(env: Env, cap: Cap, w0: World, w: World, u: seq<Undo>, rows: seq<Row>)
    requires WellFormed(w0) && (u == [] || u == [DeletePolicy]) && SecretsOk(env, cap, w0, w0, [], rows) && FilesOk(cap, w0, w, [])
    requires w.roles == w0.roles && w.secrets == w0.secrets && w.files == w0.files && w.minted == w0.minted && w.told == w0.told
    ensures SecretsOk(env, cap, w0, w, u, rows) && FilesOk(cap, w0, w, u) && Once(u) && DeleteRole !in u && Behind(cap, u, 1)
  {
    WriteSecrets(env, cap, w0, w0, [], rows, w);
    if u != [] {
      assert [] + [DeletePolicy] == [DeletePolicy];
      VaultEntry(env, cap, w0, w, w, [], rows, DeletePolicy);
    }
  }

  lemma RoleRoles(env: Env, cap: Cap, w0: World, w: World, undo: seq<Undo>, left: Residue)
    requires RolesOk(cap, w0, w, undo, left) && DeleteRole !in undo
    ensures var (w', s, id, u) := ApplyRole(env, cap, w);
      && RolesOk(cap, w0, w', undo + u, left.(roles := RolesLeft(env, cap, w)))
      && (u == [] || u == [DeleteRole])
      && (forall k :: k in w.roles ==> k in w'.roles) && (id.Some? ==> cap.rname in w'.roles)
      && w'.policies == w.policies && w'.secrets == w.secrets && w'.kv == w.kv && w'.files == w.files
      && w'.minted == w.minted && w'.told == w.told
  {
    assert undo + [] == undo;
    if !RoleMatches(env, cap, w) { WrittenRole(env, cap, w0, w, undo, left); }
  }

  lemma WrittenRole(env: Env, cap: Cap, w0: World, w: World, undo: seq<Undo>, left: Residue)
    requires RolesOk(cap, w0, w, undo, left) && DeleteRole !in undo && !RoleMatches(env, cap, w)
    ensures var (w', s, id, u) := CreateOrUpdateRole(env, cap, w);
      && RolesOk(cap, w0, w', undo + u, left.(roles := RolesLeft(env, cap, w)))
      && (u == [] || u == [DeleteRole])
      && (forall k :: k in w.roles ==> k in w'.roles) && (id.Some? ==> cap.rname in w'.roles)
      && w'.policies == w.policies && w'.secrets == w.secrets && w'.kv == w.kv && w'.files == w.files
      && w'.minted == w.minted && w'.told == w.told
  {
    var w1 := WriteRole(env, cap, w);
    RoleGone(cap, w0, w, w1, undo, left, env, false);
    if env.ok(w.calls) {
      RoleGone(cap, w0, w, w1, undo, left, env, env.roleSight != Blind && cap.rname !in w.roles);
    } else {
      assert undo + [] == undo;
    }
  }

  /** The role was written; it is undone later exactly if it was seen to be absent. */
  lemma RoleGone(cap: Cap, w0: World, w: World, w1: World, undo: seq<Undo>, left: Residue, env: Env, created: bool)
    requires RolesOk(cap, w0, w, undo, left) && DeleteRole !in undo
    requires w1 == WriteRole(env, cap, w) && (created ==> cap.rname !in w.roles)
    ensures RolesOk(cap, w0, w1, undo + (if created then [DeleteRole] else []),
                    left.(roles := if created then w.roles else w.roles[cap.rname := NewRole(env, cap, w)]))
  {
    if created {
      assert (undo + [DeleteRole])[|undo|] == DeleteRole;
    } else {
      assert undo + [] == undo;
    }
  }

  lemma MoreRoles(env: Env, cap: Cap, w0: World, w: World, w': World, undo: seq<Undo>, rows: seq<Row>)
    requires SecretsOk(env, cap, w0, w, undo, rows) && (cap.rname !in w.roles ==> w.minted == w0.minted)
    requires w'.secrets == w.secrets && w'.minted == w.minted && w'.told == w.told && forall k :: k in w.roles ==> k in w'.roles
    ensures SecretsOk(env, cap, w0, w', undo, rows)
  {
  }

  lemma RoleStep(env: Env, cap: Cap, w0: World, r: Run, values: Values, left: Residue)
    requires Good(env, cap, w0, r, 1, left) && !r.aborted && r.w.minted == w0.minted
    ensures Good(env, cap, w0, Step(env, cap, values, r, CreateRole), 2, left.(roles := RolesLeft(env, cap, r.w)))
    ensures Step(env, cap, values, r, CreateRole).w.minted == w0.minted
  {
    var (w', s, id, u) := ApplyRole(env, cap, r.w);
    var rows := r.rows + [Did(CreateRole, s)];
    BehindFresh1(cap, r.undo);
    RoleRoles(env, cap, w0, r.w, r.undo, left);
    SameOld(env, cap, w0, r.w, r.rows, Did(CreateRole, s));
    MoreRoles(env, cap, w0, r.w, w', r.undo, rows);
    BehindMore(cap, r.undo, 1);
    FilesOnly(cap, w0, r.w, w', r.undo);
    if u == [DeleteRole] {
      VaultEntry(env, cap, w0, r.w, w', r.undo, rows, DeleteRole);
      assert forall i :: 0 <= i < |r.undo| ==> (r.undo + u)[i] == r.undo[i];
    } else {
      assert r.undo + u == r.undo;
    }
  }

  lemma FilesOnly(cap: Cap, w0: World, w: World, w': World, undo: seq<Undo>)
    requires FilesOk(cap, w0, w, undo) && w'.files == w.files
    ensures FilesOk(cap, w0, w', undo)
  {
    forall i | 0 <= i < |undo| && undo[i].RestorePlane? ensures CanRestore(w0, w', undo[i].path, undo[i].backup) {
      assert CanRestore(w0, w, undo[i].path, undo[i].backup);
    }
  }

  lemma BehindFresh1(cap: Cap, undo: seq<Undo>)
    requires Behind(cap, undo, 1)
    ensures DeleteRole !in undo
  {
  }

  /** What is left by the first two steps: a policy step that failed ends the run there. */
  function VaultLeft(env: Env, cap: Cap, w0: World): Residue {
    var (w1, s, _) := ApplyPolicy(env, cap, w0);
    Residue(PoliciesLeft(env, cap, w0), if s == Failed then w0.roles else RolesLeft(env, cap, w1), w0.kv)
  }

  lemma PrefixTwo(env: Env, cap: Cap, values: Values, w0: World)
    requires WellFormed(w0)
    ensures Good(env, cap, w0, Prefix(env, cap, values, w0, 2), 2, VaultLeft(env, cap, w0))
  {
    PrefixOne(env, cap, values, w0);
    PrefixNext(env, cap, values, w0, 1);
    PlanShape(cap, 1);
    var r := Prefix(env, cap, values, w0, 1);
    SecondStep(env, cap, values, w0, r);
  }

  lemma PrefixOne(env: Env, cap: Cap, values: Values, w0: World)
    requires WellFormed(w0)
    ensures var r := Prefix(env, cap, values, w0, 1);
      var (w1, s, u) := ApplyPolicy(env, cap, w0);
      && Good(env, cap, w0, r, 1, Residue(PoliciesLeft(env, cap, w0), w0.roles, w0.kv))
      && r.w == w1 && (r.aborted <==> s == Failed) && r.w.minted == w0.minted
  {
    assert Plan(cap)[..0] == [];
    PrefixNext(env, cap, values, w0, 0);
    PlanShape(cap, 0);
    PolicyStep(env, cap, w0, values);
    PolicyPolicies(env, cap, w0);
  }

  lemma SecondStep(env: Env, cap: Cap, values: Values, w0: World, r: Run)
    requires Good(env, cap, w0, r, 1, Residue(PoliciesLeft(env, cap, w0), w0.roles, w0.kv))
    requires var (w1, s, u) := ApplyPolicy(env, cap, w0); r.w == w1 && (r.aborted <==> s == Failed) && r.w.minted == w0.minted
    ensures Good(env, cap, w0, Step(env, cap, values, r, CreateRole), 2, VaultLeft(env, cap, w0))
  {
    var left := Residue(PoliciesLeft(env, cap, w0), w0.roles, w0.kv);
    if r.aborted {
      RowOnly(env, cap, w0, r, Step(env, cap, values, r, CreateRole), 1, left, Did(CreateRole, Aborted));
    } else {
      RoleStep(env, cap, w0, r, values, left);
    }
  }

  /** The invariant after every prefix of the plan that ends before the value is written. */
  lemma {:induction false} PrefixGood(env: Env, cap: Cap, values: Values, w0: World, k: nat)
    requires WellFormed(w0) && PathsApart(cap.planes) && 2 <= k <= |cap.planes| + 2
    ensures Good(env, cap, w0, Prefix(env, cap, values, w0, k), k, VaultLeft(env, cap, w0))
  {
    if k == 2 {
      PrefixTwo(env, cap, values, w0);
    } else {
      PrefixGood(env, cap, values, w0, k - 1);
      NextGood(env, cap, values, w0, k - 1, VaultLeft(env, cap, w0));
    }
  }

  lemma NextGood(env: Env, cap: Cap, values: Values, w0: World, k: nat, left: Residue)
    requires WellFormed(w0) && PathsApart(cap.planes) && 2 <= k < |cap.planes| + 2
    requires Good(env, cap, w0, Prefix(env, cap, values, w0, k), k, left)
    ensures Good(env, cap, w0, Prefix(env, cap, values, w0, k + 1), k + 1, left)
  {
    PrefixNext(env, cap, values, w0, k);
    PlanShape(cap, k);
    NextPlane(env, cap, w0, Prefix(env, cap, values, w0, k), values, k, left);
  }

  lemma NextPlane(env: Env, cap: Cap, w0: World, r: Run, values: Values, k: nat, left: Residue)
    requires WellFormed(w0) && PathsApart(cap.planes) && 2 <= k < |cap.planes| + 2 && Good(env, cap, w0, r, k, left)
    ensures Good(env, cap, w0, Step(env, cap, values, r, WritePlane(cap.planes[k - 2])), k + 1, left)
  {
    var a := WritePlane(cap.planes[k - 2]);
    if r.aborted {
      RowOnly(env, cap, w0, r, Step(env, cap, values, r, a), k, left, Did(a, Aborted));
    } else {
      PlaneStep(env, cap, w0, r, values, k, left);
    }
  }

  /** What is left once everything known is undone. */
  ghost function RunLeft(env: Env, cap: Cap, w0: World, values: Values): Residue {
    var r := Prefix(env, cap, values, w0, |cap.planes| + 2);
    var left := VaultLeft(env, cap, w0);
    if r.aborted then left else left.(kv := KvLeft(env, cap, r.w, values))
  }

  lemma KvAborts(env: Env, cap: Cap, w0: World, values: Values, r: Run, k: nat, left: Residue)
    requires Good(env, cap, w0, r, k, left) && !r.aborted && Step(env, cap, values, r, WriteKv).aborted
    ensures var r' := Step(env, cap, values, r, WriteKv);
            Compensable(env, cap, w0, r'.w, r'.undo, r'.rows, left.(kv := KvLeft(env, cap, r.w, values)))
  {
    var r' := Step(env, cap, values, r, WriteKv);
    KvOnly(env, cap, r.w, values);
    SameOld(env, cap, w0, r.w, r.rows, Did(WriteKv, Failed));
    WriteSecrets(env, cap, w0, r.w, r.undo, r'.rows, r'.w);
    FilesOnly(cap, w0, r.w, r'.w, r.undo);
  }

  lemma KvOnly(env: Env, cap: Cap, w: World, values: Values)
    ensures var (w', s) := ApplyKv(env, cap, w, values);
      && w'.policies == w.policies && w'.roles == w.roles && w'.secrets == w.secrets && w'.files == w.files
      && w'.minted == w.minted && w'.told == w.told
      && (s == Failed ==> w'.kv == KvLeft(env, cap, w, values))
  {
    if values.Some? {
      PutOnly(cap, w, values.value);
      CallOnly(w);
    }
  }

  lemma PutOnly(cap: Cap, w: World, value: map<string, string>)
    ensures var w' := PutValue(cap, w, value);
      && w'.policies == w.policies && w'.roles == w.roles && w'.secrets == w.secrets && w'.files == w.files
      && w'.minted == w.minted && w'.told == w.told && w'.kv == w.kv[cap.kvPath := value]
  {
  }

  lemma CallOnly(w: World)
    ensures Call(w) == w.(calls := w.calls + 1)
  {
  }

  /** If the run was aborted, its whole stack can still be discharged. */
  lemma AbortedCompensable(env: Env, cap: Cap, values: Values, w0: World)
    requires WellFormed(w0) && PathsApart(cap.planes)
    requires Prefix(env, cap, values, w0, |Plan(cap)|).aborted
    ensures var r := Prefix(env, cap, values, w0, |Plan(cap)|);
            Compensable(env, cap, w0, r.w, r.undo, r.rows, RunLeft(env, cap, w0, values))
  {
    var n := |cap.planes| + 2;
    PrefixGood(env, cap, values, w0, n);
    PlanShape(cap, n);
    PrefixNext(env, cap, values, w0, n);
    var r := Prefix(env, cap, values, w0, n);
    if r.aborted {
      RowOnly(env, cap, w0, r, Prefix(env, cap, values, w0, n + 1), n, VaultLeft(env, cap, w0), Did(WriteKv, Aborted));
    } else {
      KvAborts(env, cap, w0, values, r, n, VaultLeft(env, cap, w0));
    }
  }

  lemma {:induction false} FailedAborts(env: Env, cap: Cap, values: Values, w0: World, k: nat, a: Action)
    requires k <= |Plan(cap)| && Did(a, Failed) in Prefix(env, cap, values, w0, k).rows
    ensures Prefix(env, cap, values, w0, k).aborted
  {
    assert Plan(cap)[..0] == [];
    if k > 0 {
      PrefixNext(env, cap, values, w0, k - 1);
      if Did(a, Failed) in Prefix(env, cap, values, w0, k - 1).rows {
        FailedAborts(env, cap, values, w0, k - 1, a);
      }
    }
  }

  /** A run that failed, and none of whose undos failed. */
  ghost predicate RolledBackRun(env: Env, cap: Cap, w0: World, values: Values) {
    var rows := Apply(env, cap, w0, values).1;
    (exists a :: Did(a, Failed) in rows) && forall row :: row in rows ==> !row.RollbackFailed?
  }

  /**
   A failed onboarding none of whose undos failed, exactly. Policies, roles and
   KV paths are what the run could not know it had made, or had converged, put
   on top of what there was. Every plane file has its old content and mode, or
   is absent again. A SecretID from before lives exactly if no replaced plane
   file held it with its revocation taking effect; one minted by the run lives
   exactly if its accessor was not told and its role is still there.
   */
  lemma FailedRunRestores(env: Env, cap: Cap, w0: World, values: Values)
    requires WellFormed(w0) && PathsApart(cap.planes) && RolledBackRun(env, cap, w0, values)
    ensures var (w, rows) := Apply(env, cap, w0, values);
      && w.policies == RunLeft(env, cap, w0, values).policies
      && w.roles == RunLeft(env, cap, w0, values).roles
      && w.kv == RunLeft(env, cap, w0, values).kv
      && (forall p :: p in cap.planes ==> SameFile(w0, w, p))
      && (forall n :: n in w0.secrets ==>
            (n in w.secrets <==> !Superseded(env, cap, w0, rows, n)) && (n in w.secrets ==> w.secrets[n] == w0.secrets[n]))
      && (forall n :: n in w.secrets && n !in w0.secrets ==>
            w0.minted <= n < w.minted && n !in w.told && cap.rname in w.roles && w.secrets[n] == Secret(cap.rname, env.secretText(n)))
      && (FreshTexts(env, cap, w0) && cap.rname in w.roles ==>
            forall n :: w0.minted <= n < w.minted && n !in w.told ==> n in w.secrets)
  {
    RolledBackIs(env, cap, w0, values);
    AbortedCompensable(env, cap, values, w0);
    var r := Prefix(env, cap, values, w0, |Plan(cap)|);
    UnwindDischarges(env, cap, w0, r.w, r.undo, r.rows, RunLeft(env, cap, w0, values));
    UnwindOrder(env, cap, r.w, r.undo);
    forall n | n in w0.secrets
      ensures Superseded(env, cap, w0, Apply(env, cap, w0, values).1, n) <==> Superseded(env, cap, w0, r.rows, n)
    {
      UndoneRows(env, cap, w0, r.rows, Unwind(env, cap, r.w, r.undo).1, n);
    }
  }

  /** Such a run was aborted, and its rows are those of the plan and of an unwinding in which nothing failed. */
  lemma RolledBackIs(env: Env, cap: Cap, w0: World, values: Values)
    requires RolledBackRun(env, cap, w0, values)
    ensures var r := Prefix(env, cap, values, w0, |Plan(cap)|);
      var (w, undone) := Unwind(env, cap, r.w, r.undo);
      && r.aborted && Apply(env, cap, w0, values) == (w, r.rows + undone)
      && forall row :: row in undone ==> !row.RollbackFailed?
  {
    var rows := Apply(env, cap, w0, values).1;
    var a :| Did(a, Failed) in rows;
    var n := |Plan(cap)|;
    assert Plan(cap)[..n] == Plan(cap);
    var r := Prefix(env, cap, values, w0, n);
    if Did(a, Failed) in r.rows {
      FailedAborts(env, cap, values, w0, n, a);
    }
    var undone := Unwind(env, cap, r.w, r.undo).1;
    assert forall row :: row in undone ==> row in rows;
  }

  lemma {:induction false} UndoneRows(env: Env, cap: Cap, w0: World, rows: seq<Row>, undone: seq<Row>, n: nat)
    requires n in w0.secrets && forall i :: 0 <= i < |undone| ==> !undone[i].Did?
    ensures Superseded(env, cap, w0, rows + undone, n) <==> Superseded(env, cap, w0, rows, n)
    decreases |undone|
  {
    if undone == [] {
      assert rows + undone == rows;
    } else {
      var k := |undone| - 1;
      UndoneRows(env, cap, w0, rows, undone[..k], n);
      SameRows(env, cap, w0, rows + undone[..k], undone[k], n);
      assert rows + undone == rows + undone[..k] + [undone[k]];
    }
  }

  // ---------------------------------------------------------------- definite runs, and dead planes

  /** Every probe tells presence from absence, and a call that raises has no effect. */
  ghost predicate Definite(env: Env) {
    env.policySight != Blind && env.roleSight != Blind && forall n :: !env.took(n)
  }

  /**
   With definite probes and an accessor for each minted SecretID, a failed run
   leaves the sets of policies and roles, the plane files and the KV paths as
   they were, and no SecretID of its own.
   */
  lemma DefiniteRunRestores(env: Env, cap: Cap, w0: World, values: Values)
    requires WellFormed(w0) && PathsApart(cap.planes) && RolledBackRun(env, cap, w0, values) && Definite(env)
    requires var w := Apply(env, cap, w0, values).0; forall n :: w0.minted <= n < w.minted ==> n in w.told
    ensures var w := Apply(env, cap, w0, values).0;
      && w.policies.Keys == w0.policies.Keys && w.roles.Keys == w0.roles.Keys && w.kv == w0.kv
      && (forall p :: p in cap.planes ==> SameFile(w0, w, p))
      && (forall n :: n in w.secrets ==> n in w0.secrets)
  {
    FailedRunRestores(env, cap, w0, values);
    DefiniteLeft(env, cap, w0, values);
  }

  lemma DefiniteLeft(env: Env, cap: Cap, w0: World, values: Values)
    requires Definite(env)
    ensures var left := RunLeft(env, cap, w0, values);
      left.policies.Keys == w0.policies.Keys && left.roles.Keys == w0.roles.Keys && left.kv == w0.kv
  {
    DefiniteVault(env, cap, w0);
    PrefixKv(env, cap, values, w0, |cap.planes| + 2);
  }

  lemma DefiniteVault(env: Env, cap: Cap, w0: World)
    requires Definite(env)
    ensures var left := VaultLeft(env, cap, w0);
      left.policies.Keys == w0.policies.Keys && left.roles.Keys == w0.roles.Keys && left.kv == w0.kv
  {
    PolicyPolicies(env, cap, w0);
    DefiniteRoles(env, cap, ApplyPolicy(env, cap, w0).0);
  }

  lemma DefiniteRoles(env: Env, cap: Cap, w: World)
    requires Definite(env)
    ensures RolesLeft(env, cap, w).Keys == w.roles.Keys
  {
  }

  /** The plane file names a SecretID that Vault still honours for this role. */
  ghost predicate NamesLive(env: Env, cap: Cap, w: World, p: string) {
    StaleSecret(env, w, p) != "" && exists n :: n in w.secrets && w.secrets[n] == Secret(cap.rname, StaleSecret(env, w, p))
  }

  /**
   A plane whose file was put back names a live SecretID exactly if it did before
   and no plane replaced by the run held the same one with its revocation taking
   effect.
   */
  lemma RestoredPlaneLives(env: Env, cap: Cap, w0: World, values: Values, p: string)
    requires WellFormed(w0) && PathsApart(cap.planes) && RolledBackRun(env, cap, w0, values)
    requires FreshTexts(env, cap, w0) && p in cap.planes
    ensures var (w, rows) := Apply(env, cap, w0, values);
      NamesLive(env, cap, w, p) <==>
      NamesLive(env, cap, w0, p) &&
      !(env.staleReadable && exists q :: q in cap.planes && Replaces(env, w0, rows, q, StaleSecret(env, w0, p)))
  {
    FailedRunRestores(env, cap, w0, values);
    var (w, rows) := Apply(env, cap, w0, values);
    var text := StaleSecret(env, w0, p);
    SameStale(env, w0, w, p);
    if NamesLive(env, cap, w, p) {
      var n :| n in w.secrets && w.secrets[n] == Secret(cap.rname, text);
      assert n in w0.secrets;
    }
    if NamesLive(env, cap, w0, p) && !(env.staleReadable && exists q :: q in cap.planes && Replaces(env, w0, rows, q, text)) {
      var n :| n in w0.secrets && w0.secrets[n] == Secret(cap.rname, text);
      assert !Superseded(env, cap, w0, rows, n);
    }
  }

  // ---------------------------------------------------------------- the value

  lemma RoleKv(env: Env, cap: Cap, w: World)
    ensures ApplyRole(env, cap, w).0.kv == w.kv
  {
  }

  lemma StepKv(env: Env, cap: Cap, values: Option<map<string, string>>, r: Run, a: Action)
    ensures a != WriteKv ==> Step(env, cap, values, r, a).w.kv == r.w.kv
  {
    if !r.aborted {
      match a
      case CreatePolicy => PolicyOnly(env, cap, r.w);
      case CreateRole => RoleKv(env, cap, r.w);
      case WritePlane(path) => PlaneOutcome(env, cap, r.w, r.roleId, path);
      case WriteKv =>
    }
  }

  lemma {:induction false} PrefixKv(env: Env, cap: Cap, values: Option<map<string, string>>, w: World, k: nat)
    requires k <= |cap.planes| + 2
    ensures Prefix(env, cap, values, w, k).w.kv == w.kv
  {
    assert Plan(cap)[..0] == [];
    if k > 0 {
      PrefixKv(env, cap, values, w, k - 1);
      PrefixNext(env, cap, values, w, k - 1);
      PlanShape(cap, k - 1);
      StepKv(env, cap, values, Prefix(env, cap, values, w, k - 1), Plan(cap)[k - 1]);
    }
  }

  lemma UndoKv(env: Env, cap: Cap, w: World, u: Undo)
    ensures UndoOne(env, cap, w, u).kv == w.kv
  {
  }

  lemma {:induction false} UnwindKv(env: Env, cap: Cap, w: World, undo: seq<Undo>)
    ensures Unwind(env, cap, w, undo).0.kv == w.kv
    decreases |undo|
  {
    if undo != [] {
      var n := |undo| - 1;
      UndoKv(env, cap, w, undo[n]);
      UnwindKv(env, cap, UndoOne(env, cap, w, undo[n]), undo[..n]);
    }
  }

  /**
   Whatever can or cannot be read, and whatever fails: a path that holds a value
   keeps it, and the only path ever written is the declared one, with exactly
   the values supplied.
   */
  lemma NeverOverwrites(env: Env, cap: Cap, w: World, values: Option<map<string, string>>)
    ensures var w' := Apply(env, cap, w, values).0;
      w'.kv == w.kv || (cap.kvPath !in w.kv && values.Some? && w'.kv == w.kv[cap.kvPath := values.value])
  {
    var n := |cap.planes| + 2;
    PlanShape(cap, n);
    assert Plan(cap)[..n + 1] == Plan(cap);
    PrefixKv(env, cap, values, w, n);
    PrefixNext(env, cap, values, w, n);
    var r := Prefix(env, cap, values, w, n + 1);
    UnwindKv(env, cap, r.w, r.undo);
  }
}
