/**
 Declared onboarding: the applier with its compensating undo stack, and the
 read-only drift check. `World` is what onboarding can change: Vault's policies,
 AppRoles, SecretIDs and KV paths, and the plane files. `Env` answers for
 everything outside: how much of Vault can be read, whether the n-th changing
 call returns, and if it raises whether it took effect at Vault all the same.
 Writing a plane file is one all-or-nothing call.
 */
module OnboardSpec {
  import opened Base
  import P = PlaneEnv

  // ---------------------------------------------------------------- state

  /** A role field as Vault may report it. */
  datatype Raw = Absent | One(s: string) | Many(ss: seq<string>) | Odd

  /** `more` says whether the role's data has further keys. */
  datatype RoleData = RoleData(tokenPolicies: Raw, policies: Raw, config: map<string, int>, more: bool)

  datatype Role = Role(data: RoleData, roleId: string)

  datatype Secret = Secret(role: string, text: string)

  datatype Content = Text(text: string) | NotUtf8

  datatype File = File(content: Content, private: bool)

  datatype World = World(
    policies: map<string, string>,
    roles: map<string, Role>,
    secrets: map<nat, Secret>,                 // live SecretIDs, by mint number
    kv: map<string, map<string, string>>,      // paths that hold a value
    files: map<string, File>,
    calls: nat,                                // changing calls made so far
    minted: nat,                               // SecretIDs made so far
    told: set<nat>)                            // those whose accessor onboarding was told

  /** What a read probe can tell: everything, only presence, or nothing. */
  datatype Sight = Clear | Blurred | Blind

  datatype Env = Env(
    policySight: Sight, roleSight: Sight, roleIdReadable: bool, kvReadable: bool, staleReadable: bool,
    fileReadable: string -> bool,
    ok: nat -> bool,
    took: nat -> bool,                   // a call to Vault that raises has its effect nevertheless
    staleDrops: string -> bool,          // revoking the SecretID that the file at this path held takes effect
    secretText: nat -> string, tellsSecret: nat -> bool, tellsAccessor: nat -> bool,
    newRoleId: nat -> string)

  datatype Cap = Cap(pname: string, rname: string, hcl: string, planes: seq<string>, kvPath: string, addr: string)

  datatype Action = CreatePolicy | CreateRole | WritePlane(path: string) | WriteKv

  datatype Status = Applied | Converged | Skipped | Failed | Aborted

  datatype Undo =
    | DeletePolicy
    | DeleteRole
    | DestroySecret(n: nat)
    | RestorePlane(path: string, backup: Option<string>)

  datatype Row = Did(action: Action, status: Status) | RolledBack(undo: Undo) | RollbackFailed(undo: Undo)

  /** The applier's local variables. */
  datatype Run = Run(w: World, undo: seq<Undo>, roleId: Option<string>, rows: seq<Row>, aborted: bool)

  function Plan(cap: Cap): (plan: seq<Action>) {
    [CreatePolicy, CreateRole] + seq(|cap.planes|, i requires 0 <= i < |cap.planes| => WritePlane(cap.planes[i])) + [WriteKv]
  }

  // ---------------------------------------------------------------- probes and comparisons

  const ROLE_CONFIG: map<string, int> :=
    map["token_ttl" := 3600, "token_max_ttl" := 14400, "secret_id_ttl" := 0, "secret_id_num_uses" := 0]

  predicate Falsy(r: Raw) {
    r == Absent || r == One("") || r == Many([])
  }

  predicate NoData(d: RoleData) {
    d.tokenPolicies == Absent && d.policies == Absent && d.config == map[] && !d.more
  }

  /** A role whose configuration cannot be read, or holds nothing, counts as not drifted. */
  predicate Drifted(pname: string, data: Option<RoleData>) {
    data.Some? && !NoData(data.value) &&
    var d := data.value;
    var raw := if !Falsy(d.tokenPolicies) then d.tokenPolicies else if !Falsy(d.policies) then d.policies else Many([]);
    || raw == Odd
    || (raw.One? && raw.s != pname)
    || (raw.Many? && raw.ss != [pname])
    || exists k :: k in ROLE_CONFIG && k in d.config && d.config[k] != ROLE_CONFIG[k]
  }

  function Desired(pname: string): RoleData {
    RoleData(Many([pname]), Absent, ROLE_CONFIG, true)
  }

  predicate PolicyMatches(env: Env, cap: Cap, w: World) {
    env.policySight == Clear && cap.pname in w.policies && P.Strip(w.policies[cap.pname]) == P.Strip(cap.hcl)
  }

  function SeenRole(env: Env, cap: Cap, w: World): Option<RoleData> {
    if env.roleSight == Clear && cap.rname in w.roles then Some(w.roles[cap.rname].data) else None
  }

  predicate RoleMatches(env: Env, cap: Cap, w: World) {
    env.roleSight != Blind && cap.rname in w.roles && !Drifted(cap.pname, SeenRole(env, cap, w))
  }

  function ReadRoleId(env: Env, cap: Cap, w: World): Option<string> {
    if env.roleIdReadable && cap.rname in w.roles && w.roles[cap.rname].roleId != ""
    then Some(w.roles[cap.rname].roleId) else None
  }

  datatype PlaneRead = NoFile | Unreadable | Pairs(env: P.Env)

  function ReadPlane(env: Env, w: World, path: string): PlaneRead {
    if path !in w.files then NoFile
    else if !env.fileReadable(path) then Unreadable
    else match w.files[path].content
      case NotUtf8 => Pairs(map[])
      case Text(t) => Pairs(P.Parse(t))
  }

  function Get(e: P.Env, key: string): string {
    if key in e then e[key] else ""
  }

  predicate PlaneMatches(env: Env, cap: Cap, w: World, roleId: string, path: string) {
    var r := ReadPlane(env, w, path);
    && r.Pairs?
    && P.ROLE_ID in r.env && r.env[P.ROLE_ID] == roleId
    && Get(r.env, P.SECRET_ID) != ""
    && P.ADDR in r.env && r.env[P.ADDR] == cap.addr
    && w.files[path].private
  }

  // ---------------------------------------------------------------- steps

  function Call(w: World): World {
    w.(calls := w.calls + 1)
  }

  /** The n-th changing call reached Vault's state, whether or not it returned. */
  predicate Effect(env: Env, n: nat) {
    env.ok(n) || env.took(n)
  }

  function WritePolicy(cap: Cap, w: World): World {
    Call(w).(policies := w.policies[cap.pname := cap.hcl])
  }

  function ApplyPolicy(env: Env, cap: Cap, w: World): (World, Status, seq<Undo>) {
    if PolicyMatches(env, cap, w) then (w, Converged, [])
    else if !env.ok(w.calls) then (if env.took(w.calls) then WritePolicy(cap, w) else Call(w), Failed, [])
    else (WritePolicy(cap, w), Applied,
          if env.policySight != Blind && cap.pname !in w.policies then [DeletePolicy] else [])
  }

  function NewRole(env: Env, cap: Cap, w: World): Role {
    Role(Desired(cap.pname), if cap.rname in w.roles then w.roles[cap.rname].roleId else env.newRoleId(w.calls))
  }

  function WriteRole(env: Env, cap: Cap, w: World): World {
    Call(w).(roles := w.roles[cap.rname := NewRole(env, cap, w)])
  }

  function ApplyRole(env: Env, cap: Cap, w: World): (World, Status, Option<string>, seq<Undo>) {
    if RoleMatches(env, cap, w) then
      var id := ReadRoleId(env, cap, w);
      (w, if id.Some? then Converged else Failed, id, [])
    else CreateOrUpdateRole(env, cap, w)
  }

  function CreateOrUpdateRole(env: Env, cap: Cap, w: World): (World, Status, Option<string>, seq<Undo>) {
    if !env.ok(w.calls) then (if env.took(w.calls) then WriteRole(env, cap, w) else Call(w), Failed, None, [])
    else
      var w1 := WriteRole(env, cap, w);
      var id := ReadRoleId(env, cap, w1);
      (w1, if id.Some? then Applied else Failed, id,
       if env.roleSight != Blind && cap.rname !in w.roles then [DeleteRole] else [])
  }

  function Bak(path: string): string {
    path + ".bak"
  }

  function WriteFile(w: World, path: string, text: string): World {
    var moved := if path in w.files then w.files[Bak(path) := w.files[path]] else w.files;
    Call(w).(files := moved[path := File(Text(text), true)])
  }

  /** Best effort: the SecretID the replaced file held, if Vault still knows it. */
  function RevokeStale(env: Env, cap: Cap, w: World, path: string, stale: string): World {
    if stale == "" || !env.staleReadable || Found(cap, w, stale) == {} then w
    else if !env.staleDrops(path) then Call(w)
    else Call(w).(secrets := w.secrets - Found(cap, w, stale))
  }

  function Found(cap: Cap, w: World, text: string): (ns: set<nat>)
    ensures forall n :: n in ns <==> n in w.secrets && w.secrets[n] == Secret(cap.rname, text)
  {
    set n | n in w.secrets && w.secrets[n] == Secret(cap.rname, text)
  }

  function ApplyPlane(env: Env, cap: Cap, w: World, roleId: Option<string>, path: string): (World, Status, seq<Undo>) {
    if roleId.None? then (w, Failed, [])
    else if ReadPlane(env, w, path).Unreadable? then (w, Failed, [])
    else if PlaneMatches(env, cap, w, roleId.value, path) then (w, Converged, [])
    else Provision(env, cap, w, roleId.value, path, StaleSecret(env, w, path))
  }

  /** Mint a SecretID, write the file that holds it, then drop the one the old file held. */
  function Provision(env: Env, cap: Cap, w: World, roleId: string, path: string, stale: string): (World, Status, seq<Undo>) {
    if !env.ok(w.calls) then (if env.took(w.calls) then MintUntold(env, cap, w) else Call(w), Failed, [])
    else if !env.tellsSecret(w.minted) || env.secretText(w.minted) == "" then (MintUntold(env, cap, w), Failed, [])
    else Install(env, cap, Mint(env, cap, w), w.minted, roleId, path, stale)
  }

  /** Write the file for the SecretID just minted. */
  function Install(env: Env, cap: Cap, w: World, n: nat, roleId: string, path: string, stale: string): (World, Status, seq<Undo>) {
    var minted := if env.tellsAccessor(n) then [DestroySecret(n)] else [];
    if !env.ok(w.calls) then (Call(w), Failed, minted)
    else
      var w1 := WriteFile(w, path, P.PlaneText(cap.addr, roleId, env.secretText(n)));
      (RevokeStale(env, cap, w1, path, stale), Applied, minted + [RestorePlane(path, Backup(w, path))])
  }

  /** A SecretID comes into being, and nobody here can name it. */
  function MintUntold(env: Env, cap: Cap, w: World): World {
    Call(w).(secrets := w.secrets[w.minted := Secret(cap.rname, env.secretText(w.minted))], minted := w.minted + 1)
  }

  function Mint(env: Env, cap: Cap, w: World): World {
    MintUntold(env, cap, w).(told := if env.tellsAccessor(w.minted) then w.told + {w.minted} else w.told)
  }

  function Backup(w: World, path: string): Option<string> {
    if path in w.files then Some(Bak(path)) else None
  }

  function StaleSecret(env: Env, w: World, path: string): string {
    var before := ReadPlane(env, w, path);
    if before.Pairs? then Get(before.env, P.SECRET_ID) else ""
  }

  function ApplyKv(env: Env, cap: Cap, w: World, values: Option<map<string, string>>): (World, Status) {
    if values.None? then (w, Skipped)
    else if env.kvReadable && cap.kvPath in w.kv then (w, Skipped)
    else if !env.ok(w.calls) then
      (if env.took(w.calls) && cap.kvPath !in w.kv then PutValue(cap, w, values.value) else Call(w), Failed)
    else if cap.kvPath in w.kv then (Call(w), Skipped)   // cas=0 rejected
    else (PutValue(cap, w, values.value), Applied)
  }

  function PutValue(cap: Cap, w: World, value: map<string, string>): World {
    Call(w).(kv := w.kv[cap.kvPath := value])
  }

  function Step(env: Env, cap: Cap, values: Option<map<string, string>>, r: Run, a: Action): Run {
    if r.aborted then r.(rows := r.rows + [Did(a, Aborted)])
    else
      match a
      case CreatePolicy =>
        var (w, s, u) := ApplyPolicy(env, cap, r.w);
        r.(w := w, undo := r.undo + u, rows := r.rows + [Did(a, s)], aborted := s == Failed)
      case CreateRole =>
        var (w, s, id, u) := ApplyRole(env, cap, r.w);
        r.(w := w, undo := r.undo + u, roleId := id, rows := r.rows + [Did(a, s)], aborted := s == Failed)
      case WritePlane(path) =>
        var (w, s, u) := ApplyPlane(env, cap, r.w, r.roleId, path);
        r.(w := w, undo := r.undo + u, rows := r.rows + [Did(a, s)], aborted := s == Failed)
      case WriteKv =>
        var (w, s) := ApplyKv(env, cap, r.w, values);
        r.(w := w, rows := r.rows + [Did(a, s)], aborted := s == Failed)
  }

  function Steps(env: Env, cap: Cap, values: Option<map<string, string>>, r: Run, plan: seq<Action>): Run {
    if plan == [] then r
    else Step(env, cap, values, Steps(env, cap, values, r, plan[..|plan| - 1]), plan[|plan| - 1])
  }

  function Compensate(cap: Cap, w: World, u: Undo): World {
    match u
    case DeletePolicy => w.(policies := w.policies - {cap.pname})
    case DeleteRole =>
      w.(roles := w.roles - {cap.rname}, secrets := map n | n in w.secrets && w.secrets[n].role != cap.rname :: w.secrets[n])
    case DestroySecret(n) => w.(secrets := w.secrets - {n})
    case RestorePlane(path, backup) =>
      if backup.Some? && backup.value in w.files && backup.value != path
      then w.(files := (w.files - {backup.value})[path := w.files[backup.value]])
      else w.(files := w.files - {path})
  }

  /** An undo at Vault may take effect although it raises; moving a file back does not. */
  function UndoOne(env: Env, cap: Cap, w: World, u: Undo): World {
    if env.ok(w.calls) || (env.took(w.calls) && !u.RestorePlane?) then Compensate(cap, Call(w), u) else Call(w)
  }

  /** Everything this run made, last first. An undo that raises is reported and left behind. */
  function Unwind(env: Env, cap: Cap, w: World, undo: seq<Undo>): (World, seq<Row>)
    decreases |undo|
  {
    if undo == [] then (w, [])
    else
      var n := |undo| - 1;
      var u := undo[n];
      var done := env.ok(w.calls);
      var (w', rows) := Unwind(env, cap, UndoOne(env, cap, w, u), undo[..n]);
      (w', [if done then RolledBack(u) else RollbackFailed(u)] + rows)
  }

  function Apply(env: Env, cap: Cap, w: World, values: Option<map<string, string>>): (World, seq<Row>) {
    var r := Steps(env, cap, values, Run(w, [], None, [], false), Plan(cap));
    if r.aborted then
      var (w', rows) := Unwind(env, cap, r.w, r.undo);
      (w', r.rows + rows)
    else (r.w, r.rows)
  }

  // ---------------------------------------------------------------- check

  datatype Finding = Fine | Missing | Drift | Unknown

  function CheckPolicy(env: Env, cap: Cap, w: World): Finding {
    if env.policySight == Blind then Unknown
    else if cap.pname !in w.policies then Missing
    else if env.policySight == Blurred then Unknown
    else if P.Strip(w.policies[cap.pname]) != P.Strip(cap.hcl) then Drift
    else Fine
  }

  function CheckRole(env: Env, cap: Cap, w: World): (Finding, Option<string>) {
    if env.roleSight == Blind then (Unknown, None)
    else if cap.rname !in w.roles then (Missing, None)
    else (if Drifted(cap.pname, SeenRole(env, cap, w)) then Drift else Fine, ReadRoleId(env, cap, w))
  }

  function CheckPlane(env: Env, cap: Cap, w: World, roleId: Option<string>, path: string): Finding {
    match ReadPlane(env, w, path)
    case Unreadable => Unknown
    case NoFile => Missing
    case Pairs(e) =>
      if Get(e, P.ROLE_ID) == "" || Get(e, P.SECRET_ID) == "" then Drift
      else if !w.files[path].private then Drift
      else if !(P.ADDR in e && e[P.ADDR] == cap.addr) then Drift
      else if roleId.None? then Unknown
      else if e[P.ROLE_ID] != roleId.value then Drift
      else Fine
  }

  function CheckKv(env: Env, cap: Cap, w: World): Finding {
    if !env.kvReadable then Unknown else if cap.kvPath in w.kv then Fine else Missing
  }

  function CheckAction(env: Env, cap: Cap, w: World, roleId: Option<string>, a: Action): Finding {
    match a
    case CreatePolicy => CheckPolicy(env, cap, w)
    case CreateRole => CheckRole(env, cap, w).0
    case WritePlane(path) => CheckPlane(env, cap, w, roleId, path)
    case WriteKv => CheckKv(env, cap, w)
  }

  /** The role id read at the role row is the one the later plane rows are compared with. */
  function Check(env: Env, cap: Cap, w: World): (findings: seq<Finding>) {
    var plan := Plan(cap);
    seq(|plan|, i requires 0 <= i < |plan| => CheckAction(env, cap, w, CheckRole(env, cap, w).1, plan[i]))
  }

  predicate Clean(findings: seq<Finding>) {
    forall f :: f in findings ==> f == Fine
  }
}
