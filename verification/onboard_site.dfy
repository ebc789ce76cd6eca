/** Onboarding as it runs: steps that change Vault and files in place, and a list of undos. */
module OnboardSite {
  import opened Base
  import opened OnboardSpec
  import P = PlaneEnv

  class Site {
    const env: Env
    const cap: Cap
    var policies: map<string, string>
    var roles: map<string, Role>
    var secrets: map<nat, Secret>
    var kv: map<string, map<string, string>>
    var files: map<string, File>
    var calls: nat
    var minted: nat
    var told: set<nat>

    function View(): World
      reads this
    {
      World(policies, roles, secrets, kv, files, calls, minted, told)
    }

    constructor (env: Env, cap: Cap, w: World)
      ensures View() == w && this.env == env && this.cap == cap
    {
      this.env, this.cap := env, cap;
      policies, roles, secrets, kv, files, calls, minted, told :=
        w.policies, w.roles, w.secrets, w.kv, w.files, w.calls, w.minted, w.told;
    }

    /** One changing call: `ok` is false when it raises, and it may have reached Vault all the same. */
    method TryCall() returns (ok: bool, effect: bool)
      modifies this`calls
      ensures ok == env.ok(old(calls)) && effect == Effect(env, old(calls)) && calls == old(calls) + 1
    {
      ok, effect := env.ok(calls), env.ok(calls) || env.took(calls);
      calls := calls + 1;
    }

    method ApplyPolicy(undo: seq<Undo>) returns (status: Status, undo': seq<Undo>)
      modifies this
      ensures var (w, s, u) := OnboardSpec.ApplyPolicy(env, cap, old(View()));
              View() == w && status == s && undo' == undo + u
    {
      if PolicyMatches(env, cap, View()) {
        return Converged, undo;
      }
      var absent := env.policySight != Blind && cap.pname !in policies;
      var ok, effect := TryCall();
      if effect {
        policies := policies[cap.pname := cap.hcl];
      }
      if !ok {
        return Failed, undo;
      }
      return Applied, if absent then undo + [DeletePolicy] else undo;
    }

    method ApplyRole(undo: seq<Undo>) returns (status: Status, roleId: Option<string>, undo': seq<Undo>)
      modifies this
      ensures var (w, s, id, u) := OnboardSpec.ApplyRole(env, cap, old(View()));
              View() == w && status == s && roleId == id && undo' == undo + u
    {
      if RoleMatches(env, cap, View()) {
        roleId := ReadRoleId(env, cap, View());
        return if roleId.Some? then Converged else Failed, roleId, undo;
      }
      status, roleId, undo' := CreateOrUpdateRole(undo);
    }

    method CreateOrUpdateRole(undo: seq<Undo>) returns (status: Status, roleId: Option<string>, undo': seq<Undo>)
      modifies this
      ensures var (w, s, id, u) := OnboardSpec.CreateOrUpdateRole(env, cap, old(View()));
              View() == w && status == s && roleId == id && undo' == undo + u
    {
      var created := env.roleSight != Blind && cap.rname !in roles;
      var id := if cap.rname in roles then roles[cap.rname].roleId else env.newRoleId(calls);
      var ok, effect := TryCall();
      if effect {
        roles := roles[cap.rname := Role(Desired(cap.pname), id)];
      }
      if !ok {
        return Failed, None, undo;
      }
      roleId := ReadRoleId(env, cap, View());
      return if roleId.Some? then Applied else Failed, roleId, if created then undo + [DeleteRole] else undo;
    }

    method ApplyPlane(roleId: Option<string>, path: string, undo: seq<Undo>) returns (status: Status, undo': seq<Undo>)
      modifies this
      ensures var (w, s, u) := OnboardSpec.ApplyPlane(env, cap, old(View()), roleId, path);
              View() == w && status == s && undo' == undo + u
    {
      undo' := undo;
      if roleId.None? || ReadPlane(env, View(), path).Unreadable? {
        return Failed, undo;
      }
      if PlaneMatches(env, cap, View(), roleId.value, path) {
        return Converged, undo;
      }
      status, undo' := Provision(roleId.value, path, StaleSecret(env, View(), path), undo);
    }

    method Provision(roleId: string, path: string, stale: string, undo: seq<Undo>) returns (status: Status, undo': seq<Undo>)
      modifies this
      ensures var (w, s, u) := OnboardSpec.Provision(env, cap, old(View()), roleId, path, stale);
              View() == w && status == s && undo' == undo + u
    {
      var n := minted;
      var ok := Mint();
      if !ok || !env.tellsSecret(n) || env.secretText(n) == "" {
        return Failed, undo;
      }
      if env.tellsAccessor(n) {
        told := told + {n};
      }
      status, undo' := Install(n, roleId, path, stale, undo);
    }

    method Install(n: nat, roleId: string, path: string, stale: string, undo: seq<Undo>) returns (status: Status, undo': seq<Undo>)
      modifies this
      ensures var (w, s, u) := OnboardSpec.Install(env, cap, old(View()), n, roleId, path, stale);
              View() == w && status == s && undo' == undo + u
    {
      undo' := undo;
      var backup := Backup(View(), path);
      if env.tellsAccessor(n) {
        undo' := undo' + [DestroySecret(n)];
      }
      var ok := WriteFile(path, P.PlaneText(cap.addr, roleId, env.secretText(n)));
      if !ok {
        return Failed, undo';
      }
      undo' := undo' + [RestorePlane(path, backup)];
      RevokeStale(path, stale);
      status := Applied;
    }

    /** A SecretID is made whenever the call reached Vault. */
    method Mint() returns (ok: bool)
      modifies this
      ensures ok == env.ok(old(calls))
      ensures View() == if Effect(env, old(calls)) then MintUntold(env, cap, old(View())) else Call(old(View()))
    {
      var effect;
      ok, effect := TryCall();
      if effect {
        secrets := secrets[minted := Secret(cap.rname, env.secretText(minted))];
        minted := minted + 1;
      }
    }

    /** Moves an existing file to its backup name, then puts the new one in its place, mode 0600. */
    method WriteFile(path: string, text: string) returns (ok: bool)
      modifies this
      ensures ok == env.ok(old(calls))
      ensures View() == if ok then OnboardSpec.WriteFile(old(View()), path, text) else Call(old(View()))
    {
      var effect;
      ok, effect := TryCall();
      if ok {
        if path in files {
          files := files[Bak(path) := files[path]];
        }
        files := files[path := File(Text(text), true)];
      }
    }

    /** Best effort: whether the call returns is not looked at. */
    method RevokeStale(path: string, stale: string)
      modifies this
      ensures View() == OnboardSpec.RevokeStale(env, cap, old(View()), path, stale)
    {
      var found := Found(cap, View(), stale);
      if stale == "" || !env.staleReadable || found == {} {
        return;
      }
      calls := calls + 1;
      if env.staleDrops(path) {
        secrets := secrets - found;
      }
    }

    method ApplyKv(values: Option<map<string, string>>) returns (status: Status)
      modifies this
      ensures var (w, s) := OnboardSpec.ApplyKv(env, cap, old(View()), values); View() == w && status == s
    {
      if values.None? || (env.kvReadable && cap.kvPath in kv) {
        return Skipped;
      }
      var held := cap.kvPath in kv;
      var ok, effect := TryCall();
      if effect && !held {
        kv := kv[cap.kvPath := values.value];
      }
      return if !ok then Failed else if held then Skipped else Applied;
    }

    method Compensate(u: Undo)
      modifies this
      ensures View() == OnboardSpec.Compensate(cap, old(View()), u)
    {
      match u {
        case DeletePolicy => policies := policies - {cap.pname};
        case DeleteRole =>
          roles := roles - {cap.rname};
          secrets := map n | n in secrets && secrets[n].role != cap.rname :: secrets[n];
        case DestroySecret(n) => secrets := secrets - {n};
        case RestorePlane(path, backup) =>
          if backup.Some? && backup.value in files && backup.value != path {
            files := (files - {backup.value})[path := files[backup.value]];
          } else {
            files := files - {path};
          }
      }
    }

    /** An undo that raises is reported, and its object is left behind unless the call reached Vault. */
    method UndoOne(u: Undo) returns (row: Row)
      modifies this
      ensures View() == OnboardSpec.UndoOne(env, cap, old(View()), u)
      ensures row == if env.ok(old(calls)) then RolledBack(u) else RollbackFailed(u)
    {
      var ok, effect := TryCall();
      if ok || (effect && !u.RestorePlane?) {
        Compensate(u);
      }
      row := if ok then RolledBack(u) else RollbackFailed(u);
    }

    method Unwind(undo: seq<Undo>) returns (rows: seq<Row>)
      modifies this
      ensures var (w, rs) := OnboardSpec.Unwind(env, cap, old(View()), undo); View() == w && rows == rs
    {
      rows := [];
      var i := |undo|;
      assert undo[..i] == undo;
      while i > 0
        invariant 0 <= i <= |undo|
        invariant OnboardSpec.Unwind(env, cap, old(View()), undo).0 == OnboardSpec.Unwind(env, cap, View(), undo[..i]).0
        invariant OnboardSpec.Unwind(env, cap, old(View()), undo).1 == rows + OnboardSpec.Unwind(env, cap, View(), undo[..i]).1
      {
        i := i - 1;
        assert undo[..i + 1][..i] == undo[..i];
        var row := UndoOne(undo[i]);
        rows := rows + [row];
      }
    }

    method TakeStep(a: Action, values: Option<map<string, string>>, roleId: Option<string>, undo: seq<Undo>, ghost rows: seq<Row>)
      returns (status: Status, roleId': Option<string>, undo': seq<Undo>)
      modifies this
      ensures Step(env, cap, values, Run(old(View()), undo, roleId, rows, false), a) ==
              Run(View(), undo', roleId', rows + [Did(a, status)], status == Failed)
    {
      roleId', undo' := roleId, undo;
      match a {
        case CreatePolicy => status, undo' := ApplyPolicy(undo);
        case CreateRole => status, roleId', undo' := ApplyRole(undo);
        case WritePlane(path) => status, undo' := ApplyPlane(roleId, path, undo);
        case WriteKv => status := ApplyKv(values);
      }
    }

    /** After a failure the remaining rows are only reported. */
    method TakeOrSkip(a: Action, values: Option<map<string, string>>, roleId: Option<string>, undo: seq<Undo>, rows: seq<Row>,
                      aborted: bool)
      returns (roleId': Option<string>, undo': seq<Undo>, rows': seq<Row>, aborted': bool)
      modifies this
      ensures Step(env, cap, values, Run(old(View()), undo, roleId, rows, aborted), a) == Run(View(), undo', roleId', rows', aborted')
    {
      roleId', undo', aborted' := roleId, undo, aborted;
      if aborted {
        rows' := rows + [Did(a, Aborted)];
      } else {
        var status;
        status, roleId', undo' := TakeStep(a, values, roleId, undo, rows);
        rows', aborted' := rows + [Did(a, status)], status == Failed;
      }
    }

    lemma StepsNext(values: Option<map<string, string>>, start: Run, plan: seq<Action>, i: nat)
      requires i < |plan|
      ensures Steps(env, cap, values, start, plan[..i + 1]) == Step(env, cap, values, Steps(env, cap, values, start, plan[..i]), plan[i])
    {
      assert plan[..i + 1][..i] == plan[..i];
    }

    method TakeSteps(plan: seq<Action>, values: Option<map<string, string>>)
      returns (undo: seq<Undo>, rows: seq<Row>, aborted: bool, ghost roleId: Option<string>)
      modifies this
      ensures Steps(env, cap, values, Run(old(View()), [], None, [], false), plan) == Run(View(), undo, roleId, rows, aborted)
    {
      ghost var start := Run(View(), [], None, [], false);
      rows, undo, aborted := [], [], false;
      var id: Option<string> := None;
      for i := 0 to |plan|
        invariant Steps(env, cap, values, start, plan[..i]) == Run(View(), undo, id, rows, aborted)
      {
        StepsNext(values, start, plan, i);
        id, undo, rows, aborted := TakeOrSkip(plan[i], values, id, undo, rows, aborted);
      }
      assert plan[..|plan|] == plan;
      roleId := id;
    }

    method Apply(values: Option<map<string, string>>) returns (rows: seq<Row>)
      modifies this
      ensures var (w, rs) := OnboardSpec.Apply(env, cap, old(View()), values); View() == w && rows == rs
    {
      var undo, aborted;
      ghost var roleId;
      undo, rows, aborted, roleId := TakeSteps(Plan(cap), values);
      if aborted {
        var rolled := Unwind(undo);
        rows := rows + rolled;
      }
    }

    /** Read-only: one finding a row, the role id read at the role row. */
    method Check() returns (findings: seq<Finding>)
      ensures findings == OnboardSpec.Check(env, cap, View())
    {
      var plan := Plan(cap);
      findings := [];
      var roleId: Option<string> := None;
      var i := 0;
      while i < |plan|
        invariant 0 <= i <= |plan| && |findings| == i
        invariant i >= 2 ==> roleId == CheckRole(env, cap, View()).1
        invariant forall k :: 0 <= k < i ==> findings[k] == CheckAction(env, cap, View(), CheckRole(env, cap, View()).1, plan[k])
      {
        var finding;
        match plan[i] {
          case CreatePolicy => finding := CheckPolicy(env, cap, View());
          case CreateRole =>
            var row := CheckRole(env, cap, View());
            finding, roleId := row.0, row.1;
          case WritePlane(path) => finding := CheckPlane(env, cap, View(), roleId, path);
          case WriteKv => finding := CheckKv(env, cap, View());
        }
        findings := findings + [finding];
        i := i + 1;
      }
    }
  }
}
