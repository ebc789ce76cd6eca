/**
 Which SecretIDs a run of onboarding takes away, read off the environment and the
 world before it: no report of the run's own is looked at.
 */
module OnboardReplaced {
  import opened Base
  import opened OnboardSpec
  import opened OnboardRollback
  import A = OnboardAgreement
  import P = PlaneEnv

  // ---------------------------------------------------------------- how far a run gets, and what it drops

  /** Changing calls made, SecretIDs minted, and the texts whose SecretIDs were revoked. */
  datatype Cursor = Cursor(calls: nat, minted: nat, dropped: set<string>)

  /** The number of the call that writes the role. */
  function RoleCall(env: Env, cap: Cap, w0: World): nat {
    w0.calls + if PolicyMatches(env, cap, w0) then 0 else 1
  }

  function RoleIdOf(env: Env, cap: Cap, w0: World): string {
    if cap.rname in w0.roles then w0.roles[cap.rname].roleId else env.newRoleId(RoleCall(env, cap, w0))
  }

  /** The run gets past the policy and the role. */
  function Begun(env: Env, cap: Cap, w0: World): Option<Cursor> {
    var k := RoleCall(env, cap, w0);
    if !PolicyMatches(env, cap, w0) && !env.ok(w0.calls) then None
    else if !RoleMatches(env, cap, w0) && !env.ok(k) then None
    else if !env.roleIdReadable || RoleIdOf(env, cap, w0) == "" then None
    else Some(Cursor(if RoleMatches(env, cap, w0) then k else k + 1, w0.minted, {}))
  }

  /** Vault still knows a SecretID of this text and role, and can be asked about it. */
  ghost predicate Known(env: Env, cap: Cap, w0: World, c: Cursor, text: string) {
    text != "" && env.staleReadable && text !in c.dropped && exists n :: n in w0.secrets && w0.secrets[n] == Secret(cap.rname, text)
  }

  /** Minting and writing succeed from here. */
  predicate Installs(env: Env, c: Cursor) {
    env.ok(c.calls) && env.tellsSecret(c.minted) && env.secretText(c.minted) != "" && env.ok(c.calls + 1)
  }

  /** Where provisioning a plane that does not match leads. */
  ghost function PastProvision(env: Env, cap: Cap, w0: World, c: Cursor, path: string): Option<Cursor> {
    if !Installs(env, c) then None
    else
      var stale := StaleSecret(env, w0, path);
      var known := Known(env, cap, w0, c, stale);
      Some(Cursor(c.calls + (if known then 3 else 2), c.minted + 1,
                  if known && env.staleDrops(path) then c.dropped + {stale} else c.dropped))
  }

  ghost function PastPlane(env: Env, cap: Cap, w0: World, c: Cursor, path: string): Option<Cursor> {
    if ReadPlane(env, w0, path).Unreadable? then None
    else if PlaneMatches(env, cap, w0, RoleIdOf(env, cap, w0), path) then Some(c)
    else PastProvision(env, cap, w0, c, path)
  }

  /** Where the run stands before plane `j`, if it gets there. */
  ghost function Reaches(env: Env, cap: Cap, w0: World, j: nat): Option<Cursor>
    requires j <= |cap.planes|
  {
    if j == 0 then Begun(env, cap, w0)
    else match Reaches(env, cap, w0, j - 1)
      case None => None
      case Some(c) => PastPlane(env, cap, w0, c, cap.planes[j - 1])
  }

  /** The texts dropped by the planes before `j`, as far as the run gets. */
  ghost function Dropped(env: Env, cap: Cap, w0: World, j: nat): set<string>
    requires j <= |cap.planes|
  {
    match Reaches(env, cap, w0, j)
    case Some(c) => c.dropped
    case None => if j == 0 then {} else Dropped(env, cap, w0, j - 1)
  }

  // ---------------------------------------------------------------- the run follows it

  /** A SecretID from before is there unless its text was dropped; every other one is the run's own. */
  ghost predicate Left(env: Env, cap: Cap, w0: World, w: World, dropped: set<string>) {
    && w0.minted <= w.minted && (forall n :: n in w.secrets ==> n < w.minted)
    && (forall n :: n in w0.secrets ==>
          (n in w.secrets <==> !(w0.secrets[n].role == cap.rname && w0.secrets[n].text in dropped)) &&
          (n in w.secrets ==> w.secrets[n] == w0.secrets[n]))
    && (forall n :: n in w.secrets && n !in w0.secrets ==> w0.minted <= n && w.secrets[n] == Secret(cap.rname, env.secretText(n)))
  }

  ghost predicate Stands(env: Env, cap: Cap, w0: World, r: Run, c: Cursor, j: nat)
    requires j <= |cap.planes|
  {
    && r.roleId == Some(RoleIdOf(env, cap, w0)) && r.w.calls == c.calls && r.w.minted == c.minted
    && forall i :: j <= i < |cap.planes| ==> SameFile(w0, r.w, cap.planes[i])
  }

  ghost predicate Follows(env: Env, cap: Cap, w0: World, r: Run, j: nat)
    requires j <= |cap.planes|
  {
    && Left(env, cap, w0, r.w, Dropped(env, cap, w0, j))
    && match Reaches(env, cap, w0, j) case None => r.aborted case Some(c) => !r.aborted && Stands(env, cap, w0, r, c, j)
  }

  lemma PolicyCalls(env: Env, cap: Cap, w0: World)
    ensures var (w, s, u) := ApplyPolicy(env, cap, w0);
      && w.calls == RoleCall(env, cap, w0) && (s == Failed <==> !PolicyMatches(env, cap, w0) && !env.ok(w0.calls))
      && w.roles == w0.roles && w.secrets == w0.secrets && w.files == w0.files && w.minted == w0.minted
  {
  }

  lemma RoleCalls(env: Env, cap: Cap, w0: World, w: World)
    requires w.roles == w0.roles && w.calls == RoleCall(env, cap, w0)
    ensures RoleMatches(env, cap, w) <==> RoleMatches(env, cap, w0)
    ensures var (w', s, id, u) := ApplyRole(env, cap, w);
      && w'.secrets == w.secrets && w'.files == w.files && w'.minted == w.minted
      && (s == Failed <==> (!RoleMatches(env, cap, w0) && !env.ok(w.calls)) || !env.roleIdReadable || RoleIdOf(env, cap, w0) == "")
      && (s != Failed ==> id == Some(RoleIdOf(env, cap, w0)) && w'.calls == w.calls + if RoleMatches(env, cap, w0) then 0 else 1)
  {
    assert SeenRole(env, cap, w) == SeenRole(env, cap, w0);
    if !RoleMatches(env, cap, w) { WrittenRoleCalls(env, cap, w0, w); }
  }

  lemma WrittenRoleCalls(env: Env, cap: Cap, w0: World, w: World)
    requires w.roles == w0.roles && w.calls == RoleCall(env, cap, w0)
    ensures var (w', s, id, u) := CreateOrUpdateRole(env, cap, w);
      && w'.secrets == w.secrets && w'.files == w.files && w'.minted == w.minted && w'.calls == w.calls + 1
      && (s == Failed <==> !env.ok(w.calls) || !env.roleIdReadable || RoleIdOf(env, cap, w0) == "")
      && (s != Failed ==> id == Some(RoleIdOf(env, cap, w0)))
  {
  }

  lemma BegunFollows(env: Env, cap: Cap, values: Values, w0: World)
    requires WellFormed(w0)
    ensures Follows(env, cap, w0, Prefix(env, cap, values, w0, 2), 0)
  {
    assert Plan(cap)[..0] == [];
    PrefixNext(env, cap, values, w0, 0);
    PrefixNext(env, cap, values, w0, 1);
    PlanShape(cap, 0);
    PlanShape(cap, 1);
    TwoSteps(env, cap, values, w0);
  }

  lemma TwoSteps(env: Env, cap: Cap, values: Values, w0: World)
    requires WellFormed(w0)
    ensures Follows(env, cap, w0, Step(env, cap, values, Step(env, cap, values, Run(w0, [], None, [], false), CreatePolicy), CreateRole), 0)
  {
    PolicyCalls(env, cap, w0);
    RoleCalls(env, cap, w0, ApplyPolicy(env, cap, w0).0);
  }

  // ---------------------------------------------------------------- a plane step

  /** What provisioning a plane does to the counters, and to the SecretIDs but for the stale one. */
  lemma ProvisionCounts(env: Env, cap: Cap, w: World, id: string, path: string, stale: string, c: Cursor)
    requires w.calls == c.calls && w.minted == c.minted
    ensures var (w', s, u) := Provision(env, cap, w, id, path, stale);
      && (s == Failed <==> !Installs(env, c)) && w.minted <= w'.minted
      && (if Installs(env, c) then
            w' == RevokeStale(env, cap, Installed(env, cap, w, id, path), path, stale)
          else w'.secrets == w.secrets ||
               (w'.secrets == w.secrets[w.minted := Secret(cap.rname, env.secretText(w.minted))] && w'.minted == w.minted + 1))
  {
  }

  /** The world with the SecretID minted and the file written. */
  function Installed(env: Env, cap: Cap, w: World, id: string, path: string): World {
    WriteFile(Mint(env, cap, w), path, P.PlaneText(cap.addr, id, env.secretText(w.minted)))
  }

  lemma MintedLeft(env: Env, cap: Cap, w0: World, w: World, w': World, dropped: set<string>)
    requires WellFormed(w0) && Left(env, cap, w0, w, dropped) && w.minted <= w'.minted
    requires w'.secrets == w.secrets ||
             (w'.secrets == w.secrets[w.minted := Secret(cap.rname, env.secretText(w.minted))] && w'.minted == w.minted + 1)
    ensures Left(env, cap, w0, w', dropped)
  {
  }

  /** The lookup of a stale text finds something exactly when the text is still known. */
  lemma FoundIff(env: Env, cap: Cap, w0: World, w: World, c: Cursor, path: string, j: nat)
    requires WellFormed(w0) && FreshTexts(env, cap, w0) && j < |cap.planes| && path == cap.planes[j]
    requires Left(env, cap, w0, w, c.dropped)
    ensures var stale := StaleSecret(env, w0, path);
      stale != "" && env.staleReadable ==> (Found(cap, w, stale) != {} <==> Known(env, cap, w0, c, stale))
  {
    var stale := StaleSecret(env, w0, path);
    if stale != "" {
      if n :| n in Found(cap, w, stale) {
        assert n in w0.secrets;
      }
      if n :| n in w0.secrets && w0.secrets[n] == Secret(cap.rname, stale) && stale !in c.dropped {
        assert n in Found(cap, w, stale);
      }
    }
  }

  lemma DroppedLeft(env: Env, cap: Cap, w0: World, w: World, c: Cursor, path: string, j: nat)
    requires WellFormed(w0) && FreshTexts(env, cap, w0) && j < |cap.planes| && path == cap.planes[j]
    requires Left(env, cap, w0, w, c.dropped)
    ensures var stale := StaleSecret(env, w0, path);
      var known := Known(env, cap, w0, c, stale);
      var w' := RevokeStale(env, cap, w, path, stale);
      && w'.calls == w.calls + (if known then 1 else 0)
      && Left(env, cap, w0, w', if known && env.staleDrops(path) then c.dropped + {stale} else c.dropped)
  {
    var stale := StaleSecret(env, w0, path);
    FoundIff(env, cap, w0, w, c, path, j);
    StaleOnlyDrops(env, cap, w, path, stale);
    var w' := RevokeStale(env, cap, w, path, stale);
    forall n | n in w.secrets && n !in w0.secrets ensures stale != "" ==> w.secrets[n] != Secret(cap.rname, stale) {
      assert w.secrets[n] == Secret(cap.rname, env.secretText(n));
    }
  }

  ghost predicate At(env: Env, cap: Cap, w0: World, w: World, c: Cursor) {
    Left(env, cap, w0, w, c.dropped) && w.calls == c.calls && w.minted == c.minted
  }

  lemma ProvisionLeft(env: Env, cap: Cap, w0: World, w: World, c: Cursor, id: string, j: nat)
    requires WellFormed(w0) && FreshTexts(env, cap, w0) && j < |cap.planes| && At(env, cap, w0, w, c)
    ensures var (w', s, u) := Provision(env, cap, w, id, cap.planes[j], StaleSecret(env, w0, cap.planes[j]));
      match PastProvision(env, cap, w0, c, cap.planes[j])
      case None => s == Failed && Left(env, cap, w0, w', c.dropped)
      case Some(c') => s != Failed && At(env, cap, w0, w', c')
  {
    var path := cap.planes[j];
    var stale := StaleSecret(env, w0, path);
    ProvisionCounts(env, cap, w, id, path, stale, c);
    if Installs(env, c) {
      var w1 := Installed(env, cap, w, id, path);
      InstalledIs(env, cap, w, id, path);
      MintedLeft(env, cap, w0, w, w1, c.dropped);
      DroppedLeft(env, cap, w0, w1, c, path, j);
      StaleOnlyDrops(env, cap, w1, path, stale);
    } else {
      MintedLeft(env, cap, w0, w, Provision(env, cap, w, id, path, stale).0, c.dropped);
    }
  }

  lemma InstalledIs(env: Env, cap: Cap, w: World, id: string, path: string)
    ensures var w1 := Installed(env, cap, w, id, path);
      && w1.calls == w.calls + 2 && w1.minted == w.minted + 1
      && w1.secrets == w.secrets[w.minted := Secret(cap.rname, env.secretText(w.minted))]
  {
  }

  /** A plane step leaves the SecretIDs and counters where the cursor says. */
  lemma PlaneLeft(env: Env, cap: Cap, w0: World, w: World, c: Cursor, j: nat)
    requires WellFormed(w0) && FreshTexts(env, cap, w0) && j < |cap.planes|
    requires At(env, cap, w0, w, c) && SameFile(w0, w, cap.planes[j])
    ensures var (w', s, u) := ApplyPlane(env, cap, w, Some(RoleIdOf(env, cap, w0)), cap.planes[j]);
      match PastPlane(env, cap, w0, c, cap.planes[j])
      case None => s == Failed && Left(env, cap, w0, w', c.dropped)
      case Some(c') => s != Failed && At(env, cap, w0, w', c')
  {
    var path, id := cap.planes[j], RoleIdOf(env, cap, w0);
    A.SameMatches(env, cap, w0, w, id, path);
    SameStale(env, w0, w, path);
    assert ReadPlane(env, w, path) == ReadPlane(env, w0, path);
    ProvisionLeft(env, cap, w0, w, c, id, j);
  }

  lemma PlaneFollows(env: Env, cap: Cap, values: Values, w0: World, r: Run, j: nat)
    requires WellFormed(w0) && FreshTexts(env, cap, w0) && PathsApart(cap.planes) && j < |cap.planes| && Follows(env, cap, w0, r, j)
    ensures Follows(env, cap, w0, Step(env, cap, values, r, WritePlane(cap.planes[j])), j + 1)
  {
    var path := cap.planes[j];
    if Reaches(env, cap, w0, j).Some? {
      var c := Reaches(env, cap, w0, j).value;
      assert SameFile(w0, r.w, path);
      PlaneLeft(env, cap, w0, r.w, c, j);
      OtherFiles(env, cap, w0, r.w, r.roleId, j);
    }
  }

  lemma OtherFiles(env: Env, cap: Cap, w0: World, w: World, roleId: Option<string>, j: nat)
    requires PathsApart(cap.planes) && j < |cap.planes|
    requires forall i :: j <= i < |cap.planes| ==> SameFile(w0, w, cap.planes[i])
    ensures var w' := ApplyPlane(env, cap, w, roleId, cap.planes[j]).0;
      forall i :: j + 1 <= i < |cap.planes| ==> SameFile(w0, w', cap.planes[i])
  {
    var path := cap.planes[j];
    PlaneOutcome(env, cap, w, roleId, path);
    var w' := ApplyPlane(env, cap, w, roleId, path).0;
    forall i | j + 1 <= i < |cap.planes| ensures SameFile(w0, w', cap.planes[i]) {
      assert cap.planes[i] != path && cap.planes[i] != Bak(path);
      assert SameFile(w0, w, cap.planes[i]);
    }
  }

  /** The plane steps from `j` on. */
  ghost function Planes(env: Env, cap: Cap, values: Values, r: Run, j: nat): Run
    requires j <= |cap.planes|
    decreases |cap.planes| - j
  {
    if j == |cap.planes| then r else Planes(env, cap, values, Step(env, cap, values, r, WritePlane(cap.planes[j])), j + 1)
  }

  lemma {:induction false} PlanesFollow(env: Env, cap: Cap, values: Values, w0: World, r: Run, j: nat)
    requires WellFormed(w0) && FreshTexts(env, cap, w0) && PathsApart(cap.planes) && j <= |cap.planes| && Follows(env, cap, w0, r, j)
    ensures Follows(env, cap, w0, Planes(env, cap, values, r, j), |cap.planes|)
    decreases |cap.planes| - j
  {
    if j < |cap.planes| {
      PlaneFollows(env, cap, values, w0, r, j);
      PlanesFollow(env, cap, values, w0, Step(env, cap, values, r, WritePlane(cap.planes[j])), j + 1);
    }
  }

  lemma PrefixBy(env: Env, cap: Cap, values: Values, w0: World, k: nat, a: Action)
    requires k < |Plan(cap)| && Plan(cap)[k] == a
    ensures Prefix(env, cap, values, w0, k + 1) == Step(env, cap, values, Prefix(env, cap, values, w0, k), a)
  {
    PrefixNext(env, cap, values, w0, k);
  }

  lemma PlanesNext(env: Env, cap: Cap, values: Values, r: Run, r': Run, j: nat)
    requires j < |cap.planes| && r' == Step(env, cap, values, r, WritePlane(cap.planes[j]))
    ensures Planes(env, cap, values, r, j) == Planes(env, cap, values, r', j + 1)
  {
  }

  lemma PlanesAgain(env: Env, cap: Cap, values: Values, w0: World, j: nat)
    requires j < |cap.planes|
    ensures Planes(env, cap, values, Prefix(env, cap, values, w0, j + 2), j) == Planes(env, cap, values, Prefix(env, cap, values, w0, j + 3), j + 1)
  {
    PlanShape(cap, j + 2);
    PrefixBy(env, cap, values, w0, j + 2, WritePlane(cap.planes[j]));
    PlanesNext(env, cap, values, Prefix(env, cap, values, w0, j + 2), Prefix(env, cap, values, w0, j + 3), j);
  }

  lemma {:induction false} PlanesAre(env: Env, cap: Cap, values: Values, w0: World, end: Run, j: nat)
    requires j <= |cap.planes| && end == Planes(env, cap, values, Prefix(env, cap, values, w0, 2), 0)
    ensures end == Planes(env, cap, values, Prefix(env, cap, values, w0, j + 2), j)
  {
    if j > 0 {
      PlanesAre(env, cap, values, w0, end, j - 1);
      PlanesAgain(env, cap, values, w0, j - 1);
    }
  }

  lemma FollowsOn(env: Env, cap: Cap, values: Values, w0: World, r: Run, r1: Run)
    requires WellFormed(w0) && FreshTexts(env, cap, w0) && PathsApart(cap.planes) && Follows(env, cap, w0, r, 0)
    requires Planes(env, cap, values, r, 0) == Planes(env, cap, values, r1, |cap.planes|)
    ensures Follows(env, cap, w0, r1, |cap.planes|)
  {
    PlanesFollow(env, cap, values, w0, r, 0);
  }

  /** Before the value is written, the run is where the environment says. */
  lemma RunFollows(env: Env, cap: Cap, values: Values, w0: World)
    requires WellFormed(w0) && FreshTexts(env, cap, w0) && PathsApart(cap.planes)
    ensures Follows(env, cap, w0, Prefix(env, cap, values, w0, |cap.planes| + 2), |cap.planes|)
  {
    BegunFollows(env, cap, values, w0);
    var start := Prefix(env, cap, values, w0, 2);
    PlanesAre(env, cap, values, w0, Planes(env, cap, values, start, 0), |cap.planes|);
    FollowsOn(env, cap, values, w0, start, Prefix(env, cap, values, w0, |cap.planes| + 2));
  }

  // ---------------------------------------------------------------- what survives

  /** Everything the run drops, in this environment and from this world. */
  ghost function AllDropped(env: Env, cap: Cap, w0: World): set<string> {
    Dropped(env, cap, w0, |cap.planes|)
  }

  /**
   A failed onboarding that was rolled back in full, told from the environment
   alone: a SecretID from before is gone exactly if it is this role's and its text
   is among those that the calls of the run get as far as dropping.
   */
  lemma SurvivesIff(env: Env, cap: Cap, w0: World, values: Values, n: nat)
    requires WellFormed(w0) && FreshTexts(env, cap, w0) && PathsApart(cap.planes) && RolledBackRun(env, cap, w0, values)
    requires n in w0.secrets
    ensures n in Apply(env, cap, w0, values).0.secrets <==>
            !(w0.secrets[n].role == cap.rname && w0.secrets[n].text in AllDropped(env, cap, w0))
  {
    FailedRunRestores(env, cap, w0, values);
    var k := |cap.planes| + 2;
    var r := Prefix(env, cap, values, w0, k);
    RunFollows(env, cap, values, w0);
    PrefixGood(env, cap, values, w0, k);
    ValueRow(env, cap, w0, values, n);
  }

  /** Neither the last step nor the unwinding changes which planes count as replaced. */
  lemma ValueRow(env: Env, cap: Cap, w0: World, values: Values, n: nat)
    requires n in w0.secrets
    ensures Superseded(env, cap, w0, Apply(env, cap, w0, values).1, n) <==>
            Superseded(env, cap, w0, Prefix(env, cap, values, w0, |cap.planes| + 2).rows, n)
  {
    var k := |cap.planes| + 2;
    PlanShape(cap, k);
    PrefixNext(env, cap, values, w0, k);
    assert Plan(cap)[..k + 1] == Plan(cap);
    var r, r' := Prefix(env, cap, values, w0, k), Prefix(env, cap, values, w0, k + 1);
    var row := r'.rows[|r.rows|];
    assert r'.rows == r.rows + [row];
    SameRows(env, cap, w0, r.rows, row, n);
    if r'.aborted {
      UnwindOrder(env, cap, r'.w, r'.undo);
      UndoneRows(env, cap, w0, r'.rows, Unwind(env, cap, r'.w, r'.undo).1, n);
    }
  }

  /** And a plane that was put back names a live SecretID exactly if it did before, and its text is not among them. */
  lemma PlaneSurvivesIff(env: Env, cap: Cap, w0: World, values: Values, p: string)
    requires WellFormed(w0) && FreshTexts(env, cap, w0) && PathsApart(cap.planes) && RolledBackRun(env, cap, w0, values)
    requires p in cap.planes
    ensures NamesLive(env, cap, Apply(env, cap, w0, values).0, p) <==>
            NamesLive(env, cap, w0, p) && StaleSecret(env, w0, p) !in AllDropped(env, cap, w0)
  {
    FailedRunRestores(env, cap, w0, values);
    var w, text := Apply(env, cap, w0, values).0, StaleSecret(env, w0, p);
    SameStale(env, w0, w, p);
    if NamesLive(env, cap, w, p) {
      var n :| n in w.secrets && w.secrets[n] == Secret(cap.rname, text);
      assert n in w0.secrets;
      SurvivesIff(env, cap, w0, values, n);
    }
    if NamesLive(env, cap, w0, p) && text !in AllDropped(env, cap, w0) {
      var n :| n in w0.secrets && w0.secrets[n] == Secret(cap.rname, text);
      SurvivesIff(env, cap, w0, values, n);
    }
  }
}
