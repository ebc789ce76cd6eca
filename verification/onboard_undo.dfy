/** What unwinding a failed onboarding does, undo by undo, whether its calls return or raise. */
module OnboardUndo {
  import opened Base
  import opened OnboardSpec

  /** A map without one key. */
  ghost predicate Without<K(!new), V>(m: map<K, V>, k: K, m': map<K, V>) {
    (forall j :: j in m' <==> j in m && j != k) && forall j :: j in m' ==> m'[j] == m[j]
  }

  /** The file is put back from its backup, if that is there, and else is gone; every other file is as it was. */
  ghost predicate Restored(w: World, path: string, backup: Option<string>, w': World) {
    if backup.Some? && backup.value in w.files && backup.value != path then
      && path in w'.files && w'.files[path] == w.files[backup.value] && backup.value !in w'.files
      && forall p :: p != path && p != backup.value ==> (p in w'.files <==> p in w.files) && (p in w.files ==> w'.files[p] == w.files[p])
    else Without(w.files, path, w'.files)
  }

  /** The undo's effect on what it is about. */
  ghost predicate Undone(cap: Cap, w: World, u: Undo, w': World) {
    match u
    case DeletePolicy => Without(w.policies, cap.pname, w'.policies)
    case DeleteRole =>
      && Without(w.roles, cap.rname, w'.roles)
      && (forall n :: n in w'.secrets <==> n in w.secrets && w.secrets[n].role != cap.rname)
      && (forall n :: n in w'.secrets ==> w'.secrets[n] == w.secrets[n])
    case DestroySecret(n) => Without(w.secrets, n, w'.secrets)
    case RestorePlane(path, backup) => Restored(w, path, backup, w')
  }

  /** What the undo is not about is as it was, but that a call was made. */
  ghost predicate Else(w: World, u: Undo, w': World) {
    && w'.calls == w.calls + 1 && w'.kv == w.kv && w'.minted == w.minted && w'.told == w.told
    && (!u.DeletePolicy? ==> w'.policies == w.policies) && (!u.DeleteRole? ==> w'.roles == w.roles)
    && (!u.DeleteRole? && !u.DestroySecret? ==> w'.secrets == w.secrets) && (!u.RestorePlane? ==> w'.files == w.files)
  }

  /** The undo has its effect if its call returns, or raises but reached Vault; a file that cannot be moved back stays. */
  ghost predicate UndoIs(env: Env, cap: Cap, w: World, u: Undo, w': World) {
    if env.ok(w.calls) || (env.took(w.calls) && !u.RestorePlane?) then Undone(cap, w, u, w') && Else(w, u, w')
    else w' == w.(calls := w.calls + 1)
  }

  lemma UndoDoes(env: Env, cap: Cap, w: World, u: Undo)
    ensures UndoIs(env, cap, w, u, UndoOne(env, cap, w, u))
  {
  }

  /** The worlds an unwinding passes through, from the last undo to the first. */
  ghost predicate Through(env: Env, cap: Cap, ws: seq<World>, undo: seq<Undo>) {
    |ws| == |undo| + 1 &&
    forall i :: 0 <= i < |undo| ==> ws[i].calls == ws[0].calls + i && UndoIs(env, cap, ws[i], undo[|undo| - 1 - i], ws[i + 1])
  }

  /**
   An unwinding makes one undo after the other, the last first, whether or not one
   fails; and reports each as rolled back exactly if its call returned.
   */
  lemma {:induction false} UnwindIs(env: Env, cap: Cap, w: World, undo: seq<Undo>) returns (ws: seq<World>)
    ensures Through(env, cap, ws, undo) && ws[0] == w && ws[|undo|] == Unwind(env, cap, w, undo).0
    ensures var rows := Unwind(env, cap, w, undo).1;
            |rows| == |undo| &&
            forall i :: 0 <= i < |rows| ==>
              rows[i] == if env.ok(w.calls + i) then RolledBack(undo[|undo| - 1 - i]) else RollbackFailed(undo[|undo| - 1 - i])
    decreases |undo|
  {
    ws := [w];
    if undo != [] {
      var n := |undo| - 1;
      var w1 := UndoOne(env, cap, w, undo[n]);
      UndoDoes(env, cap, w, undo[n]);
      var more := UnwindIs(env, cap, w1, undo[..n]);
      ws := [w] + more;
      forall i | 0 <= i < |undo| ensures ws[i].calls == w.calls + i && UndoIs(env, cap, ws[i], undo[n - i], ws[i + 1]) {
        if i > 0 { assert ws[i] == more[i - 1] && ws[i + 1] == more[i] && undo[..n][n - 1 - (i - 1)] == undo[n - i]; }
      }
    }
  }

  /** A run is unwound exactly if a step failed; its rows are those of the plan's actions, and then those of the unwinding. */
  lemma ApplyUnwinds(env: Env, cap: Cap, w: World, values: Option<map<string, string>>)
    ensures var r := Steps(env, cap, values, Run(w, [], None, [], false), Plan(cap));
            var (w', rows) := Apply(env, cap, w, values);
            && Rows(r.rows, Plan(cap), r.aborted)
            && (if r.aborted then Unwind(env, cap, r.w, r.undo) == (w', rows[|r.rows|..]) && rows[..|r.rows|] == r.rows
                else (w', rows) == (r.w, r.rows))
  {
    RowsAre(env, cap, values, Run(w, [], None, [], false), Plan(cap));
  }

  /** A row for each action, and the flag is set exactly if one failed. */
  ghost predicate Rows(rows: seq<Row>, plan: seq<Action>, aborted: bool) {
    && |rows| == |plan| && (forall i :: 0 <= i < |plan| ==> rows[i].Did? && rows[i].action == plan[i])
    && (aborted <==> exists i :: 0 <= i < |plan| && rows[i] == Did(plan[i], Failed))
  }

  lemma RowMore(rows: seq<Row>, plan: seq<Action>, aborted: bool, row: Row, a: Action, aborted1: bool)
    requires Rows(rows, plan, aborted) && row.Did? && row.action == a
    requires if aborted then aborted1 && row == Did(a, Aborted) else aborted1 <==> row == Did(a, Failed)
    ensures Rows(rows + [row], plan + [a], aborted1)
  {
    var rows1, plan1 := rows + [row], plan + [a];
    if aborted {
      var i :| 0 <= i < |plan| && rows[i] == Did(plan[i], Failed);
      assert rows1[i] == Did(plan1[i], Failed);
    }
    if aborted1 && !aborted { assert rows1[|rows|] == Did(plan1[|rows|], Failed); }
    if i :| 0 <= i < |plan1| && rows1[i] == Did(plan1[i], Failed) {
      if i < |plan| { assert rows[i] == Did(plan[i], Failed); }
    }
  }

  lemma RowStep(env: Env, cap: Cap, values: Option<map<string, string>>, before: Run, plan: seq<Action>, a: Action)
    requires Rows(before.rows, plan, before.aborted)
    ensures var after := Step(env, cap, values, before, a); Rows(after.rows, plan + [a], after.aborted)
  {
    OneRow(env, cap, values, before, a);
    var after := Step(env, cap, values, before, a);
    var n := |before.rows|;
    RowMore(before.rows, plan, before.aborted, after.rows[n], a, after.aborted);
    assert after.rows == before.rows + [after.rows[n]];
  }

  lemma {:induction false} RowsAre(env: Env, cap: Cap, values: Option<map<string, string>>, start: Run, plan: seq<Action>)
    requires start.rows == [] && !start.aborted
    ensures var r := Steps(env, cap, values, start, plan); Rows(r.rows, plan, r.aborted)
    decreases |plan|
  {
    if plan != [] {
      var n := |plan| - 1;
      RowsAre(env, cap, values, start, plan[..n]);
      RowStep(env, cap, values, Steps(env, cap, values, start, plan[..n]), plan[..n], plan[n]);
      assert plan == plan[..n] + [plan[n]];
    }
  }

  lemma OneRow(env: Env, cap: Cap, values: Option<map<string, string>>, r: Run, a: Action)
    ensures var r1 := Step(env, cap, values, r, a);
            && |r1.rows| == |r.rows| + 1 && r1.rows[..|r.rows|] == r.rows && r1.rows[|r.rows|].Did? && r1.rows[|r.rows|].action == a
            && (if r.aborted then r1.aborted && r1.rows[|r.rows|] == Did(a, Aborted) && r1.w == r.w
                else (r1.aborted <==> r1.rows[|r.rows|] == Did(a, Failed)))
  {
  }
}
