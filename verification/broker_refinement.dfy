/**
 The sequential registry is one schedule of the concurrent broker: each of its
 operations is a run of the step relation, taken by one thread undisturbed.
 */
module BrokerRefinement {
  import opened Base
  import opened RegistrySpec
  import opened T = RegistryTheorems
  import B = BrokerSteps

  // ---------------------------------------------------------------- the two states

  /** The dict as a map. */
  ghost predicate SameMemory(live: map<string, Entry>, es: seq<Entry>) {
    Unique(es) && forall id :: Find(es, id) == if id in live then Some(live[id]) else None
  }

  ghost predicate SameFile(file: map<string, Record>, rs: seq<Record>) {
    (forall i :: 0 <= i < |rs| ==> rs[i].info.id in file && file[rs[i].info.id] == rs[i]) &&
    (forall id :: id in file ==> exists i :: 0 <= i < |rs| && rs[i].info.id == id) && DistinctRecords(rs)
  }

  ghost predicate Same(s: B.State, r: Reg) {
    s.up && SameMemory(s.live, r.live) && SameFile(s.file, r.file)
  }

  // ---------------------------------------------------------------- one locked section each

  lemma {:induction false} SameTargets(live: map<string, Entry>, es: seq<Entry>, ids: seq<string>)
    requires SameMemory(live, es)
    ensures B.Picked(live, ids) == Targets(es, ids)
  {
    if ids != [] { SameTargets(live, es, ids[1..]); }
  }

  lemma SameForgotten(live: map<string, Entry>, es: seq<Entry>, ids: seq<string>)
    requires SameMemory(live, es)
    ensures SameMemory(B.Forgotten(live, ids), Clear(es, ids))
  {
    ClearFind(es, ids, "");
    var after := B.Forgotten(live, ids);
    forall id ensures Find(Clear(es, ids), id) == if id in after then Some(after[id]) else None {
      ClearFind(es, ids, id);
    }
  }

  lemma SameDropped(live: map<string, Entry>, es: seq<Entry>, gone: string)
    requires SameMemory(live, es)
    ensures SameMemory(live - {gone}, Drop(es, gone))
  {
    DropFind(es, gone, "");
    forall id ensures Find(Drop(es, gone), id) == if id in live - {gone} then Some(live[id]) else None {
      DropFind(es, gone, id);
    }
  }

  lemma SameMarked(live: map<string, Entry>, es: seq<Entry>, failed: string)
    requires SameMemory(live, es)
    ensures SameMemory(if failed in live then live[failed := live[failed].(pending := true)] else live, Mark(es, failed))
  {
    var after := if failed in live then live[failed := live[failed].(pending := true)] else live;
    MarkFind(es, failed, "");
    forall id ensures Find(Mark(es, failed), id) == if id in after then Some(after[id]) else None {
      MarkFind(es, failed, id);
    }
  }

  lemma SamePut(live: map<string, Entry>, es: seq<Entry>, e: Entry)
    requires SameMemory(live, es)
    ensures SameMemory(live[e.info.id := e], Put(es, e))
  {
    PutFind(es, e, "");
    forall id ensures Find(Put(es, e), id) == if id in live[e.info.id := e] then Some(live[e.info.id := e][id]) else None {
      PutFind(es, e, id);
    }
  }

  lemma SameSaved(live: map<string, Entry>, es: seq<Entry>)
    requires SameMemory(live, es)
    ensures SameFile(B.Filed(live), Records(es))
  {
    var rs := Records(es);
    forall i | 0 <= i < |rs| ensures rs[i].info.id in live && RecordOf(live[rs[i].info.id]) == rs[i] {
      FindAt(es, i);
    }
    forall id | id in live ensures exists i :: 0 <= i < |rs| && rs[i].info.id == id {
      var i :| 0 <= i < |es| && es[i].info.id == id;
      assert rs[i].info.id == id;
    }
  }

  // ---------------------------------------------------------------- a revocation

  /** Whether the issuer call for this target succeeds; a missing issuer is a call that fails. */
  ghost function Answered(env: Env, r: Reg, info: Info): bool {
    info.issuerKind in env.kinds && env.revokes(|r.attempts|)
  }

  lemma OneTarget(env: Env, r: Reg, info: Info, reason: string, live: map<string, Entry>)
    requires SameMemory(live, r.live)
    ensures var ok := Answered(env, r, info);
            var after := if ok then live - {info.id}
                         else if info.id in live then live[info.id := live[info.id].(pending := true)] else live;
            var r1 := RevokeOne(env, r, info, reason).0;
            SameMemory(after, r1.live) && r1.file == r.file && r1.writes == r.writes
  {
    SameDropped(live, r.live, info.id);
    SameMarked(live, r.live, info.id);
  }

  lemma TwoSteps(s: B.State, a: B.Step, b: B.Step, rest: seq<B.Step>)
    requires B.Enabled(s, a) && B.Enabled(B.Do(s, a), b) && B.Runs(B.Do(B.Do(s, a), b), rest)
    ensures B.Runs(s, [a, b] + rest)
    ensures B.After(s, [a, b] + rest) == B.After(B.Do(B.Do(s, a), b), rest)
  {
    var all := [a, b] + rest;
    assert all[1..] == [b] + rest;
    assert ([b] + rest)[1..] == rest;
    assert B.Runs(B.Do(s, a), all[1..]);
  }

  /** Ask about each target and settle its answer, in order; then the file is next. */
  lemma {:induction false} EachTarget(env: Env, r: Reg, s: B.State, t: nat, ts: seq<Info>, reason: string) returns (steps: seq<B.Step>)
    requires s.up && B.PhaseOf(s, t) == B.Calling(ts) && ts != [] && SameMemory(s.live, r.live)
    ensures B.Runs(s, steps)
    ensures var s1 := B.After(s, steps);
            var r1 := RevokeEach(env, r, ts, reason).0;
            s1.up && B.PhaseOf(s1, t) == B.Saving && SameMemory(s1.live, r1.live) &&
            s1.file == s.file && r1.file == r.file && r1.writes == r.writes
    decreases |ts|
  {
    var call, settle := B.Call(t, Answered(env, r, ts[0])), B.Settle(t);
    var s1 := B.Do(B.Do(s, call), settle);
    var r1 := RevokeOne(env, r, ts[0], reason).0;
    OneTarget(env, r, ts[0], reason, s.live);
    var rest: seq<B.Step> := [];
    if |ts| > 1 {
      rest := EachTarget(env, r1, s1, t, ts[1..], reason);
    } else {
      assert RevokeEach(env, r1, ts[1..], reason).0 == r1;
    }
    TwoSteps(s, call, settle, rest);
    steps := [call, settle] + rest;
  }

  lemma {:induction false} RunsThen(s: B.State, steps: seq<B.Step>, last: B.Step)
    requires B.Runs(s, steps) && B.Enabled(B.After(s, steps), last)
    ensures B.Runs(s, steps + [last]) && B.After(s, steps + [last]) == B.Do(B.After(s, steps), last)
    decreases |steps|
  {
    var all := steps + [last];
    if steps == [] {
      assert all[1..] == [];
    } else {
      RunsThen(B.Do(s, steps[0]), steps[1..], last);
      assert all[1..] == steps[1..] + [last];
    }
  }

  lemma RunsFirst(s: B.State, first: B.Step, rest: seq<B.Step>)
    requires B.Enabled(s, first) && B.Runs(B.Do(s, first), rest)
    ensures B.Runs(s, [first] + rest) && B.After(s, [first] + rest) == B.After(B.Do(s, first), rest)
  {
    assert ([first] + rest)[1..] == rest;
  }

  /** From the plan to revoke, to the end of the revocation. */
  lemma PlannedRevoke(env: Env, r: Reg, s: B.State, t: nat, ids: seq<string>, reason: string) returns (steps: seq<B.Step>)
    requires Same(s, r) && B.PhaseOf(s, t) == B.Planned(ids)
    ensures B.Runs(s, steps)
    ensures var s1 := B.After(s, steps); B.PhaseOf(s1, t) == B.Idle && Same(s1, Revoke(env, r, ids, reason).0)
  {
    var ts := Targets(r.live, Dedup(ids));
    var cleared := r.(live := Clear(r.live, ids));
    SameTargets(s.live, r.live, Dedup(ids));
    SameForgotten(s.live, r.live, ids);
    var s1 := B.Do(s, B.Begin(t));
    if ts == [] {
      RunsFirst(s, B.Begin(t), []);
      steps := [B.Begin(t)] + [];
    } else {
      var asked := EachTarget(env, cleared, s1, t, ts, reason);
      var s2, r2 := B.After(s1, asked), RevokeEach(env, cleared, ts, reason).0;
      SameSaved(s2.live, r2.live);
      var save := B.Save(t, env.disk(r2.writes));
      RunsThen(s1, asked, save);
      RunsFirst(s, B.Begin(t), asked + [save]);
      steps := [B.Begin(t)] + (asked + [save]);
    }
  }

  /** A revocation by an idle thread is a run of the concurrent broker that ends in the specified state. */
  lemma RevokeIsARun(env: Env, r: Reg, s: B.State, t: nat, ids: seq<string>, reason: string) returns (steps: seq<B.Step>)
    requires Same(s, r) && B.PhaseOf(s, t) == B.Idle
    ensures B.Runs(s, steps)
    ensures var s1 := B.After(s, steps); B.PhaseOf(s1, t) == B.Idle && Same(s1, Revoke(env, r, ids, reason).0)
  {
    var plan := B.Plan(t, ids);
    var rest := PlannedRevoke(env, r, B.Do(s, plan), t, ids, reason);
    RunsFirst(s, plan, rest);
    steps := [plan] + rest;
  }

  lemma {:induction false} RunsBoth(s: B.State, first: seq<B.Step>, second: seq<B.Step>)
    requires B.Runs(s, first) && B.Runs(B.After(s, first), second)
    ensures B.Runs(s, first + second) && B.After(s, first + second) == B.After(B.After(s, first), second)
    decreases |first|
  {
    if first == [] {
      assert [] + second == second;
    } else {
      RunsBoth(B.Do(s, first[0]), first[1..], second);
      RunsFirst(s, first[0], first[1..] + second);
      assert [first[0]] + (first[1..] + second) == first + second;
    }
  }

  lemma GroupIsARun(env: Env, r: Reg, s: B.State, t: nat, ids: seq<string>, reason: string) returns (steps: seq<B.Step>)
    requires Same(s, r) && B.PhaseOf(s, t) == B.Idle
    ensures B.Runs(s, steps)
    ensures var s1 := B.After(s, steps); B.PhaseOf(s1, t) == B.Idle && Same(s1, ReapGroup(env, r, ids, reason).0)
  {
    steps := [];
    if ids != [] { steps := RevokeIsARun(env, r, s, t, ids, reason); }
  }

  /** The reaper's three groups, one after the other, stopping where a write fails. */
  lemma ReapIsARun(env: Env, r: Reg, s: B.State, t: nat, now: real, alive: (int, Option<int>) -> bool) returns (steps: seq<B.Step>)
    requires Same(s, r) && B.PhaseOf(s, t) == B.Idle
    ensures B.Runs(s, steps)
    ensures var s1 := B.After(s, steps); B.PhaseOf(s1, t) == B.Idle && Same(s1, Reap(env, r, now, alive).0)
  {
    var x, e := Due(r.live, now, alive, Expired), Due(r.live, now, alive, SessionEnd);
    var (r1, o1) := ReapGroup(env, r, x, "expired");
    steps := GroupIsARun(env, r, s, t, x, "expired");
    if o1.Ok? {
      var s1 := B.After(s, steps);
      var (r2, o2) := ReapGroup(env, r1, e, "session_end");
      var ended := GroupIsARun(env, r1, s1, t, e, "session_end");
      RunsBoth(s, steps, ended);
      steps := steps + ended;
      if o2.Ok? {
        var s2, due := B.After(s1, ended), Due(r.live, now, alive, Retry);
        var retried := GroupIsARun(env, r2, s2, t, due, "retry");
        RunsBoth(s, steps, retried);
        steps := steps + retried;
      }
    }
  }

  lemma ShutdownIsARun(env: Env, r: Reg, s: B.State, t: nat, reason: string) returns (steps: seq<B.Step>)
    requires Same(s, r) && B.PhaseOf(s, t) == B.Idle
    ensures B.Runs(s, steps)
    ensures var s1 := B.After(s, steps); B.PhaseOf(s1, t) == B.Idle && Same(s1, RevokeAll(env, r, reason).0)
  {
    steps := RevokeIsARun(env, r, s, t, Ids(r.live), reason);
  }

  /** So is an issue followed by `add`. */
  lemma AddIsARun(env: Env, r: Reg, s: B.State, t: nat, e: Entry) returns (steps: seq<B.Step>)
    requires Same(s, r) && B.PhaseOf(s, t) == B.Idle && e.info.id !in s.issued && e.value.Some? && !e.pending
    ensures B.Runs(s, steps)
    ensures var s1 := B.After(s, steps); B.PhaseOf(s1, t) == B.Idle && Same(s1, Add(env, r, e).0)
    ensures Add(env, r, e).1.Ok? ==> e.info.id in B.After(s, steps).added
  {
    var issue, add := B.Issue(t, e.info, e.value.value), B.Add(t, env.disk(r.writes));
    AddEnds(env, r, s, t, e);
    TwoSteps(s, issue, add, []);
    steps := [issue, add] + [];
  }

  lemma AddEnds(env: Env, r: Reg, s: B.State, t: nat, e: Entry)
    requires Same(s, r) && B.PhaseOf(s, t) == B.Idle && e.info.id !in s.issued && e.value.Some? && !e.pending
    ensures var issued := B.Do(s, B.Issue(t, e.info, e.value.value));
            B.Enabled(issued, B.Add(t, env.disk(r.writes))) &&
            var s1 := B.Do(issued, B.Add(t, env.disk(r.writes)));
            B.PhaseOf(s1, t) == B.Idle && Same(s1, Add(env, r, e).0) && (Add(env, r, e).1.Ok? ==> e.info.id in s1.added)
  {
    DoIssue(s, t, e.info, e.value.value);
    var issued := B.Do(s, B.Issue(t, e.info, e.value.value));
    DoAdd(issued, t, e, env.disk(r.writes));
    SameAdded(env, r, issued, B.Do(issued, B.Add(t, env.disk(r.writes))), e);
  }

  lemma DoIssue(s: B.State, t: nat, info: Info, value: Fields)
    requires s.up && B.PhaseOf(s, t) == B.Idle && info.id !in s.issued
    ensures var s1 := B.Do(s, B.Issue(t, info, value));
            s1.up && s1.live == s.live && s1.file == s.file && B.PhaseOf(s1, t) == B.Holding(info, value)
  {
  }

  lemma DoAdd(s: B.State, t: nat, e: Entry, disk: bool)
    requires s.up && e.value.Some? && !e.pending && B.PhaseOf(s, t) == B.Holding(e.info, e.value.value)
    ensures var s1 := B.Do(s, B.Add(t, disk));
            s1.up && B.PhaseOf(s1, t) == B.Idle && s1.live == s.live[e.info.id := e] &&
            s1.file == (if disk then B.Filed(s1.live) else s.file) && (disk ==> e.info.id in s1.added)
  {
  }

  lemma SameAdded(env: Env, r: Reg, s: B.State, s1: B.State, e: Entry)
    requires Same(s, r) && e.value.Some? && s1.up && s1.live == s.live[e.info.id := e]
    requires s1.file == if env.disk(r.writes) then B.Filed(s1.live) else s.file
    ensures Same(s1, Add(env, r, e).0)
  {
    SamePut(s.live, r.live, e);
    SameSaved(s1.live, Put(r.live, e));
  }

  lemma SameRestored(file: map<string, Record>, rs: seq<Record>)
    requires SameFile(file, rs)
    ensures SameMemory(B.Unfiled(file), Restore([], rs))
  {
    RestoreUnique(rs);
    var live, es := B.Unfiled(file), Restore([], rs);
    forall id ensures Find(es, id) == if id in live then Some(live[id]) else None {
      if id in live {
        var i :| 0 <= i < |rs| && rs[i].info.id == id;
        RestoreFind(rs, i);
      } else {
        RestoreNone(rs, id);
      }
    }
  }

  lemma {:induction false} RestoreNone(rs: seq<Record>, id: string)
    requires forall i :: 0 <= i < |rs| ==> rs[i].info.id != id
    ensures Find(Restore([], rs), id) == None
  {
    if rs != [] {
      var n := |rs| - 1;
      RestoreNone(rs[..n], id);
      RestoreUnique(rs[..n]);
      PutFind(Restore([], rs[..n]), FromRecord(rs[n]).(pending := true), id);
    }
  }

  lemma RecordIdsAre(file: map<string, Record>, rs: seq<Record>, id: string)
    requires SameFile(file, rs)
    ensures id in RecordIds(rs) <==> id in file
  {
    if id in file {
      var i :| 0 <= i < |rs| && rs[i].info.id == id;
      assert RecordIds(rs)[i] == id;
    }
  }

  /** And so, after a crash, is a restart with its recovery. */
  lemma RecoverIsARun(env: Env, r: Reg, s: B.State, t: nat) returns (steps: seq<B.Step>)
    requires !s.up && SameFile(s.file, r.file) && r.live == []
    ensures B.Runs(s, steps)
    ensures var s1 := B.After(s, steps); B.PhaseOf(s1, t) == B.Idle && Same(s1, Recover(env, r).0)
  {
    var ids := RecordIds(r.file);
    forall id ensures id in ids <==> id in s.file { RecordIdsAre(s.file, r.file, id); }
    var restart := B.Restart(t, ids);
    SameRestored(s.file, r.file);
    var loaded := r.(live := Restore([], r.file));
    var rest := PlannedRevoke(env, loaded, B.Do(s, restart), t, ids, "recovered");
    RunsFirst(s, restart, rest);
    steps := [restart] + rest;
  }
}
