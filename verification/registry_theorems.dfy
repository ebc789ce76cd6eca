/** What the registry's operations guarantee, stated without their bodies. */
module RegistryTheorems {
  import opened Base
  import opened RegistrySpec

  // ---------------------------------------------------------------- lookups

  lemma FindAt(live: seq<Entry>, i: int)
    requires Unique(live) && 0 <= i < |live|
    ensures Find(live, live[i].info.id) == Some(live[i])
  {
    assert Has(live, live[i].info.id);
  }

  lemma {:induction false} DropFind(live: seq<Entry>, id: string, q: string)
    requires Unique(live)
    ensures Unique(Drop(live, id))
    ensures Find(Drop(live, id), q) == if q == id then None else Find(live, q)
    ensures forall e :: e in Drop(live, id) ==> e in live
  {
    if live == [] {
    } else if live[0].info.id == id {
    } else {
      DropFind(live[1..], id, q);
      var rest := Drop(live[1..], id);
      assert Drop(live, id)[1..] == rest;
      forall j | 0 <= j < |rest| ensures rest[j].info.id != live[0].info.id {
        assert rest[j] in live[1..];
      }
    }
  }

  lemma {:induction false} MapFind(live: seq<Entry>, to: seq<Entry>, q: string)
    requires |to| == |live| && forall i :: 0 <= i < |live| ==> to[i].info == live[i].info
    requires Unique(live)
    ensures Unique(to)
    ensures Has(to, q) <==> Has(live, q)
    ensures forall i :: 0 <= i < |live| && live[i].info.id == q ==> Find(live, q) == Some(live[i]) && Find(to, q) == Some(to[i])
  {
    if Has(live, q) {
      var i :| 0 <= i < |live| && live[i].info.id == q;
      assert to[i].info.id == q;
    }
    if Has(to, q) {
      var i :| 0 <= i < |to| && to[i].info.id == q;
      assert live[i].info.id == q;
    }
    forall i | 0 <= i < |live| && live[i].info.id == q
      ensures Find(live, q) == Some(live[i]) && Find(to, q) == Some(to[i])
    {
      FindAt(live, i);
      FindAt(to, i);
    }
  }

  lemma MarkFind(live: seq<Entry>, id: string, q: string)
    requires Unique(live)
    ensures Unique(Mark(live, id))
    ensures var e := Find(live, q);
            Find(Mark(live, id), q) == if q == id && e.Some? then Some(e.value.(pending := true)) else e
  {
    MapFind(live, Mark(live, id), q);
    if Has(live, q) {
      var i :| 0 <= i < |live| && live[i].info.id == q;
      FindAt(live, i);
    }
  }

  lemma ClearFind(live: seq<Entry>, ids: seq<string>, q: string)
    requires Unique(live)
    ensures Unique(Clear(live, ids))
    ensures var e := Find(live, q);
            Find(Clear(live, ids), q) == if q in ids && e.Some? then Some(e.value.(value := None)) else e
  {
    MapFind(live, Clear(live, ids), q);
    if Has(live, q) {
      var i :| 0 <= i < |live| && live[i].info.id == q;
      FindAt(live, i);
    }
  }

  lemma {:induction false} PutFind(live: seq<Entry>, e: Entry, q: string)
    requires Unique(live)
    ensures Unique(Put(live, e))
    ensures Find(Put(live, e), q) == if q == e.info.id then Some(e) else Find(live, q)
    ensures forall x :: x in Put(live, e) ==> x == e || x in live
  {
    if live == [] {
    } else if live[0].info.id == e.info.id {
      assert Put(live, e)[1..] == live[1..];
    } else {
      PutFind(live[1..], e, q);
      var rest := Put(live[1..], e);
      assert Put(live, e)[1..] == rest;
      forall j | 0 <= j < |rest| ensures rest[j].info.id != live[0].info.id {
        assert rest[j] == e || rest[j] in live[1..];
      }
    }
  }

  ghost predicate Distinct(ts: seq<Info>) {
    forall i, j :: 0 <= i < j < |ts| ==> ts[i].id != ts[j].id
  }

  lemma FindIn(live: seq<Entry>, e: Entry)
    requires Unique(live) && e in live
    ensures Find(live, e.info.id) == Some(e)
  {
    var i :| 0 <= i < |live| && live[i] == e;
    FindAt(live, i);
  }

  /** The targets are the live checkouts among the ids, each once. */
  lemma {:induction false} TargetsAre(live: seq<Entry>, ids: seq<string>)
    requires forall i, j :: 0 <= i < j < |ids| ==> ids[i] != ids[j]
    ensures Distinct(Targets(live, ids))
    ensures forall t :: t in Targets(live, ids) <==> t.id in ids && Find(live, t.id).Some? && Find(live, t.id).value.info == t
  {
    if ids != [] {
      TargetsAre(live, ids[1..]);
      assert forall s :: s in ids <==> s == ids[0] || s in ids[1..];
      var rest := Targets(live, ids[1..]);
      forall j | 0 <= j < |rest| ensures rest[j].id != ids[0] {
        assert rest[j] in rest;
      }
    }
  }

  // ---------------------------------------------------------------- revoke

  /** An issuer call made after the first `from` calls, for checkout `id`, with this outcome. */
  ghost predicate Called(log: seq<Attempt>, from: nat, id: string, ok: bool) {
    exists k :: from <= k < |log| && log[k].id == id && log[k].ok == ok
  }

  lemma {:induction false} LogGrows(env: Env, r: Reg, ts: seq<Info>, reason: string)
    ensures var r' := RevokeEach(env, r, ts, reason).0;
      r.attempts <= r'.attempts && r'.file == r.file && r'.writes == r.writes
    decreases |ts|
  {
    if ts != [] {
      LogGrows(env, RevokeOne(env, r, ts[0], reason).0, ts[1..], reason);
    }
  }

  /** Every call in the log of a run is for one of the targets, with that target's handle. */
  lemma {:induction false} CallIsFor(env: Env, r: Reg, ts: seq<Info>, reason: string, k: nat) returns (i: nat)
    requires |r.attempts| <= k < |RevokeEach(env, r, ts, reason).0.attempts|
    ensures i < |ts| && ts[i].issuerKind in env.kinds
    ensures RevokeEach(env, r, ts, reason).0.attempts[k] == Attempt(ts[i].id, ts[i].issuerKind, ts[i].handle, env.revokes(k))
    decreases |ts|
  {
    var r1 := RevokeOne(env, r, ts[0], reason).0;
    LogGrows(env, r1, ts[1..], reason);
    if k < |r1.attempts| {
      i := 0;
    } else {
      var j := CallIsFor(env, r1, ts[1..], reason, k);
      i := j + 1;
    }
  }

  /** One target's outcome: reported done, confirmed in the log, and its fate in memory. */
  lemma {:induction false} TargetFate(env: Env, r: Reg, ts: seq<Info>, reason: string, i: nat)
    requires Unique(r.live) && Distinct(ts) && i < |ts|
    ensures var (r', done) := RevokeEach(env, r, ts, reason);
      var id := ts[i].id;
      var before := Find(r.live, id);
      && (id in done <==> Called(r'.attempts, |r.attempts|, id, true))
      && (ts[i].issuerKind in env.kinds && id !in done ==> Called(r'.attempts, |r.attempts|, id, false))
      && Find(r'.live, id) == (if id in done || before.None? then None else Some(before.value.(pending := true)))
    decreases |ts|
  {
    var (r1, ok) := RevokeOne(env, r, ts[0], reason);
    var (r', done') := RevokeEach(env, r1, ts[1..], reason);
    var id := ts[i].id;
    LogGrows(env, r1, ts[1..], reason);
    OneFate(env, r, ts[0], reason, id);
    if i == 0 {
      OtherFate(env, r1, ts[1..], reason, id);
      if ts[0].issuerKind in env.kinds {
        assert r'.attempts[|r.attempts|] == r1.attempts[|r.attempts|];
      }
    } else {
      TargetFate(env, r1, ts[1..], reason, i - 1);
      assert id != ts[0].id;
    }
  }

  /** A checkout that is not a target is untouched, and no issuer is asked about it. */
  lemma {:induction false} OtherFate(env: Env, r: Reg, ts: seq<Info>, reason: string, q: string)
    requires Unique(r.live) && forall t :: t in ts ==> t.id != q
    ensures var (r', done) := RevokeEach(env, r, ts, reason);
      && Unique(r'.live)
      && q !in done && Find(r'.live, q) == Find(r.live, q)
      && forall k :: |r.attempts| <= k < |r'.attempts| ==> r'.attempts[k].id != q
    decreases |ts|
  {
    if ts != [] {
      OneFate(env, r, ts[0], reason, q);
      OtherFate(env, RevokeOne(env, r, ts[0], reason).0, ts[1..], reason, q);
      LogGrows(env, RevokeOne(env, r, ts[0], reason).0, ts[1..], reason);
      assert ts[0] in ts;
    }
  }

  lemma {:induction false} StaysUnique(env: Env, r: Reg, ts: seq<Info>, reason: string)
    requires Unique(r.live)
    ensures Unique(RevokeEach(env, r, ts, reason).0.live)
    decreases |ts|
  {
    if ts != [] {
      OneFate(env, r, ts[0], reason, "");
      StaysUnique(env, RevokeOne(env, r, ts[0], reason).0, ts[1..], reason);
    }
  }

  lemma OneFate(env: Env, r: Reg, info: Info, reason: string, q: string)
    requires Unique(r.live)
    ensures var (r', ok) := RevokeOne(env, r, info, reason);
      && Unique(r'.live)
      && Find(r'.live, q) ==
           (if q != info.id then Find(r.live, q)
            else if ok || Find(r.live, q).None? then None
            else Some(Find(r.live, q).value.(pending := true)))
  {
    DropFind(r.live, info.id, q);
    MarkFind(r.live, info.id, q);
  }

  lemma NamedTargets(live: seq<Entry>, ids: seq<string>)
    requires Unique(live)
    ensures var ts := Targets(live, Dedup(ids));
      && Distinct(ts)
      && (forall t :: t in ts <==> t.id in ids && Find(live, t.id).Some? && Find(live, t.id).value.info == t)
      && (ts == [] <==> forall q :: q in ids ==> Find(live, q).None?)
  {
    var ts := Targets(live, Dedup(ids));
    TargetsAre(live, Dedup(ids));
    if ts != [] {
      assert ts[0] in ts;
    }
    if q :| q in ids && Find(live, q).Some? {
      assert Find(live, q).value.info in ts;
    }
  }

  /**
   The fate of one checkout under a revocation. A checkout that is not named is
   untouched. A named one is gone exactly when its issuer confirmed; otherwise
   it stays, without its value and marked for a retry. If an issuer of its kind
   exists, that issuer was asked about it, and the operation reports exactly the
   ids that are gone.
   */
  lemma RevokeFate(env: Env, r: Reg, ids: seq<string>, reason: string, q: string)
    requires Unique(r.live)
    ensures var (r', out) := Revoke(env, r, ids, reason);
      var before, after, confirmed := Find(r.live, q), Find(r'.live, q), Called(r'.attempts, |r.attempts|, q, true);
      && Unique(r'.live)
      && after == (if q !in ids || before.None? then before
                   else if confirmed then None
                   else Some(Entry(before.value.info, true, None)))
      && (q in ids && before.Some? && before.value.info.issuerKind in env.kinds ==>
            confirmed || Called(r'.attempts, |r.attempts|, q, false))
      && (out.Ok? ==> (q in out.value <==> q in ids && before.Some? && confirmed))
  {
    var ts := Targets(r.live, Dedup(ids));
    NamedTargets(r.live, ids);
    ClearFind(r.live, ids, q);
    var cleared := r.(live := Clear(r.live, ids));
    StaysUnique(env, cleared, ts, reason);
    if q in ids && Find(r.live, q).Some? {
      assert Find(r.live, q).value.info in ts;
      var i :| 0 <= i < |ts| && ts[i] == Find(r.live, q).value.info;
      TargetFate(env, cleared, ts, reason, i);
    } else {
      OtherFate(env, cleared, ts, reason, q);
    }
  }

  /** No issuer is asked twice about one checkout, and each is asked with that checkout's own handle. */
  lemma RevokeLog(env: Env, r: Reg, ids: seq<string>, reason: string, k: nat)
    requires Unique(r.live)
    ensures var log := Revoke(env, r, ids, reason).0.attempts;
      && r.attempts <= log
      && (|r.attempts| <= k < |log| ==>
            var e := Find(r.live, log[k].id);
            && log[k].id in ids && e.Some?
            && log[k].handle == e.value.info.handle && log[k].kind == e.value.info.issuerKind
            && log[k].ok == env.revokes(k)
            && forall l :: |r.attempts| <= l < |log| && l != k ==> log[l].id != log[k].id)
  {
    var ts := Targets(r.live, Dedup(ids));
    NamedTargets(r.live, ids);
    var cleared := r.(live := Clear(r.live, ids));
    LogGrows(env, cleared, ts, reason);
    var log := RevokeEach(env, cleared, ts, reason).0.attempts;
    if |r.attempts| <= k < |log| {
      var i := CallIsFor(env, cleared, ts, reason, k);
      assert ts[i] in ts;
      forall l | |r.attempts| <= l < |log| && l != k ensures log[l].id != log[k].id {
        AskedOnce(env, cleared, ts, reason, k, l);
      }
    }
  }

  lemma {:induction false} AskedOnce(env: Env, r: Reg, ts: seq<Info>, reason: string, k: nat, l: nat)
    requires Distinct(ts)
    requires |r.attempts| <= k < |RevokeEach(env, r, ts, reason).0.attempts|
    requires |r.attempts| <= l < |RevokeEach(env, r, ts, reason).0.attempts| && k != l
    ensures var log := RevokeEach(env, r, ts, reason).0.attempts; log[k].id != log[l].id
    decreases |ts|
  {
    var r1 := RevokeOne(env, r, ts[0], reason).0;
    LogGrows(env, r1, ts[1..], reason);
    if k < |r1.attempts| {
      var i := CallIsFor(env, r1, ts[1..], reason, l);
    } else if l < |r1.attempts| {
      var i := CallIsFor(env, r1, ts[1..], reason, k);
    } else {
      AskedOnce(env, r1, ts[1..], reason, k, l);
    }
  }

  /** The state file after a revocation: rewritten from memory if anything was named, unless the write failed. */
  lemma RevokeFile(env: Env, r: Reg, ids: seq<string>, reason: string)
    requires Unique(r.live)
    ensures var (r', out) := Revoke(env, r, ids, reason);
      && (out.Raised? ==> r'.file == r.file)
      && (out.Ok? ==> (if exists q :: q in ids && Find(r.live, q).Some? then r'.file == Records(r'.live)
                       else r'.file == r.file && r'.live == r.live && out.value == []))
  {
    var ts := Targets(r.live, Dedup(ids));
    NamedTargets(r.live, ids);
    LogGrows(env, r.(live := Clear(r.live, ids)), ts, reason);
    if ts == [] {
      forall i | 0 <= i < |r.live| ensures r.live[i].info.id !in ids {
        FindAt(r.live, i);
      }
      assert Clear(r.live, ids) == r.live;
    }
  }

  /** A checkout has no value exactly when its revocation is pending: kept by every revocation. */
  lemma RevokeSettles(env: Env, r: Reg, ids: seq<string>, reason: string)
    requires Unique(r.live) && Settled(r.live)
    ensures Settled(Revoke(env, r, ids, reason).0.live)
  {
    var r' := Revoke(env, r, ids, reason).0;
    RevokeFate(env, r, ids, reason, "");
    forall i | 0 <= i < |r'.live| ensures r'.live[i].pending <==> r'.live[i].value.None? {
      FindAt(r'.live, i);
      RevokeFate(env, r, ids, reason, r'.live[i].info.id);
    }
  }

  // ---------------------------------------------------------------- reap

  /** The reaper has something to do: expired, anchored to a process that is gone, or waiting for a retry. */
  ghost predicate IsDue(e: Entry, now: real, alive: (int, Option<int>) -> bool) {
    e.info.expiresAt <= now || (e.info.anchorPid.Some? && !alive(e.info.anchorPid.value, e.info.anchorStart)) || e.pending
  }

  /** Nothing more for the reaper to do now: pending, or unexpired with a live or absent anchor. */
  ghost predicate Kept(e: Entry, now: real, alive: (int, Option<int>) -> bool) {
    e.pending || (now < e.info.expiresAt && (e.info.anchorPid.None? || alive(e.info.anchorPid.value, e.info.anchorStart)))
  }

  lemma {:induction false} DueAre(live: seq<Entry>, now: real, alive: (int, Option<int>) -> bool, why: Reason, i: nat)
    requires Unique(live) && i < |live|
    ensures live[i].info.id in Due(live, now, alive, why) <==> ReasonFor(live[i], now, alive) == Some(why)
    ensures forall id :: id in Due(live, now, alive, why) ==> Has(live, id)
  {
    var n := |live| - 1;
    var front := live[..n];
    assert Unique(front) by { assert forall j :: 0 <= j < n ==> front[j] == live[j]; }
    if n > 0 {
      DueAre(front, now, alive, why, if i < n then i else 0);
    }
    forall id | id in Due(live, now, alive, why) ensures Has(live, id) {
      if id in Due(front, now, alive, why) {
        var j :| 0 <= j < n && front[j].info.id == id;
        assert live[j].info.id == id;
      }
    }
  }

  lemma DueInjective(live: seq<Entry>, now: real, alive: (int, Option<int>) -> bool, why: Reason, q: string)
    requires Unique(live)
    ensures q in Due(live, now, alive, why) <==>
            Find(live, q).Some? && ReasonFor(Find(live, q).value, now, alive) == Some(why)
  {
    if i :| 0 <= i < |live| && live[i].info.id == q {
      DueAre(live, now, alive, why, i);
      FindAt(live, i);
    } else if |live| > 0 {
      DueAre(live, now, alive, why, 0);
    }
  }

  /** One reaper group, seen from one checkout. */
  lemma GroupFate(env: Env, r: Reg, ids: seq<string>, reason: string, q: string)
    requires Unique(r.live)
    ensures var (r', out) := ReapGroup(env, r, ids, reason);
      var before, after := Find(r.live, q), Find(r'.live, q);
      && Unique(r'.live) && r.attempts <= r'.attempts
      && (Settled(r.live) ==> Settled(r'.live))
      && (q !in ids ==> after == before && forall k :: |r.attempts| <= k < |r'.attempts| ==> r'.attempts[k].id != q)
      && (q in ids && before.Some? ==>
            && after == (if Called(r'.attempts, |r.attempts|, q, true) then None else Some(Entry(before.value.info, true, None)))
            && (before.value.info.issuerKind in env.kinds && after.Some? ==> Called(r'.attempts, |r.attempts|, q, false))
            && (out.Ok? ==> r'.file == Records(r'.live)))
      && (out.Ok? ==> (q in out.value <==> q in ids && before.Some? && after.None?))
      && (out.Ok? ==> r'.file == Records(r'.live) || (r'.file == r.file && r'.live == r.live))
  {
    if ids != [] {
      RevokeFate(env, r, ids, reason, q);
      RevokeLog(env, r, ids, reason, 0);
      RevokeFile(env, r, ids, reason);
      if Settled(r.live) {
        RevokeSettles(env, r, ids, reason);
      }
      var r' := Revoke(env, r, ids, reason).0;
      forall k | |r.attempts| <= k < |r'.attempts| && q !in ids ensures r'.attempts[k].id != q {
        RevokeLog(env, r, ids, reason, k);
      }
    }
  }

  lemma CalledLater(a: seq<Attempt>, b: seq<Attempt>, from: nat, q: string, ok: bool)
    requires a <= b && from <= |a|
    requires (forall k :: |a| <= k < |b| ==> b[k].id != q) || (forall k :: from <= k < |a| ==> a[k].id != q)
    ensures (forall k :: |a| <= k < |b| ==> b[k].id != q) ==> (Called(b, from, q, ok) <==> Called(a, from, q, ok))
    ensures (forall k :: from <= k < |a| ==> a[k].id != q) ==> (Called(b, from, q, ok) <==> Called(b, |a|, q, ok))
  {
    if Called(a, from, q, ok) {
      var k :| from <= k < |a| && a[k].id == q && a[k].ok == ok;
      assert b[k] == a[k];
    }
  }

  /** If only one of three stages makes calls about `q`, the whole log says what that stage's part says. */
  lemma ThreeStages(l0: seq<Attempt>, l1: seq<Attempt>, l2: seq<Attempt>, l3: seq<Attempt>, q: string, first: bool, second: bool, ok: bool)
    requires l0 <= l1 <= l2 <= l3
    requires !first ==> forall k :: |l0| <= k < |l1| ==> l1[k].id != q
    requires !second ==> forall k :: |l1| <= k < |l2| ==> l2[k].id != q
    requires first || second ==> forall k :: |l2| <= k < |l3| ==> l3[k].id != q
    requires !(first && second)
    ensures Called(l3, |l0|, q, ok) <==>
            (if first then Called(l1, |l0|, q, ok) else if second then Called(l2, |l1|, q, ok) else Called(l3, |l2|, q, ok))
  {
    assert forall k :: 0 <= k < |l1| ==> l2[k] == l1[k];
    CalledLater(l1, l2, |l0|, q, ok);
    CalledLater(l2, l3, |l0|, q, ok);
  }

  /**
   The fate of one checkout under a completed reap: untouched, and no issuer asked about it, if it was not due;
   if due (expired, orphaned, or pending) it is gone exactly when its issuer
   confirmed, and otherwise kept pending without its value; every due checkout
   with an issuer was asked about; the ids returned are exactly those that went,
   and none of them is left in memory or in the file.
   */
  lemma ReapFate(env: Env, r: Reg, now: real, alive: (int, Option<int>) -> bool, q: string)
    requires Unique(r.live) && Settled(r.live)
    requires Reap(env, r, now, alive).1.Ok?
    ensures var (r', out) := Reap(env, r, now, alive);
      var before, after := Find(r.live, q), Find(r'.live, q);
      var due := before.Some? && IsDue(before.value, now, alive);
      && Unique(r'.live) && Settled(r'.live)
      && (!due ==> after == before && !Called(r'.attempts, |r.attempts|, q, true) && !Called(r'.attempts, |r.attempts|, q, false))
      && (due ==> after == (if Called(r'.attempts, |r.attempts|, q, true) then None else Some(Entry(before.value.info, true, None))))
      && (due && before.value.info.issuerKind in env.kinds && after.Some? ==> Called(r'.attempts, |r.attempts|, q, false))
      && (q in out.value <==> due && after.None?)
      && (after.Some? ==> Kept(after.value, now, alive))
      && (q in out.value ==> after.None? && r'.file == Records(r'.live))
  {
    var x, s, t := Due(r.live, now, alive, Expired), Due(r.live, now, alive, SessionEnd), Due(r.live, now, alive, Retry);
    DueInjective(r.live, now, alive, Expired, q);
    DueInjective(r.live, now, alive, SessionEnd, q);
    DueInjective(r.live, now, alive, Retry, q);
    var r1 := ReapGroup(env, r, x, "expired").0;
    GroupFate(env, r, x, "expired", q);
    var r2 := ReapGroup(env, r1, s, "session_end").0;
    GroupFate(env, r1, s, "session_end", q);
    var r3 := ReapGroup(env, r2, t, "retry").0;
    GroupFate(env, r2, t, "retry", q);
    ThreeStages(r.attempts, r1.attempts, r2.attempts, r3.attempts, q, q in x, q in s, true);
    ThreeStages(r.attempts, r1.attempts, r2.attempts, r3.attempts, q, q in x, q in s, false);
    if e :| e in r.live && Find(r.live, q) == Some(e) {
      var i :| 0 <= i < |r.live| && r.live[i] == e;
      assert e.pending <==> e.value.None?;
    }
  }

  // ---------------------------------------------------------------- add, recover, counts

  /** Every checkout in memory is in the file, with its handle. */
  ghost predicate Durable(r: Reg) {
    forall q :: Find(r.live, q).Some? ==> Filed(r.file, q, Find(r.live, q).value.info.handle)
  }

  ghost predicate Filed(file: seq<Record>, id: string, handle: Option<string>) {
    exists i :: 0 <= i < |file| && file[i].info.id == id && file[i].info.handle == handle
  }

  lemma RecordsFile(live: seq<Entry>, q: string)
    requires Unique(live)
    ensures Find(live, q).Some? ==> Filed(Records(live), q, Find(live, q).value.info.handle)
    ensures Find(live, q).None? ==> forall h :: !Filed(Records(live), q, h)
  {
    if i :| 0 <= i < |live| && live[i].info.id == q {
      FindAt(live, i);
      assert Records(live)[i].info == live[i].info;
    }
  }

  lemma AddFate(env: Env, r: Reg, e: Entry, q: string)
    requires Unique(r.live)
    ensures var (r', out) := Add(env, r, e);
      && Unique(r'.live)
      && Find(r'.live, q) == (if q == e.info.id && e.value.Some? then Some(e) else Find(r.live, q))
      && (out.Ok? ==> e.value.Some? && r'.file == Records(r'.live))
  {
    PutFind(r.live, e, q);
  }

  /** Once `add` returns, the file lists the new checkout and everything else in memory. */
  lemma AddDurable(env: Env, r: Reg, e: Entry)
    requires Unique(r.live) && Add(env, r, e).1.Ok?
    ensures Durable(Add(env, r, e).0) && Find(Add(env, r, e).0.live, e.info.id) == Some(e)
  {
    var r' := Add(env, r, e).0;
    AddFate(env, r, e, e.info.id);
    forall q ensures Find(r'.live, q).Some? ==> Filed(r'.file, q, Find(r'.live, q).value.info.handle) {
      RecordsFile(r'.live, q);
    }
  }

  lemma AddSettles(env: Env, r: Reg, e: Entry)
    requires Unique(r.live) && Settled(r.live) && !e.pending
    ensures Settled(Add(env, r, e).0.live)
  {
    PutFind(r.live, e, "");
    if e.value.Some? {
      forall x | x in Put(r.live, e) ensures x.pending <==> x.value.None? {
      }
    }
  }

  /** Revocation never loses a handle that is still needed: what stays in memory stays on disk, even if the write fails. */
  lemma RevokeDurable(env: Env, r: Reg, ids: seq<string>, reason: string)
    requires Unique(r.live) && Durable(r)
    ensures Durable(Revoke(env, r, ids, reason).0)
  {
    var (r', out) := Revoke(env, r, ids, reason);
    RevokeFile(env, r, ids, reason);
    forall q | Find(r'.live, q).Some? ensures Filed(r'.file, q, Find(r'.live, q).value.info.handle) {
      RevokeFate(env, r, ids, reason, q);
      RecordsFile(r'.live, q);
    }
  }

  lemma ReapDurable(env: Env, r: Reg, now: real, alive: (int, Option<int>) -> bool)
    requires Unique(r.live) && Durable(r)
    ensures Durable(Reap(env, r, now, alive).0)
  {
    var x, s, t := Due(r.live, now, alive, Expired), Due(r.live, now, alive, SessionEnd), Due(r.live, now, alive, Retry);
    GroupFate(env, r, x, "expired", "");
    RevokeDurable(env, r, x, "expired");
    var r1 := ReapGroup(env, r, x, "expired").0;
    GroupFate(env, r1, s, "session_end", "");
    RevokeDurable(env, r1, s, "session_end");
    var r2 := ReapGroup(env, r1, s, "session_end").0;
    RevokeDurable(env, r2, t, "retry");
  }

  ghost predicate DistinctRecords(file: seq<Record>) {
    forall i, j :: 0 <= i < j < |file| ==> file[i].info.id != file[j].info.id
  }

  ghost function Recovered(rec: Record): Entry {
    FromRecord(rec).(pending := true)
  }

  lemma {:induction false} RestoreUnique(file: seq<Record>)
    ensures Unique(Restore([], file))
  {
    if file != [] {
      var n := |file| - 1;
      RestoreUnique(file[..n]);
      PutFind(Restore([], file[..n]), Recovered(file[n]), "");
    }
  }

  lemma {:induction false} RestoreFind(file: seq<Record>, i: nat)
    requires DistinctRecords(file) && i < |file|
    ensures Find(Restore([], file), file[i].info.id) == Some(Recovered(file[i]))
    decreases |file|
  {
    var n := |file| - 1;
    var front := file[..n];
    RestoreUnique(front);
    PutFind(Restore([], front), Recovered(file[n]), file[i].info.id);
    if i < n {
      assert forall k :: 0 <= k < n ==> front[k] == file[k];
      RestoreFind(front, i);
    }
  }

  /**
   A new process retries everything the file lists: each recorded checkout's issuer is asked with the recorded handle; the checkout
   then is gone if that succeeded, and otherwise waits, without value or anchor.
   */
  lemma RecoverFate(env: Env, r: Reg, i: nat)
    requires r.live == [] && DistinctRecords(r.file) && i < |r.file|
    ensures var (r', out) := Recover(env, r);
      var rec := r.file[i];
      var id := rec.info.id;
      var confirmed := Called(r'.attempts, |r.attempts|, id, true);
      && Find(r'.live, id) == (if confirmed then None else Some(Recovered(rec)))
      && (rec.info.issuerKind in env.kinds ==> confirmed || Called(r'.attempts, |r.attempts|, id, false))
      && (forall k :: |r.attempts| <= k < |r'.attempts| && r'.attempts[k].id == id ==> r'.attempts[k].handle == rec.info.handle)
      && (out.Ok? ==> (id in out.value <==> confirmed))
  {
    var ids := RecordIds(r.file);
    var start := r.(live := Restore([], r.file));
    var id := r.file[i].info.id;
    assert ids[i] == id;
    RestoreUnique(r.file);
    RestoreFind(r.file, i);
    RevokeFate(env, start, ids, "recovered", id);
    var r' := Recover(env, r).0;
    forall k | |r.attempts| <= k < |r'.attempts| && r'.attempts[k].id == id ensures r'.attempts[k].handle == r.file[i].info.handle {
      RevokeLog(env, start, ids, "recovered", k);
    }
  }

  /** A shared checkout is the earliest registered one that qualifies; none is shared only if none qualifies. */
  lemma {:induction false} ReuseIsFirst(live: seq<Entry>, c: string, s: string, h: string, now: real, minRemaining: real)
    ensures var found := FindReusable(live, c, s, h, now, minRemaining);
      match found
      case Some(e) => exists i :: 0 <= i < |live| && live[i] == e && Reusable(e, c, s, h, now, minRemaining)
                       && forall j :: 0 <= j < i ==> !Reusable(live[j], c, s, h, now, minRemaining)
      case None => forall j :: 0 <= j < |live| ==> !Reusable(live[j], c, s, h, now, minRemaining)
  {
    if live != [] && !Reusable(live[0], c, s, h, now, minRemaining) {
      var rest := live[1..];
      ReuseIsFirst(rest, c, s, h, now, minRemaining);
      assert forall j :: 0 < j < |live| ==> live[j] == rest[j - 1];
      match FindReusable(rest, c, s, h, now, minRemaining)
      case Some(e) =>
        var i :| 0 <= i < |rest| && rest[i] == e && Reusable(e, c, s, h, now, minRemaining)
                 && forall j :: 0 <= j < i ==> !Reusable(rest[j], c, s, h, now, minRemaining);
        assert live[i + 1] == e;
      case None =>
    }
  }
}
