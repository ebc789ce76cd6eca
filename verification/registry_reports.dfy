/**
 What a revocation or a reap leaves in the dict, in order, and what it reports:
 the order of the issuer calls, and the reason each checkout is logged under.
 */
module RegistryReports {
  import opened Base
  import opened RegistrySpec
  import opened RegistryTheorems

  // ---------------------------------------------------------------- the dict, in order

  /** One pass over the dict: those gone are left out, those named wait without a value, the others are as they were. */
  function Swept(live: seq<Entry>, named: set<string>, gone: set<string>): (r: seq<Entry>) {
    if live == [] then []
    else
      var e, rest := live[0], Swept(live[1..], named, gone);
      if e.info.id in gone then rest else [if e.info.id in named then e.(pending := true) else e] + rest
  }

  lemma {:induction false} SweptNone(live: seq<Entry>)
    ensures Swept(live, {}, {}) == live
  {
    if live != [] { SweptNone(live[1..]); }
  }

  lemma {:induction false} SweptMember(live: seq<Entry>, named: set<string>, gone: set<string>, e: Entry)
    ensures e in Swept(live, named, gone) ==>
              exists x :: x in live && x.info == e.info && x.info.id !in gone && e == if x.info.id in named then x.(pending := true) else x
  {
    if live != [] {
      SweptMember(live[1..], named, gone, e);
      var head := live[0];
      if e in Swept(live, named, gone) && e !in Swept(live[1..], named, gone) {
        assert head in live;
      }
    }
  }

  lemma {:induction false} SweptTwice(live: seq<Entry>, a: set<string>, da: set<string>, b: set<string>, db: set<string>)
    ensures Swept(Swept(live, a, da), b, db) == Swept(live, a + b, da + db)
  {
    if live != [] {
      SweptTwice(live[1..], a, da, b, db);
      var rest := Swept(live[1..], a, da);
      if live[0].info.id !in da {
        assert Swept(live, a, da)[1..] == rest;
      }
    }
  }

  lemma {:induction false} MarkSweeps(live: seq<Entry>, id: string)
    ensures Mark(live, id) == Swept(live, {id}, {})
  {
    if live != [] {
      MarkSweeps(live[1..], id);
      assert Mark(live, id)[1..] == Mark(live[1..], id);
    }
  }

  lemma {:induction false} AbsentSweeps(live: seq<Entry>, id: string)
    requires forall i :: 0 <= i < |live| ==> live[i].info.id != id
    ensures Swept(live, {id}, {id}) == live
  {
    if live != [] { AbsentSweeps(live[1..], id); }
  }

  lemma {:induction false} DropSweeps(live: seq<Entry>, id: string)
    requires Unique(live)
    ensures Drop(live, id) == Swept(live, {id}, {id})
  {
    if live != [] {
      if live[0].info.id == id { AbsentSweeps(live[1..], id); } else { DropSweeps(live[1..], id); }
    }
  }

  function IdsOf(ts: seq<Info>): (ids: set<string>) {
    set t | t in ts :: t.id
  }

  /** The checkouts whose issuers confirmed, between two states of the log. */
  function Confirmed(before: seq<Attempt>, after: seq<Attempt>): (ids: set<string>) {
    set k | |before| <= k < |after| && after[k].ok :: after[k].id
  }

  lemma OneSweeps(env: Env, r: Reg, info: Info, reason: string)
    requires Unique(r.live)
    ensures var (r1, ok) := RevokeOne(env, r, info, reason);
            Unique(r1.live) && r1.live == Swept(r.live, {info.id}, if ok then {info.id} else {})
  {
    OneFate(env, r, info, reason, "");
    MarkSweeps(r.live, info.id);
    DropSweeps(r.live, info.id);
  }

  lemma {:induction false} EachSweeps(env: Env, r: Reg, ts: seq<Info>, reason: string)
    requires Unique(r.live)
    ensures var (r', done) := RevokeEach(env, r, ts, reason); r'.live == Swept(r.live, IdsOf(ts), (set q | q in done))
    decreases |ts|
  {
    if ts == [] {
      SweptNone(r.live);
      var none: seq<string> := [];
      assert IdsOf(ts) == {} && (set q | q in none) == {};
    } else {
      var (r1, ok) := RevokeOne(env, r, ts[0], reason);
      var (r2, done) := RevokeEach(env, r1, ts[1..], reason);
      OneSweeps(env, r, ts[0], reason);
      EachSweeps(env, r1, ts[1..], reason);
      var id := ts[0].id;
      SweptTwice(r.live, {id}, if ok then {id} else {}, IdsOf(ts[1..]), (set q | q in done));
      assert {id} + IdsOf(ts[1..]) == IdsOf(ts);
      var all := if ok then [id] + done else done;
      assert (if ok then {id} else {}) + (set q | q in done) == (set q | q in all);
    }
  }

  lemma {:induction false} ClearedSweeps(live: seq<Entry>, ids: seq<string>, named: set<string>, gone: set<string>)
    requires forall i :: 0 <= i < |live| ==> (live[i].info.id in ids <==> live[i].info.id in named)
    ensures Swept(Clear(live, ids), named, gone) == Forgotten(live, named, gone)
  {
    if live != [] {
      ClearedSweeps(live[1..], ids, named, gone);
      assert Clear(live, ids)[1..] == Clear(live[1..], ids);
    }
  }

  /** The dict after a revocation: those gone are left out, those named keep neither value nor peace, all in the old order. */
  function Forgotten(live: seq<Entry>, named: set<string>, gone: set<string>): (r: seq<Entry>) {
    if live == [] then []
    else
      var e, rest := live[0], Forgotten(live[1..], named, gone);
      if e.info.id in gone then rest else [if e.info.id in named then Entry(e.info, true, None) else e] + rest
  }

  lemma {:induction false} NamedAreNamed(live: seq<Entry>, all: seq<Entry>, ids: seq<string>, gone: set<string>)
    requires Unique(all) && forall e :: e in live ==> e in all
    ensures Forgotten(live, IdsOf(Targets(all, Dedup(ids))), gone) == Forgotten(live, (set q | q in ids), gone)
  {
    if live != [] {
      var e := live[0];
      NamedAreNamed(live[1..], all, ids, gone);
      NamedTargets(all, ids);
      FindIn(all, e);
      assert e.info in Targets(all, Dedup(ids)) <==> e.info.id in ids;
      assert e.info.id in IdsOf(Targets(all, Dedup(ids))) ==> e.info.id in ids;
    }
  }

  /**
   The dict after a revocation, entry by entry and in order: those whose issuer
   confirmed are gone, the other named ones wait without their values, and the
   rest are as they were.
   */
  lemma RevokeSweeps(env: Env, r: Reg, ids: seq<string>, reason: string)
    requires Unique(r.live)
    ensures var r' := Revoke(env, r, ids, reason).0;
            r'.live == Forgotten(r.live, (set q | q in ids), Confirmed(r.attempts, r'.attempts))
  {
    var ts, cleared := Targets(r.live, Dedup(ids)), r.(live := Clear(r.live, ids));
    var (r1, done) := RevokeEach(env, cleared, ts, reason);
    ClearFind(r.live, ids, "");
    NamedTargets(r.live, ids);
    EachSweeps(env, cleared, ts, reason);
    DoneConfirmed(env, cleared, ts, reason);
    forall i | 0 <= i < |r.live| ensures r.live[i].info.id in ids <==> r.live[i].info.id in IdsOf(ts) {
      FindAt(r.live, i);
      assert r.live[i].info.id in ids ==> r.live[i].info in ts;
    }
    ClearedSweeps(r.live, ids, IdsOf(ts), (set q | q in done));
    NamedAreNamed(r.live, r.live, ids, (set q | q in done));
  }

  lemma DoneConfirmed(env: Env, r: Reg, ts: seq<Info>, reason: string)
    requires Unique(r.live) && Distinct(ts)
    ensures var (r', done) := RevokeEach(env, r, ts, reason);
            (set q | q in done) == Confirmed(r.attempts, r'.attempts)
  {
    var (r', done) := RevokeEach(env, r, ts, reason);
    forall q | q in done ensures Called(r'.attempts, |r.attempts|, q, true) {
      DoneAreTargets(env, r, ts, reason, q);
      var i :| 0 <= i < |ts| && ts[i].id == q;
      TargetFate(env, r, ts, reason, i);
    }
    forall k | |r.attempts| <= k < |r'.attempts| && r'.attempts[k].ok ensures r'.attempts[k].id in done {
      var i := CallIsFor(env, r, ts, reason, k);
      TargetFate(env, r, ts, reason, i);
    }
  }

  lemma {:induction false} DoneAreTargets(env: Env, r: Reg, ts: seq<Info>, reason: string, q: string)
    requires q in RevokeEach(env, r, ts, reason).1
    ensures exists i :: 0 <= i < |ts| && ts[i].id == q
    decreases |ts|
  {
    var (r1, ok) := RevokeOne(env, r, ts[0], reason);
    if q != ts[0].id {
      DoneAreTargets(env, r1, ts[1..], reason, q);
      var i :| 0 <= i < |ts[1..]| && ts[1..][i].id == q;
      assert ts[i + 1].id == q;
    }
  }

  // ---------------------------------------------------------------- adding and restoring

  /** A new checkout goes to the end of the dict; one whose id is there already takes its place. */
  lemma {:induction false} PutPlace(live: seq<Entry>, e: Entry)
    ensures !Has(live, e.info.id) ==> Put(live, e) == live + [e]
    ensures forall i :: 0 <= i < |live| && live[i].info.id == e.info.id && Unique(live) ==> Put(live, e) == live[i := e]
  {
    if live != [] {
      PutPlace(live[1..], e);
      assert Has(live[1..], e.info.id) ==> Has(live, e.info.id) by {
        if i :| 0 <= i < |live[1..]| && live[1..][i].info.id == e.info.id { assert live[i + 1].info.id == e.info.id; }
      }
      if live[0].info.id == e.info.id {
        assert live[0].info.id == e.info.id;
      }
      forall i | 0 <= i < |live| && live[i].info.id == e.info.id && Unique(live) ensures Put(live, e) == live[i := e] {
        if i > 0 { assert live[1..][i - 1] == live[i]; assert Unique(live[1..]); }
      }
    }
  }

  /** Recovery loads the records in the file's order, each as pending, without value or anchor. */
  lemma {:induction false} RestoreIs(file: seq<Record>)
    requires DistinctRecords(file)
    ensures |Restore([], file)| == |file|
    ensures forall i :: 0 <= i < |file| ==>
              Restore([], file)[i] == Entry(file[i].info.(anchorPid := None, anchorStart := None), true, None)
  {
    if file != [] {
      var n := |file| - 1;
      var front := file[..n];
      assert DistinctRecords(front) by { assert forall k :: 0 <= k < n ==> front[k] == file[k]; }
      RestoreIs(front);
      var e := FromRecord(file[n]).(pending := true);
      forall i | 0 <= i < n ensures Restore([], front)[i].info.id != e.info.id { assert front[i] == file[i]; }
      PutPlace(Restore([], front), e);
      assert forall k :: 0 <= k < n ==> front[k] == file[k];
    }
  }

  /** What is written lists every checkout in memory, in order, with its mark and without its value. */
  lemma WrittenIs(env: Env, r: Reg)
    ensures var (r', out) := Persist(env, r);
            && r'.live == r.live && r'.writes == r.writes + 1 && (out.Ok? <==> env.disk(r.writes))
            && (out.Raised? ==> r'.file == r.file)
            && (out.Ok? ==> |r'.file| == |r.live| &&
                            forall i :: 0 <= i < |r.live| ==> r'.file[i].info == r.live[i].info && r'.file[i].pending == r.live[i].pending)
  {
  }

  // ---------------------------------------------------------------- the order of the calls

  /** Where an id first stands. */
  function First(ids: seq<string>, q: string): (i: nat)
    ensures i <= |ids| && (i < |ids| ==> ids[i] == q) && (q in ids ==> i < |ids|)
    ensures forall j :: 0 <= j < i ==> ids[j] != q
  {
    if ids == [] || ids[0] == q then 0 else 1 + First(ids[1..], q)
  }

  lemma {:induction false} DedupOrder(ids: seq<string>, i: nat, j: nat)
    requires i < j < |Dedup(ids)|
    ensures First(ids, Dedup(ids)[i]) < First(ids, Dedup(ids)[j])
  {
    var n := |ids| - 1;
    var front := Dedup(ids[..n]);
    assert ids == ids[..n] + [ids[n]];
    if j < |front| {
      DedupOrder(ids[..n], i, j);
      FirstFront(ids, n, front[i]);
      FirstFront(ids, n, front[j]);
    } else {
      FirstFront(ids, n, front[i]);
      assert ids[n] !in ids[..n];
      LastIsFirst(ids, n);
    }
  }

  lemma FirstFront(ids: seq<string>, n: nat, q: string)
    requires n <= |ids| && q in ids[..n]
    ensures First(ids, q) == First(ids[..n], q) < n
  {
    var a, b := First(ids, q), First(ids[..n], q);
    assert ids[b] == q;
    assert !(a < b) && !(b < a);
  }

  lemma LastIsFirst(ids: seq<string>, n: nat)
    requires n < |ids| && ids[n] !in ids[..n]
    ensures First(ids, ids[n]) == n
  {
    var a := First(ids, ids[n]);
    forall j | 0 <= j < n ensures ids[j] != ids[n] { assert ids[..n][j] == ids[j]; }
    assert !(n < a);
  }

  ghost predicate Once(ids: seq<string>) {
    forall a, b :: 0 <= a < b < |ids| ==> ids[a] != ids[b]
  }

  lemma OnceTail(ids: seq<string>)
    requires Once(ids) && ids != []
    ensures Once(ids[1..]) && ids[0] !in ids[1..]
  {
  }

  lemma TargetNamed(live: seq<Entry>, ids: seq<string>, i: nat)
    requires Once(ids) && i < |Targets(live, ids)|
    ensures Targets(live, ids)[i].id in ids
  {
    TargetsAre(live, ids);
    assert Targets(live, ids)[i] in Targets(live, ids);
  }

  lemma FirstAfter(ids: seq<string>, q: string)
    requires ids != [] && ids[0] != q
    ensures First(ids, q) == 1 + First(ids[1..], q)
  {
  }

  /** Where a later target's id stands, counted from the second id on. */
  lemma TargetAfter(live: seq<Entry>, ids: seq<string>, i: nat)
    requires Once(ids) && ids != [] && i < |Targets(live, ids[1..])|
    ensures First(ids, Targets(live, ids[1..])[i].id) == 1 + First(ids[1..], Targets(live, ids[1..])[i].id)
  {
    OnceTail(ids);
    TargetNamed(live, ids[1..], i);
    FirstAfter(ids, Targets(live, ids[1..])[i].id);
  }

  lemma {:induction false} TargetsOrder(live: seq<Entry>, ids: seq<string>, i: nat, j: nat)
    requires Once(ids) && i < j < |Targets(live, ids)|
    ensures First(ids, Targets(live, ids)[i].id) < First(ids, Targets(live, ids)[j].id)
  {
    OnceTail(ids);
    if Find(live, ids[0]).None? {
      TargetsOrder(live, ids[1..], i, j);
      TargetAfter(live, ids, i);
      TargetAfter(live, ids, j);
    } else {
      TargetAfter(live, ids, j - 1);
      if i > 0 {
        TargetsOrder(live, ids[1..], i - 1, j - 1);
        TargetAfter(live, ids, i - 1);
      }
    }
  }

  lemma {:induction false} CallOrder(env: Env, r: Reg, ts: seq<Info>, reason: string, k: nat, l: nat) returns (i: nat, j: nat)
    requires |r.attempts| <= k < l < |RevokeEach(env, r, ts, reason).0.attempts|
    ensures var log := RevokeEach(env, r, ts, reason).0.attempts;
            i < j < |ts| && log[k].id == ts[i].id && log[l].id == ts[j].id
    decreases |ts|
  {
    var r1 := RevokeOne(env, r, ts[0], reason).0;
    LogGrows(env, r1, ts[1..], reason);
    if k < |r1.attempts| {
      i := 0;
      var m := CallIsFor(env, r1, ts[1..], reason, l);
      j := m + 1;
    } else {
      i, j := CallOrder(env, r1, ts[1..], reason, k, l);
      i, j := i + 1, j + 1;
    }
  }

  /** Issuers are asked in the order in which the ids first name the checkouts. */
  lemma RevokeOrder(env: Env, r: Reg, ids: seq<string>, reason: string, k: nat, l: nat)
    requires Unique(r.live) && |r.attempts| <= k < l < |Revoke(env, r, ids, reason).0.attempts|
    ensures var log := Revoke(env, r, ids, reason).0.attempts; First(ids, log[k].id) < First(ids, log[l].id)
  {
    var ts := Targets(r.live, Dedup(ids));
    var i, j := CallOrder(env, r.(live := Clear(r.live, ids)), ts, reason, k, l);
    TargetsOrder(r.live, Dedup(ids), i, j);
    TargetsAre(r.live, Dedup(ids));
    var a, b := First(Dedup(ids), ts[i].id), First(Dedup(ids), ts[j].id);
    assert ts[i] in ts && ts[j] in ts;
    DedupOrder(ids, a, b);
  }

  // ---------------------------------------------------------------- what is logged

  /** One event of a revocation: what became of one checkout, and why. */
  ghost predicate Tells(v: Event, info: Info, done: bool, reason: string) {
    v == Event("broker_revoke", info, done, reason)
  }

  lemma {:induction false} EachTells(env: Env, r: Reg, ts: seq<Info>, reason: string)
    requires Distinct(ts)
    ensures var (r', done) := RevokeEach(env, r, ts, reason);
            && |r'.events| == |r.events| + |ts| && r.events <= r'.events
            && (forall q :: q in done ==> exists i :: 0 <= i < |ts| && ts[i].id == q)
            && forall i :: 0 <= i < |ts| ==> Tells(r'.events[|r.events| + i], ts[i], ts[i].id in done, reason)
    decreases |ts|
  {
    if ts != [] {
      var (r1, ok) := RevokeOne(env, r, ts[0], reason);
      var (r2, rest) := RevokeEach(env, r1, ts[1..], reason);
      EachTells(env, r1, ts[1..], reason);
      var done := RevokeEach(env, r, ts, reason).1;
      assert forall q :: q in done <==> (ok && q == ts[0].id) || q in rest;
      forall i | 0 <= i < |ts| ensures Tells(r2.events[|r.events| + i], ts[i], ts[i].id in done, reason) {
        if i > 0 {
          assert Tells(r2.events[|r1.events| + (i - 1)], ts[1..][i - 1], ts[1..][i - 1].id in rest, reason);
        } else {
          assert ts[0].id !in rest;
        }
      }
      forall q | q in done ensures exists i :: 0 <= i < |ts| && ts[i].id == q {
        if q in rest {
          var i :| 0 <= i < |ts[1..]| && ts[1..][i].id == q;
          assert ts[i + 1].id == q;
        } else {
          assert ts[0].id == q;
        }
      }
    }
  }

  /** The event about a checkout: one for each that was named, with its own labels, this reason, and whether it is gone. */
  ghost predicate LoggedAs(r: Reg, r': Reg, q: string, reason: string) {
    exists k :: |r.events| <= k < |r'.events| && Find(r.live, q).Some? &&
                Tells(r'.events[k], Find(r.live, q).value.info, Find(r'.live, q).None?, reason)
  }

  /** A revocation's event, about one of the checkouts it named. */
  ghost predicate AboutNamed(r: Reg, r': Reg, ids: seq<string>, reason: string, v: Event) {
    var q := v.info.id;
    q in ids && Find(r.live, q).Some? && Tells(v, Find(r.live, q).value.info, Find(r'.live, q).None?, reason)
  }

  lemma EventIs(env: Env, r: Reg, ids: seq<string>, reason: string, k: nat)
    requires Unique(r.live) && |r.events| <= k < |Revoke(env, r, ids, reason).0.events|
    ensures var r' := Revoke(env, r, ids, reason).0; AboutNamed(r, r', ids, reason, r'.events[k])
  {
    Told(env, r, ids, reason);
    TargetIs(r.live, ids, k - |r.events|);
    AboutSo(r, Revoke(env, r, ids, reason).0, ids, reason, k - |r.events|);
  }

  lemma TargetIs(live: seq<Entry>, ids: seq<string>, i: nat)
    requires Unique(live) && i < |Targets(live, Dedup(ids))|
    ensures var t := Targets(live, Dedup(ids))[i]; t.id in ids && Find(live, t.id).Some? && Find(live, t.id).value.info == t
  {
    NamedTargets(live, ids);
    assert Targets(live, Dedup(ids))[i] in Targets(live, Dedup(ids));
  }

  lemma AboutSo(r: Reg, r': Reg, ids: seq<string>, reason: string, i: nat)
    requires i < |Targets(r.live, Dedup(ids))| && |r'.events| == |r.events| + |Targets(r.live, Dedup(ids))|
    requires ToldAt(r, r', Targets(r.live, Dedup(ids)), reason, i)
    requires var t := Targets(r.live, Dedup(ids))[i]; t.id in ids && Find(r.live, t.id).Some? && Find(r.live, t.id).value.info == t
    ensures AboutNamed(r, r', ids, reason, r'.events[|r.events| + i])
  {
  }

  lemma NamedIsLogged(env: Env, r: Reg, ids: seq<string>, reason: string, q: string)
    requires Unique(r.live) && q in ids && Find(r.live, q).Some?
    ensures LoggedAs(r, Revoke(env, r, ids, reason).0, q, reason)
  {
    var ts := Targets(r.live, Dedup(ids));
    NamedTargets(r.live, ids);
    Told(env, r, ids, reason);
    assert Find(r.live, q).value.info in ts;
    var i :| 0 <= i < |ts| && ts[i] == Find(r.live, q).value.info;
    assert ToldAt(r, Revoke(env, r, ids, reason).0, ts, reason, i);
  }

  lemma LoggedOnce(env: Env, r: Reg, ids: seq<string>, reason: string, k: nat, l: nat)
    requires Unique(r.live) && |r.events| <= k < l < |Revoke(env, r, ids, reason).0.events|
    ensures var r' := Revoke(env, r, ids, reason).0; r'.events[k].info.id != r'.events[l].info.id
  {
    NamedTargets(r.live, ids);
    EventInfo(env, r, ids, reason, k);
    EventInfo(env, r, ids, reason, l);
  }

  lemma EventInfo(env: Env, r: Reg, ids: seq<string>, reason: string, k: nat)
    requires Unique(r.live) && |r.events| <= k < |Revoke(env, r, ids, reason).0.events|
    ensures var ts := Targets(r.live, Dedup(ids));
            k - |r.events| < |ts| && Revoke(env, r, ids, reason).0.events[k].info == ts[k - |r.events|]
  {
    Told(env, r, ids, reason);
    assert ToldAt(r, Revoke(env, r, ids, reason).0, Targets(r.live, Dedup(ids)), reason, k - |r.events|);
  }

  /**
   A revocation logs each checkout it names once: with its own labels, the reason
   given, and whether it is gone. It logs nothing else.
   */
  lemma RevokeTells(env: Env, r: Reg, ids: seq<string>, reason: string)
    requires Unique(r.live)
    ensures var r' := Revoke(env, r, ids, reason).0;
            && r.events <= r'.events
            && (forall q :: q in ids && Find(r.live, q).Some? ==> LoggedAs(r, r', q, reason))
            && (forall k :: |r.events| <= k < |r'.events| ==> AboutNamed(r, r', ids, reason, r'.events[k]))
            && forall k, l :: |r.events| <= k < l < |r'.events| ==> r'.events[k].info.id != r'.events[l].info.id
  {
    Told(env, r, ids, reason);
    var r' := Revoke(env, r, ids, reason).0;
    forall q | q in ids && Find(r.live, q).Some? ensures LoggedAs(r, r', q, reason) { NamedIsLogged(env, r, ids, reason, q); }
    forall k | |r.events| <= k < |r'.events| ensures AboutNamed(r, r', ids, reason, r'.events[k]) { EventIs(env, r, ids, reason, k); }
    forall k, l | |r.events| <= k < l < |r'.events| ensures r'.events[k].info.id != r'.events[l].info.id {
      LoggedOnce(env, r, ids, reason, k, l);
    }
  }

  ghost predicate ToldAt(r: Reg, r': Reg, ts: seq<Info>, reason: string, i: nat)
    requires i < |ts| && |r'.events| == |r.events| + |ts|
  {
    Tells(r'.events[|r.events| + i], ts[i], Find(r'.live, ts[i].id).None?, reason)
  }

  lemma Told(env: Env, r: Reg, ids: seq<string>, reason: string)
    requires Unique(r.live)
    ensures var r', ts := Revoke(env, r, ids, reason).0, Targets(r.live, Dedup(ids));
            r.events <= r'.events && |r'.events| == |r.events| + |ts| && forall i :: 0 <= i < |ts| ==> ToldAt(r, r', ts, reason, i)
  {
    var ts, cleared := Targets(r.live, Dedup(ids)), r.(live := Clear(r.live, ids));
    var (r1, done) := RevokeEach(env, cleared, ts, reason);
    NamedTargets(r.live, ids);
    EachTells(env, cleared, ts, reason);
    var r' := Revoke(env, r, ids, reason).0;
    assert r'.events == r1.events && r'.live == r1.live;
    forall i | 0 <= i < |ts| ensures ToldAt(r, r', ts, reason, i) {
      TargetTold(env, r, ids, reason, i);
      assert Tells(r1.events[|cleared.events| + i], ts[i], ts[i].id in done, reason);
    }
  }

  lemma TargetTold(env: Env, r: Reg, ids: seq<string>, reason: string, i: nat)
    requires Unique(r.live) && i < |Targets(r.live, Dedup(ids))|
    ensures var ts := Targets(r.live, Dedup(ids));
            var (r1, done) := RevokeEach(env, r.(live := Clear(r.live, ids)), ts, reason);
            && ts[i].id in ids && Find(r.live, ts[i].id).Some? && Find(r.live, ts[i].id).value.info == ts[i]
            && (ts[i].id in done <==> Find(r1.live, ts[i].id) == None)
  {
    var ts := Targets(r.live, Dedup(ids));
    NamedTargets(r.live, ids);
    assert ts[i] in ts;
    ClearFind(r.live, ids, ts[i].id);
    TargetFate(env, r.(live := Clear(r.live, ids)), ts, reason, i);
  }

  // ---------------------------------------------------------------- the reaper's reasons

  /** Why the reaper revokes a checkout: the first of the three that applies. */
  ghost predicate Because(e: Entry, now: real, alive: (int, Option<int>) -> bool, reason: string) {
    var gone := e.info.anchorPid.Some? && !alive(e.info.anchorPid.value, e.info.anchorStart);
    || (e.info.expiresAt <= now && reason == "expired")
    || (e.info.expiresAt > now && gone && reason == "session_end")
    || (e.info.expiresAt > now && !gone && e.pending && reason == "retry")
  }

  /** Every event after `r` is about a checkout of `r0` that was due, under its reason. */
  ghost predicate Explained(r0: Reg, r: Reg, now: real, alive: (int, Option<int>) -> bool) {
    && r0.events <= r.events
    && forall k :: |r0.events| <= k < |r.events| ==>
         var v := r.events[k];
         Find(r0.live, v.info.id).Some? && v.kind == "broker_revoke" && Find(r0.live, v.info.id).value.info == v.info &&
         Because(Find(r0.live, v.info.id).value, now, alive, v.reason)
  }

  lemma GroupExplained(env: Env, r0: Reg, r: Reg, now: real, alive: (int, Option<int>) -> bool, why: Reason, reason: string)
    requires Unique(r0.live) && Unique(r.live) && Explained(r0, r, now, alive)
    requires reason == match why case Expired => "expired" case SessionEnd => "session_end" case Retry => "retry"
    requires forall q :: q in Due(r0.live, now, alive, why) ==> Find(r.live, q) == Find(r0.live, q)
    ensures Explained(r0, ReapGroup(env, r, Due(r0.live, now, alive, why), reason).0, now, alive)
  {
    var ids := Due(r0.live, now, alive, why);
    if ids != [] {
      Told(env, r, ids, reason);
      var r' := Revoke(env, r, ids, reason).0;
      forall k | |r0.events| <= k < |r'.events|
        ensures var v := r'.events[k];
                Find(r0.live, v.info.id).Some? && v.kind == "broker_revoke" && Find(r0.live, v.info.id).value.info == v.info &&
                Because(Find(r0.live, v.info.id).value, now, alive, v.reason)
      {
        if k < |r.events| {
          assert r'.events[k] == r.events[k];
        } else {
          EventIs(env, r, ids, reason, k);
          DueInjective(r0.live, now, alive, why, r'.events[k].info.id);
        }
      }
    }
  }

  /**
   Whatever a reap revokes, in whatever order and however it ends, is logged under
   the first reason that applies to it: expired, its session's process gone, or
   waiting for a retry. Nothing else is logged.
   */
  lemma ReapReasons(env: Env, r: Reg, now: real, alive: (int, Option<int>) -> bool)
    requires Unique(r.live)
    ensures Explained(r, Reap(env, r, now, alive).0, now, alive)
  {
    var x, s, t := Due(r.live, now, alive, Expired), Due(r.live, now, alive, SessionEnd), Due(r.live, now, alive, Retry);
    var r1 := ReapGroup(env, r, x, "expired").0;
    var r2 := ReapGroup(env, r1, s, "session_end").0;
    GroupExplained(env, r, r, now, alive, Expired, "expired");
    GroupFate(env, r, x, "expired", "");
    forall q | q in s || q in t ensures Find(r1.live, q) == Find(r.live, q) {
      Apart(r, now, alive, q);
      GroupFate(env, r, x, "expired", q);
    }
    GroupExplained(env, r, r1, now, alive, SessionEnd, "session_end");
    GroupFate(env, r1, s, "session_end", "");
    forall q | q in t ensures Find(r2.live, q) == Find(r.live, q) {
      Apart(r, now, alive, q);
      GroupFate(env, r1, s, "session_end", q);
    }
    GroupExplained(env, r, r2, now, alive, Retry, "retry");
  }

  lemma Apart(r: Reg, now: real, alive: (int, Option<int>) -> bool, q: string)
    requires Unique(r.live)
    ensures q in Due(r.live, now, alive, SessionEnd) ==> q !in Due(r.live, now, alive, Expired)
    ensures q in Due(r.live, now, alive, Retry) ==> q !in Due(r.live, now, alive, Expired) && q !in Due(r.live, now, alive, SessionEnd)
  {
    DueInjective(r.live, now, alive, Expired, q);
    DueInjective(r.live, now, alive, SessionEnd, q);
    DueInjective(r.live, now, alive, Retry, q);
  }
}
