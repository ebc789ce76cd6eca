/**
 The running broker as a step relation: request workers, the reaper and the
 shutdown thread share one registry, each locked section is one atomic step,
 issuer calls run outside the lock, the disk may refuse a write, and the
 process may crash between any two steps and be started again.
 */
module BrokerSteps {
  import opened Base
  import opened RegistrySpec

  /** What a helper asked for, and when its worker read the clock. */
  datatype Query = Query(capability: string, session: string, harness: string, now: real, minRemaining: real)

  datatype Phase =
    | Idle
    | Holding(info: Info, value: Fields)             // issued, not yet registered
    | Looking(query: Query)                          // clock read, waiting for the lock
    | Planned(ids: seq<string>)                      // about to revoke these
    | Calling(todo: seq<Info>)                       // next: ask the issuer about todo[0]
    | Returned(asked: seq<Info>, ok: bool)           // the issuer answered about asked[0]
    | Saving                                         // all asked; the state file is next

  datatype Handout = Handout(query: Query, entry: Entry, at: real, begunBefore: bool)

  datatype State = State(
    up: bool,
    live: map<string, Entry>,
    file: map<string, Record>,
    threads: map<nat, Phase>,
    clock: real,
    // history, seen by no step
    issued: map<string, Info>,    // every checkout an issuer ever made
    added: set<string>,           // `add` returned
    begun: set<string>,           // a revocation has started
    confirmed: set<string>,       // an issuer revocation succeeded
    unsaved: set<string>,         // `add` raised, and the state file has not been written since
    handouts: seq<Handout>)

  datatype Step =
    | Issue(t: nat, info: Info, value: Fields)
    | Add(t: nat, disk: bool)
    | Look(t: nat, query: Query)
    | Reuse(t: nat, found: Option<string>)
    | Plan(t: nat, ids: seq<string>)
    | Begin(t: nat)
    | Call(t: nat, ok: bool)
    | Settle(t: nat)
    | Save(t: nat, disk: bool)
    | Tick(d: real)
    | Crash
    | Restart(t: nat, ids: seq<string>)

  const INIT := State(true, map[], map[], map[], 0.0, map[], {}, {}, {}, {}, [])

  function PhaseOf(s: State, t: nat): Phase {
    if t in s.threads then s.threads[t] else Idle
  }

  function Go(s: State, t: nat, p: Phase): State {
    s.(threads := s.threads[t := p])
  }

  function Filed(live: map<string, Entry>): map<string, Record> {
    map id | id in live :: RecordOf(live[id])
  }

  function Unfiled(file: map<string, Record>): map<string, Entry> {
    map id | id in file :: FromRecord(file[id]).(pending := true)
  }

  function Picked(live: map<string, Entry>, ids: seq<string>): seq<Info> {
    if ids == [] then []
    else
      var rest := Picked(live, ids[1..]);
      if ids[0] in live then [live[ids[0]].info] + rest else rest
  }

  function Forgotten(live: map<string, Entry>, ids: seq<string>): map<string, Entry> {
    map id | id in live :: if id in ids then live[id].(value := None) else live[id]
  }

  function IdSet(infos: seq<Info>): set<string> {
    set i | 0 <= i < |infos| :: infos[i].id
  }

  ghost predicate Enabled(s: State, step: Step) {
    match step
    case Issue(t, info, value) => s.up && PhaseOf(s, t) == Idle && info.id !in s.issued
    case Add(t, _) => s.up && PhaseOf(s, t).Holding?
    case Look(t, q) => s.up && PhaseOf(s, t) == Idle && q.now == s.clock
    case Reuse(t, found) => s.up && PhaseOf(s, t).Looking? && CanReuse(s.live, PhaseOf(s, t).query, found)
    case Plan(t, _) => s.up && PhaseOf(s, t) == Idle
    case Begin(t) => s.up && PhaseOf(s, t).Planned?
    case Call(t, _) => s.up && PhaseOf(s, t).Calling? && PhaseOf(s, t).todo != []
    case Settle(t) => s.up && PhaseOf(s, t).Returned? && PhaseOf(s, t).asked != []
    case Save(t, _) => s.up && PhaseOf(s, t).Saving?
    case Tick(d) => d >= 0.0
    case Crash => s.up
    case Restart(_, ids) => !s.up && forall id :: id in ids <==> id in s.file
  }

  /** Some matching checkout if there is one; nothing otherwise. */
  predicate CanReuse(live: map<string, Entry>, q: Query, found: Option<string>) {
    match found
    case Some(id) => id in live && Reusable(live[id], q.capability, q.session, q.harness, q.now, q.minRemaining)
    case None => forall id :: id in live ==> !Reusable(live[id], q.capability, q.session, q.harness, q.now, q.minRemaining)
  }

  function Do(s: State, step: Step): State
    requires Enabled(s, step)
  {
    match step
    case Issue(t, info, value) =>
      Go(s, t, Holding(info, value)).(issued := s.issued[info.id := info])
    case Add(t, disk) =>
      var Holding(info, value) := PhaseOf(s, t);
      var live := s.live[info.id := Entry(info, false, Some(value))];
      if disk then Go(s, t, Idle).(live := live, file := Filed(live), added := s.added + {info.id}, unsaved := {})
      else Go(s, t, Idle).(live := live, unsaved := s.unsaved + {info.id})
    case Look(t, q) => Go(s, t, Looking(q))
    case Reuse(t, found) =>
      if found.None? then Go(s, t, Idle)
      else
        var e := s.live[found.value];
        Go(s, t, Idle).(handouts := s.handouts + [Handout(PhaseOf(s, t).query, e, s.clock, found.value in s.begun)])
    case Plan(t, ids) => Go(s, t, Planned(ids))
    case Begin(t) =>
      var ids := PhaseOf(s, t).ids;
      var targets := Picked(s.live, Dedup(ids));
      Go(s, t, if targets == [] then Idle else Calling(targets)).(
        live := Forgotten(s.live, ids), begun := s.begun + IdSet(targets))
    case Call(t, ok) =>
      var todo := PhaseOf(s, t).todo;
      Go(s, t, Returned(todo, ok)).(confirmed := if ok then s.confirmed + {todo[0].id} else s.confirmed)
    case Settle(t) =>
      var Returned(asked, ok) := PhaseOf(s, t);
      var id := asked[0].id;
      Go(s, t, Next(asked)).(
        live := if ok then s.live - {id}
                else if id in s.live then s.live[id := s.live[id].(pending := true)]
                else s.live)
    case Save(t, disk) => if disk then Go(s, t, Idle).(file := Filed(s.live), unsaved := {}) else Go(s, t, Idle)
    case Tick(d) => s.(clock := s.clock + d)
    case Crash => s.(up := false, live := map[], threads := map[], unsaved := {})
    case Restart(t, ids) => s.(up := true, live := Unfiled(s.file), threads := map[t := Planned(ids)])
  }

  /** A run: every step enabled where it is taken. */
  ghost predicate Runs(s: State, steps: seq<Step>)
    decreases |steps|
  {
    steps == [] || (Enabled(s, steps[0]) && Runs(Do(s, steps[0]), steps[1..]))
  }

  ghost function After(s: State, steps: seq<Step>): State
    requires Runs(s, steps)
    decreases |steps|
  {
    if steps == [] then s else After(Do(s, steps[0]), steps[1..])
  }

  // ---------------------------------------------------------------- invariant

  ghost predicate SameBut(a: Info, b: Info) {
    a.(anchorPid := None, anchorStart := None) == b.(anchorPid := None, anchorStart := None)
  }

  /** Every place a checkout appears describes the checkout that was issued under that id. */
  ghost predicate Consistent(s: State) {
    && (forall id :: id in s.issued ==> s.issued[id].id == id)
    && (forall id :: id in s.live ==> id in s.issued && SameBut(s.live[id].info, s.issued[id]))
    && (forall id :: id in s.file ==> id in s.issued && SameBut(s.file[id].info, s.issued[id]))
    && (forall id :: id in s.added ==> id in s.issued)
    && (forall id :: id in s.begun ==> id in s.issued)
  }

  function Targets(p: Phase): seq<Info> {
    if p.Calling? then p.todo else if p.Returned? then p.asked else []
  }

  ghost predicate Busy(p: Phase, id: string) {
    exists k :: 0 <= k < |Targets(p)| && Targets(p)[k].id == id
  }

  /** What a thread in the middle of an operation may rely on. */
  ghost predicate PhaseOk(s: State, p: Phase) {
    && (forall k :: 0 <= k < |Targets(p)| ==> Targets(p)[k].id in s.begun)
    && (p.Returned? && p.asked != [] && p.ok ==> p.asked[0].id in s.confirmed)
    && (p.Looking? ==> p.query.now <= s.clock)
    && (p.Holding? ==>
          && p.info.id in s.issued && s.issued[p.info.id] == p.info
          && p.info.id !in s.live && p.info.id !in s.file && p.info.id !in s.added && p.info.id !in s.begun)
  }

  ghost predicate HoldersDiffer(s: State) {
    forall t, u :: t in s.threads && u in s.threads && s.threads[t].Holding? && s.threads[u].Holding? && t != u ==>
      s.threads[t].info.id != s.threads[u].info.id
  }

  ghost predicate ThreadsOk(s: State) {
    (forall t :: t in s.threads ==> PhaseOk(s, s.threads[t])) && HoldersDiffer(s)
  }

  /** Nothing that still needs revoking is forgotten. */
  ghost predicate Remembered(s: State) {
    && (forall id :: id in s.added && id !in s.confirmed ==> id in s.file)
    && (s.up ==> forall id :: id in s.added && id !in s.confirmed ==> id in s.live)
    && (s.up ==> forall id :: id in s.file && id !in s.live ==> id in s.confirmed)
  }

  ghost predicate InFlight(s: State, id: string) {
    exists t :: t in s.threads && Busy(s.threads[t], id)
  }

  ghost predicate ValuesOk(s: State) {
    && (forall id :: id in s.live && s.live[id].value.Some? ==> id !in s.begun && !s.live[id].pending)
    && (forall id :: id in s.live && s.live[id].value.None? && !s.live[id].pending ==> InFlight(s, id))
    && (forall i :: 0 <= i < |s.handouts| ==> HandoutOk(s.handouts[i]))
  }

  /** Same capability, session and harness; not begun; life left as the caller's clock saw it. */
  ghost predicate HandoutOk(h: Handout) {
    && h.entry.info.capability == h.query.capability
    && h.entry.info.session == h.query.session
    && h.entry.info.harness == h.query.harness
    && h.entry.value.Some? && !h.entry.pending && !h.begunBefore
    && h.query.now <= h.at
    && h.entry.info.expiresAt - h.at >= h.query.minRemaining - (h.at - h.query.now)
  }

  ghost predicate Inv(s: State) {
    Consistent(s) && ThreadsOk(s) && Remembered(s) && ValuesOk(s)
  }

  lemma {:induction false} PickedAre(live: map<string, Entry>, ids: seq<string>, k: int)
    requires forall id :: id in live ==> live[id].info.id == id
    ensures 0 <= k < |Picked(live, ids)| ==>
              var t := Picked(live, ids)[k]; t.id in ids && t.id in live && live[t.id].info == t
    ensures forall id :: id in ids && id in live ==> live[id].info in Picked(live, ids)
  {
    if ids != [] {
      var rest := Picked(live, ids[1..]);
      PickedAre(live, ids[1..], if ids[0] in live then k - 1 else k);
      assert forall s :: s in ids <==> s == ids[0] || s in ids[1..];
      if ids[0] in live && 0 < k < |Picked(live, ids)| {
        assert Picked(live, ids)[k] == rest[k - 1];
      }
    }
  }

  lemma BeginTargets(s: State, ids: seq<string>)
    requires Consistent(s)
    ensures var ts := Picked(s.live, Dedup(ids));
      && (forall k :: 0 <= k < |ts| ==> ts[k].id in ids && ts[k].id in s.live)
      && (forall id :: id in IdSet(ts) <==> id in ids && id in s.live)
  {
    var ts := Picked(s.live, Dedup(ids));
    PickedAre(s.live, Dedup(ids), 0);
    forall k | 0 <= k < |ts| ensures ts[k].id in ids && ts[k].id in s.live {
      PickedAre(s.live, Dedup(ids), k);
    }
    forall id | id in ids && id in s.live ensures id in IdSet(ts) {
      var i :| 0 <= i < |ts| && ts[i] == s.live[id].info;
    }
  }

  lemma KeepsFlight(s: State, s': State, t: nat, p: Phase)
    requires s'.threads == s.threads[t := p]
    ensures forall id :: InFlight(s, id) && (Busy(PhaseOf(s, t), id) ==> Busy(p, id)) ==> InFlight(s', id)
    ensures forall id :: Busy(p, id) ==> InFlight(s', id)
  {
    forall id | InFlight(s, id) && (Busy(PhaseOf(s, t), id) ==> Busy(p, id)) ensures InFlight(s', id) {
      var u :| u in s.threads && Busy(s.threads[u], id);
      assert u != t ==> s'.threads[u] == s.threads[u];
      assert u == t ==> Busy(s'.threads[t], id);
    }
    forall id | Busy(p, id) ensures InFlight(s', id) {
      assert t in s'.threads && s'.threads[t] == p;
    }
  }

  /** Steps that touch neither memory nor disk. */
  ghost predicate Quiet(step: Step) {
    step.Issue? || step.Look? || step.Reuse? || step.Plan? || step.Call?
  }

  /** What a quiet step by `t` leaves alone. */
  ghost predicate QuietMove(s: State, s': State, t: nat) {
    && s'.up == s.up && s'.live == s.live && s'.file == s.file
    && s'.added == s.added && s'.begun == s.begun && s'.clock == s.clock && s.confirmed <= s'.confirmed
    && s'.unsaved == s.unsaved
    && t in s'.threads && s'.threads == s.threads[t := s'.threads[t]]
    && Targets(s'.threads[t]) == Targets(PhaseOf(s, t))
    && (s'.threads[t].Holding? ==> s'.threads[t].info.id !in s.issued)
    && (forall id :: id in s.issued ==> id in s'.issued && s'.issued[id] == s.issued[id])
    && (forall id :: id in s'.issued && id !in s.issued ==> s'.issued[id].id == id)
  }

  lemma QuietMoves(s: State, step: Step)
    requires Enabled(s, step) && Quiet(step)
    ensures QuietMove(s, Do(s, step), step.t)
  {
  }

  lemma QuietStores(s: State, s': State, t: nat)
    requires Consistent(s) && Remembered(s) && QuietMove(s, s', t)
    ensures Consistent(s') && Remembered(s')
  {
  }

  lemma PhaseStays(s: State, s': State, p: Phase)
    requires PhaseOk(s, p)
    requires s'.live == s.live && s'.file == s.file && s'.added == s.added && s'.begun == s.begun && s'.clock == s.clock
    requires s.confirmed <= s'.confirmed
    requires forall id :: id in s.issued ==> id in s'.issued && s'.issued[id] == s.issued[id]
    ensures PhaseOk(s', p)
  {
  }

  lemma QuietPhase(s: State, step: Step)
    requires Inv(s) && Enabled(s, step) && Quiet(step)
    ensures PhaseOk(Do(s, step), Do(s, step).threads[step.t])
  {
    assert PhaseOk(s, PhaseOf(s, step.t));
    QuietMoves(s, step);
    assert Targets(Do(s, step).threads[step.t]) == Targets(PhaseOf(s, step.t));
  }

  lemma QuietThreads(s: State, s': State, t: nat)
    requires ThreadsOk(s) && QuietMove(s, s', t) && PhaseOk(s', s'.threads[t])
    ensures ThreadsOk(s')
  {
    forall u | u in s'.threads ensures PhaseOk(s', s'.threads[u]) {
      if u != t { PhaseStays(s, s', s.threads[u]); }
    }
    forall u | u in s.threads && s.threads[u].Holding? ensures s.threads[u].info.id in s.issued {
      assert PhaseOk(s, s.threads[u]);
    }
  }

  lemma QuietHandouts(s: State, step: Step)
    requires Inv(s) && Enabled(s, step) && Quiet(step)
    ensures var hs := Do(s, step).handouts; forall i :: 0 <= i < |hs| ==> HandoutOk(hs[i])
  {
    var hs := Do(s, step).handouts;
    assert PhaseOk(s, PhaseOf(s, step.t));
    forall i | 0 <= i < |hs| ensures HandoutOk(hs[i]) {
      assert i < |s.handouts| ==> hs[i] == s.handouts[i];
    }
  }

  lemma QuietValues(s: State, s': State, t: nat)
    requires ValuesOk(s) && QuietMove(s, s', t) && forall i :: 0 <= i < |s'.handouts| ==> HandoutOk(s'.handouts[i])
    ensures ValuesOk(s')
  {
    KeepsFlight(s, s', t, s'.threads[t]);
    assert forall id :: Busy(PhaseOf(s, t), id) ==> Busy(s'.threads[t], id);
  }

  lemma QuietStep(s: State, step: Step)
    requires Inv(s) && Enabled(s, step) && Quiet(step)
    ensures Inv(Do(s, step))
  {
    var s', t := Do(s, step), step.t;
    QuietMoves(s, step);
    QuietStores(s, s', t);
    QuietPhase(s, step);
    QuietThreads(s, s', t);
    QuietHandouts(s, step);
    QuietValues(s, s', t);
  }

  lemma AddStores(s: State, t: nat, disk: bool)
    requires Inv(s) && Enabled(s, Add(t, disk))
    ensures Consistent(Do(s, Add(t, disk))) && Remembered(Do(s, Add(t, disk)))
  {
    assert PhaseOk(s, PhaseOf(s, t));
  }

  lemma AddThreads(s: State, t: nat, disk: bool)
    requires Inv(s) && Enabled(s, Add(t, disk))
    ensures ThreadsOk(Do(s, Add(t, disk)))
  {
    var s' := Do(s, Add(t, disk));
    forall u | u in s'.threads ensures PhaseOk(s', s'.threads[u]) {
      assert u != t ==> PhaseOk(s, s.threads[u]);
    }
  }

  lemma AddValues(s: State, t: nat, disk: bool)
    requires Inv(s) && Enabled(s, Add(t, disk))
    ensures ValuesOk(Do(s, Add(t, disk)))
  {
    KeepsFlight(s, Do(s, Add(t, disk)), t, Idle);
    assert PhaseOk(s, PhaseOf(s, t));
    assert Targets(PhaseOf(s, t)) == [];
  }

  lemma BeginStores(s: State, t: nat)
    requires Inv(s) && Enabled(s, Begin(t))
    ensures Consistent(Do(s, Begin(t))) && Remembered(Do(s, Begin(t)))
  {
    BeginTargets(s, PhaseOf(s, t).ids);
  }

  lemma BeginThreads(s: State, t: nat)
    requires Inv(s) && Enabled(s, Begin(t))
    ensures ThreadsOk(Do(s, Begin(t)))
  {
    var s' := Do(s, Begin(t));
    BeginTargets(s, PhaseOf(s, t).ids);
    forall u | u in s'.threads ensures PhaseOk(s', s'.threads[u]) {
      assert u != t ==> PhaseOk(s, s.threads[u]);
    }
  }

  lemma BeginValues(s: State, t: nat)
    requires Inv(s) && Enabled(s, Begin(t))
    ensures ValuesOk(Do(s, Begin(t)))
  {
    var s' := Do(s, Begin(t));
    var ids := PhaseOf(s, t).ids;
    BeginTargets(s, ids);
    KeepsFlight(s, s', t, s'.threads[t]);
    assert Targets(PhaseOf(s, t)) == [];
    forall id | id in ids && id in s.live ensures InFlight(s', id) { PickedBusy(s.live, ids, id); }
  }

  /** Each checkout a revocation is about to forget is on its list of issuer calls. */
  lemma PickedBusy(live: map<string, Entry>, ids: seq<string>, id: string)
    requires id in ids && id in live && (forall q :: q in live ==> live[q].info.id == q)
    ensures Picked(live, Dedup(ids)) != [] && Busy(Calling(Picked(live, Dedup(ids))), id)
  {
    PickedHas(live, Dedup(ids), id);
    var ts := Picked(live, Dedup(ids));
    var k :| 0 <= k < |ts| && ts[k].id == id;
    assert Targets(Calling(ts))[k].id == id;
  }

  lemma {:induction false} PickedHas(live: map<string, Entry>, ids: seq<string>, id: string)
    requires id in ids && id in live && live[id].info.id == id
    ensures exists k :: 0 <= k < |Picked(live, ids)| && Picked(live, ids)[k].id == id
  {
    if ids[0] == id {
      assert Picked(live, ids)[0].id == id;
    } else {
      PickedHas(live, ids[1..], id);
      var rest := Picked(live, ids[1..]);
      var k :| 0 <= k < |rest| && rest[k].id == id;
      assert Picked(live, ids)[if ids[0] in live then k + 1 else k].id == id;
    }
  }

  lemma SettleStores(s: State, t: nat)
    requires Inv(s) && Enabled(s, Settle(t))
    ensures Consistent(Do(s, Settle(t))) && Remembered(Do(s, Settle(t)))
  {
    assert PhaseOk(s, PhaseOf(s, t));
  }

  lemma SettleThreads(s: State, t: nat)
    requires Inv(s) && Enabled(s, Settle(t))
    ensures ThreadsOk(Do(s, Settle(t)))
  {
    var s' := Do(s, Settle(t));
    assert PhaseOk(s, PhaseOf(s, t));
    assert forall k :: 0 <= k < |Targets(s'.threads[t])| ==> Targets(s'.threads[t])[k] == Targets(PhaseOf(s, t))[k + 1];
    forall u | u in s'.threads ensures PhaseOk(s', s'.threads[u]) {
      assert u != t ==> PhaseOk(s, s.threads[u]);
    }
  }

  lemma SettleValues(s: State, t: nat)
    requires Inv(s) && Enabled(s, Settle(t))
    ensures ValuesOk(Do(s, Settle(t)))
  {
    var s' := Do(s, Settle(t));
    var p, p' := PhaseOf(s, t), s'.threads[t];
    KeepsFlight(s, s', t, p');
    assert PhaseOk(s, p);
    assert Targets(p)[0].id in s.begun;
    StillBusy(p.asked, p.ok);
    SettledLive(s, t);
  }

  function Next(asked: seq<Info>): Phase
    requires asked != []
  {
    if |asked| == 1 then Saving else Calling(asked[1..])
  }

  /** Whoever was still to be asked about after this target, still is. */
  lemma StillBusy(asked: seq<Info>, ok: bool)
    requires asked != []
    ensures forall id :: Busy(Returned(asked, ok), id) && id != asked[0].id ==> Busy(Next(asked), id)
  {
    var p, p' := Returned(asked, ok), Next(asked);
    forall id | Busy(p, id) && id != asked[0].id ensures Busy(p', id) {
      var k :| 0 <= k < |asked| && asked[k].id == id;
      assert Targets(p')[k - 1].id == id;
    }
  }

  lemma SettledLive(s: State, t: nat)
    requires Enabled(s, Settle(t))
    ensures var s', id0 := Do(s, Settle(t)), PhaseOf(s, t).asked[0].id;
            forall id :: id in s'.live ==>
              id in s.live && s'.live[id].value == s.live[id].value &&
              (id != id0 ==> s'.live[id] == s.live[id]) && (id == id0 ==> s'.live[id].pending)
  {
  }

  lemma SaveStores(s: State, t: nat, disk: bool)
    requires Inv(s) && Enabled(s, Save(t, disk))
    ensures var s' := Do(s, Save(t, disk)); Consistent(s') && Remembered(s') && ThreadsOk(s')
  {
    var s' := Do(s, Save(t, disk));
    forall u | u in s'.threads ensures PhaseOk(s', s'.threads[u]) {
      assert u != t ==> PhaseOk(s, s.threads[u]);
    }
  }

  lemma SaveValues(s: State, t: nat, disk: bool)
    requires Inv(s) && Enabled(s, Save(t, disk))
    ensures ValuesOk(Do(s, Save(t, disk)))
  {
    KeepsFlight(s, Do(s, Save(t, disk)), t, Idle);
    assert Targets(PhaseOf(s, t)) == [];
  }

  lemma TickStep(s: State, d: real)
    requires Inv(s) && d >= 0.0
    ensures Inv(Do(s, Tick(d)))
  {
    var s' := Do(s, Tick(d));
    forall id | InFlight(s, id) ensures InFlight(s', id) {
      var t :| t in s.threads && Busy(s.threads[t], id);
      assert t in s'.threads && Busy(s'.threads[t], id);
    }
    forall t | t in s'.threads ensures PhaseOk(s', s'.threads[t]) {
      assert PhaseOk(s, s.threads[t]);
    }
  }

  lemma RestartStores(s: State, t: nat, ids: seq<string>)
    requires Inv(s) && Enabled(s, Restart(t, ids))
    ensures Consistent(Do(s, Restart(t, ids))) && Remembered(Do(s, Restart(t, ids)))
  {
  }

  lemma RestartThreads(s: State, t: nat, ids: seq<string>)
    requires Inv(s) && Enabled(s, Restart(t, ids))
    ensures ThreadsOk(Do(s, Restart(t, ids)))
  {
  }

  lemma RestartValues(s: State, t: nat, ids: seq<string>)
    requires Inv(s) && Enabled(s, Restart(t, ids))
    ensures ValuesOk(Do(s, Restart(t, ids)))
  {
  }

  lemma CrashStep(s: State)
    requires Inv(s) && s.up
    ensures Inv(Do(s, Crash))
  {
  }
}
