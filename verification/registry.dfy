/**
 The broker's checkout registry: values in memory, value-free records on disk.

 `Reg` is the abstract state; the functions below say what each operation does
 to it, and the class `Registry` is proved to do exactly that in place, on
 shared `Checkout` objects. The outside world is an `Env`: which issuer kinds
 exist, whether the n-th issuer revocation succeeds, and whether the n-th
 attempt to replace the state file succeeds.
 */
module RegistrySpec {
  import opened Base

  type Fields = map<string, string>

  /** What never changes about a checkout once it is built. */
  datatype Info = Info(
    id: string, capability: string, harness: string, session: string,
    issuedAt: real, expiresAt: real, issuerKind: string, assurance: string,
    handle: Option<string>, accessor: Option<string>,
    anchorPid: Option<int>, anchorStart: Option<int>)

  datatype Entry = Entry(info: Info, pending: bool, value: Option<Fields>)

  /** The persisted form: no value. */
  datatype Record = Record(info: Info, pending: bool)

  datatype Attempt = Attempt(id: string, kind: string, handle: Option<string>, ok: bool)

  datatype Event = Event(kind: string, info: Info, applied: bool, reason: string)

  datatype Reg = Reg(
    live: seq<Entry>,         // the dict, in insertion order
    file: seq<Record>,        // the state file
    attempts: seq<Attempt>,   // every call made to an issuer's revoke
    writes: nat,              // how often the state file was (to be) replaced
    events: seq<Event>)

  datatype Env = Env(kinds: set<string>, revokes: nat -> bool, disk: nat -> bool)

  datatype Error = ValueError | OSError

  // ---------------------------------------------------------------- vocabulary

  function RecordOf(e: Entry): Record {
    Record(e.info, e.pending)
  }

  /** Reading a record back loses the process anchor and can never yield a value. */
  function FromRecord(r: Record): Entry {
    Entry(r.info.(anchorPid := None, anchorStart := None), r.pending, None)
  }

  function Records(live: seq<Entry>): (rs: seq<Record>) {
    seq(|live|, i requires 0 <= i < |live| => RecordOf(live[i]))
  }

  ghost predicate Unique(live: seq<Entry>) {
    forall i, j :: 0 <= i < j < |live| ==> live[i].info.id != live[j].info.id
  }

  ghost predicate Has(live: seq<Entry>, id: string) {
    exists i :: 0 <= i < |live| && live[i].info.id == id
  }

  /** Between operations, a checkout has lost its value exactly when its revocation is pending. */
  ghost predicate Settled(live: seq<Entry>) {
    forall i :: 0 <= i < |live| ==> (live[i].pending <==> live[i].value.None?)
  }

  function Find(live: seq<Entry>, id: string): (e: Option<Entry>)
    ensures e.Some? <==> Has(live, id)
    ensures e.Some? ==> e.value in live && e.value.info.id == id
  {
    if live == [] then None
    else if live[0].info.id == id then Some(live[0])
    else
      assert Has(live[1..], id) ==> Has(live, id) by {
        if Has(live[1..], id) { var i :| 0 <= i < |live[1..]| && live[1..][i].info.id == id; assert live[i + 1].info.id == id; }
      }
      assert Has(live, id) ==> Has(live[1..], id) by {
        if Has(live, id) { var i :| 0 <= i < |live| && live[i].info.id == id; assert live[1..][i - 1].info.id == id; }
      }
      Find(live[1..], id)
  }

  function Clear(live: seq<Entry>, ids: seq<string>): (r: seq<Entry>) {
    seq(|live|, i requires 0 <= i < |live| =>
      if live[i].info.id in ids then live[i].(value := None) else live[i])
  }

  function Mark(live: seq<Entry>, id: string): (r: seq<Entry>) {
    seq(|live|, i requires 0 <= i < |live| =>
      if live[i].info.id == id then live[i].(pending := true) else live[i])
  }

  function Drop(live: seq<Entry>, id: string): (r: seq<Entry>) {
    if live == [] then []
    else if live[0].info.id == id then live[1..]
    else [live[0]] + Drop(live[1..], id)
  }

  /** `dict.fromkeys`: first occurrences, in order. */
  function Dedup(ids: seq<string>): (r: seq<string>)
    ensures forall s :: s in r <==> s in ids
    ensures forall i, j :: 0 <= i < j < |r| ==> r[i] != r[j]
  {
    if ids == [] then []
    else
      var front := Dedup(ids[..|ids| - 1]);
      assert ids == ids[..|ids| - 1] + [ids[|ids| - 1]];
      if ids[|ids| - 1] in front then front else front + [ids[|ids| - 1]]
  }

  /** The checkouts the ids name, in the ids' order. */
  function Targets(live: seq<Entry>, ids: seq<string>): (r: seq<Info>) {
    if ids == [] then []
    else
      var rest := Targets(live, ids[1..]);
      match Find(live, ids[0])
      case None => rest
      case Some(e) => [e.info] + rest
  }

  // ---------------------------------------------------------------- operations

  function Persist(env: Env, r: Reg): (Reg, Outcome<(), Error>) {
    if env.disk(r.writes) then (r.(file := Records(r.live), writes := r.writes + 1), Ok(()))
    else (r.(writes := r.writes + 1), Raised(OSError))
  }

  /** A key already present keeps its place in the dict. */
  function Put(live: seq<Entry>, e: Entry): seq<Entry> {
    if live == [] then [e]
    else if live[0].info.id == e.info.id then [e] + live[1..]
    else [live[0]] + Put(live[1..], e)
  }

  function Add(env: Env, r: Reg, e: Entry): (Reg, Outcome<(), Error>) {
    if e.value.None? then (r, Raised(ValueError))
    else
      var (r1, out) := Persist(env, r.(live := Put(r.live, e)));
      if out.Raised? then (r1, out)
      else (r1.(events := r1.events + [Event("broker_checkout", e.info, true, "")]), out)
  }

  /** One target of a revocation; the issuer call is made outside the lock. */
  function RevokeOne(env: Env, r: Reg, info: Info, reason: string): (Reg, bool) {
    var failed := [Event("broker_revoke", info, false, reason)];
    if info.issuerKind !in env.kinds then
      (r.(live := Mark(r.live, info.id), events := r.events + failed), false)
    else
      var ok := env.revokes(|r.attempts|);
      var called := r.(attempts := r.attempts + [Attempt(info.id, info.issuerKind, info.handle, ok)]);
      if ok then
        (called.(live := Drop(r.live, info.id),
                 events := r.events + [Event("broker_revoke", info, true, reason)]), true)
      else
        (called.(live := Mark(r.live, info.id), events := r.events + failed), false)
  }

  function RevokeEach(env: Env, r: Reg, targets: seq<Info>, reason: string): (Reg, seq<string>)
    decreases |targets|
  {
    if targets == [] then (r, [])
    else
      var (r1, ok) := RevokeOne(env, r, targets[0], reason);
      var (r2, done) := RevokeEach(env, r1, targets[1..], reason);
      (r2, if ok then [targets[0].id] + done else done)
  }

  function Revoke(env: Env, r: Reg, ids: seq<string>, reason: string): (Reg, Outcome<seq<string>, Error>) {
    var targets := Targets(r.live, Dedup(ids));
    var (r1, done) := RevokeEach(env, r.(live := Clear(r.live, ids)), targets, reason);
    if targets == [] then (r1, Ok(done))
    else
      var (r2, out) := Persist(env, r1);
      (r2, if out.Raised? then Raised(out.error) else Ok(done))
  }

  datatype Reason = Expired | SessionEnd | Retry

  function ReasonFor(e: Entry, now: real, alive: (int, Option<int>) -> bool): Option<Reason> {
    if e.info.expiresAt <= now then Some(Expired)
    else if e.info.anchorPid.Some? && !alive(e.info.anchorPid.value, e.info.anchorStart) then Some(SessionEnd)
    else if e.pending then Some(Retry)
    else None
  }

  function Due(live: seq<Entry>, now: real, alive: (int, Option<int>) -> bool, why: Reason): (ids: seq<string>) {
    if live == [] then []
    else
      var n := |live| - 1;
      var front := Due(live[..n], now, alive, why);
      if ReasonFor(live[n], now, alive) == Some(why) then front + [live[n].info.id] else front
  }

  /** An empty group is not revoked at all, so the file is left alone for it. */
  function ReapGroup(env: Env, r: Reg, ids: seq<string>, reason: string): (Reg, Outcome<seq<string>, Error>) {
    if ids == [] then (r, Ok([])) else Revoke(env, r, ids, reason)
  }

  function Reap(env: Env, r: Reg, now: real, alive: (int, Option<int>) -> bool)
    : (Reg, Outcome<seq<string>, Error>)
  {
    var (r1, o1) := ReapGroup(env, r, Due(r.live, now, alive, Expired), "expired");
    if o1.Raised? then (r1, o1) else
    var (r2, o2) := ReapGroup(env, r1, Due(r.live, now, alive, SessionEnd), "session_end");
    if o2.Raised? then (r2, o2) else
    var (r3, o3) := ReapGroup(env, r2, Due(r.live, now, alive, Retry), "retry");
    if o3.Raised? then (r3, o3) else (r3, Ok(o1.value + o2.value + o3.value))
  }

  function RevokeAll(env: Env, r: Reg, reason: string): (Reg, Outcome<seq<string>, Error>) {
    Revoke(env, r, Ids(r.live), reason)
  }

  function Ids(live: seq<Entry>): (ids: seq<string>) {
    seq(|live|, i requires 0 <= i < |live| => live[i].info.id)
  }

  /** A new process: memory is gone, the file and the issuers' history stay. */
  function Crash(r: Reg): Reg {
    r.(live := [])
  }

  function Restore(live: seq<Entry>, file: seq<Record>): seq<Entry> {
    if file == [] then live
    else
      var n := |file| - 1;
      Put(Restore(live, file[..n]), FromRecord(file[n]).(pending := true))
  }

  function Recover(env: Env, r: Reg): (Reg, Outcome<seq<string>, Error>) {
    Revoke(env, r.(live := Restore(r.live, r.file)), RecordIds(r.file), "recovered")
  }

  function RecordIds(file: seq<Record>): (ids: seq<string>) {
    seq(|file|, i requires 0 <= i < |file| => file[i].info.id)
  }

  predicate Reusable(e: Entry, capability: string, session: string, harness: string, now: real, minRemaining: real) {
    && e.info.capability == capability
    && e.info.session == session
    && e.info.harness == harness
    && e.value.Some?
    && !e.pending
    && e.info.expiresAt - now >= minRemaining
  }

  function FindReusable(live: seq<Entry>, capability: string, session: string, harness: string,
                        now: real, minRemaining: real): (found: Option<Entry>)
  {
    if live == [] then None
    else if Reusable(live[0], capability, session, harness, now, minRemaining) then Some(live[0])
    else FindReusable(live[1..], capability, session, harness, now, minRemaining)
  }

  function CountPending(live: seq<Entry>): (n: nat)
    ensures n <= |live|
  {
    if live == [] then 0
    else CountPending(live[..|live| - 1]) + (if live[|live| - 1].pending then 1 else 0)
  }
}
