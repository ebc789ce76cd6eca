/**
 Child tokens: one short-lived Vault token for each checkout, and what becomes
 of every token that was ever minted. The world is a script of moves: each
 interaction takes the next one, which says how long it lasts and whether it
 fails, before or after its effect. The broker and Vault share one clock.
 */
module LeasesSpec {
  import opened Base

  const CHILD_TOKEN_MAX_TTL: int := 900

  function Min(a: int, b: int): int { if a <= b then a else b }

  function Max(a: int, b: int): int { if a >= b then a else b }

  /** Truncation toward zero. */
  function Trunc(x: real): int {
    if x >= 0.0 then x.Floor else -((-x).Floor)
  }

  // ---------------------------------------------------------------- state

  datatype Token = Token(parent: nat, minted: real, granted: nat, revoked: bool)

  function Expires(t: Token): real { t.minted + t.granted as real }

  /** What one interaction meets. Vault never grants more than was asked for, and reports what it granted if anything. */
  datatype Move = Move(
    before: real, after: real,                       // time that passes before and after the effect
    refuses: bool,                                   // authentication, or the create call, is refused
    mints: bool, answers: bool, malformed: bool, granted: nat, reports: bool,
    builds: bool,                                    // a client can be built for the token
    ok: bool, took: bool,                            // the call returns; the token is revoked although it failed
    wellFormed: bool, duration: Option<int>)         // the creds' shape and lease duration

  type Script = nat -> Move

  datatype Vault = Vault(now: real, tokens: seq<Token>, moves: nat)

  datatype Child = Child(token: nat, expiresAt: real)

  datatype State = State(vault: Vault, client: Option<nat>, clients: nat, held: map<nat, Child>, ended: set<nat>, abandoned: set<nat>)

  const NEW: State := State(Vault(0.0, [], 0), None, 0, map[], {}, {})

  /** A token's number stands for its accessor and its secret. */
  datatype Reply = Malformed | Auth(token: nat, duration: Option<int>)

  datatype Created = Answer(reply: Reply) | Forbidden | Broken

  /** Why an issue failed. */
  datatype Failure =
    | NoClient                    // the session could not authenticate
    | MintFailed                  // the create call raised
    | BadReply                    // a token was minted, but the reply did not name it
    | NoChildClient               // a token was minted, but no client could be built for it
    | ReadFailed(cleaned: bool)   // the read raised; the clean-up call returned normally or not
    | BadCreds(released: bool)    // the creds had the wrong shape; the token was given back or not

  /** A leased token; when it was stamped and for how long; whether Vault had said how long. */
  datatype Lease = Lease(child: Child, stamped: real, childTtl: int, reported: bool)

  /** Issued creds: the checkout's lifetime, worked out at a time from the lease. */
  datatype Made = Made(ttl: int, handle: nat, lease: Lease, workedAt: real)

  predicate Dead(v: Vault, i: nat) {
    i < |v.tokens| ==> v.tokens[i].revoked || Expires(v.tokens[i]) <= v.now
  }

  // ---------------------------------------------------------------- Vault and the clock

  function Wait(t: real, d: real): real { if d > 0.0 then t + d else t }

  function Clock(sc: Script, v: Vault): (Vault, real) {
    var t := Wait(v.now, sc(v.moves).before);
    (v.(now := t, moves := v.moves + 1), t)
  }

  function Create(sc: Script, v: Vault, client: nat, ttl: nat): (r: (Vault, Created)) {
    var m := sc(v.moves);
    var v1 := v.(now := Wait(v.now, m.before), moves := v.moves + 1);
    if m.refuses then (v1, Forbidden)
    else if !m.mints && !m.answers then (v1, Broken)
    else
      var granted := if m.granted <= ttl then m.granted else ttl;
      var v2 := v1.(tokens := v1.tokens + [Token(client, v1.now, granted, false)], now := Wait(v1.now, m.after));
      (v2, if !m.answers then Broken
           else if m.malformed then Answer(Malformed)
           else Answer(Auth(|v1.tokens|, if m.reports then Some(granted) else None)))
  }

  /** A call made with a child token, to read with it or to revoke it. */
  function Use(sc: Script, v: Vault, token: nat, revoke: bool): (r: (Vault, bool)) {
    var m := sc(v.moves);
    var tokens := if m.took || (m.ok && revoke) then Revoked(v.tokens, token) else v.tokens;
    (Vault(Wait(v.now, m.before), tokens, v.moves + 1), m.ok)
  }

  function Revoked(tokens: seq<Token>, token: nat): seq<Token> {
    if token < |tokens| then tokens[token := tokens[token].(revoked := true)] else tokens
  }

  // ---------------------------------------------------------------- the session

  function GetClient(sc: Script, s: State): (r: (State, Option<nat>)) {
    if s.client.Some? then (s, s.client)
    else
      var m, s1 := sc(s.vault.moves), s.(vault := Clock(sc, s.vault).0);
      if m.refuses then (s1, None) else (s1.(client := Some(s.clients), clients := s.clients + 1), Some(s.clients))
  }

  /** The token, if any, that came into being between two moments. */
  function Minted(before: Vault, after: Vault): set<nat> {
    if |after.tokens| > |before.tokens| then {|before.tokens|} else {}
  }

  /** One create call. A token minted by it counts as abandoned until it is read with. */
  function CreateAs(sc: Script, s: State, client: nat, ttl: nat): (r: (State, Created)) {
    var (v, created) := Create(sc, s.vault, client, ttl);
    (s.(vault := v, abandoned := s.abandoned + Minted(s.vault, v)), created)
  }

  /** Once, and once more with a new client if the first was forbidden; and the client that made the last call. */
  function Call(sc: Script, s: State, ttl: nat): (r: (State, Option<Created>, nat)) {
    var (s1, c) := GetClient(sc, s);
    if c == None then (s1, None, 0)
    else
      var (s2, first) := CreateAs(sc, s1, c.value, ttl);
      if first.Forbidden? then CallAgain(sc, s2.(client := None), ttl) else (s2, Some(first), c.value)
  }

  function CallAgain(sc: Script, s: State, ttl: nat): (r: (State, Option<Created>, nat)) {
    var (s1, c) := GetClient(sc, s);
    if c == None then (s1, None, 0)
    else
      var (s2, second) := CreateAs(sc, s1, c.value, ttl);
      (s2, Some(second), c.value)
  }

  // ---------------------------------------------------------------- issue

  function ChildTtl(ttl: int): (t: nat)
    ensures 1 <= t <= CHILD_TOKEN_MAX_TTL
  {
    Max(1, Min(ttl, CHILD_TOKEN_MAX_TTL))
  }

  function Reported(d: Option<int>): bool { d.Some? && d.value > 0 }

  function Narrowed(ttl: int, d: Option<int>): int {
    if Reported(d) then Min(ttl, d.value) else ttl
  }

  function Issue(sc: Script, s: State, ttl: int): (r: (State, Outcome<Lease, Failure>)) {
    var (s1, created, _) := Call(sc, s, ChildTtl(ttl));
    match created
    case None => (s1, Raised(NoClient))
    case Some(Forbidden) => (s1, Raised(MintFailed))
    case Some(Broken) => (s1, Raised(MintFailed))
    case Some(Answer(Malformed)) => (s1, Raised(BadReply))
    case Some(Answer(Auth(token, duration))) => Lend(sc, s1, token, Narrowed(ChildTtl(ttl), duration), Reported(duration))
  }

  /** A client for the token, if one can be built. */
  function Lend(sc: Script, s: State, token: nat, childTtl: int, reported: bool): (r: (State, Outcome<Lease, Failure>)) {
    var s1 := s.(vault := s.vault.(moves := s.vault.moves + 1));
    if !sc(s.vault.moves).builds then (s1, Raised(NoChildClient)) else Stamp(sc, s1, token, childTtl, reported)
  }

  /** The expiry stamp, and the first read with the token. */
  function Stamp(sc: Script, s: State, token: nat, childTtl: int, reported: bool): (r: (State, Outcome<Lease, Failure>)) {
    var (v, t) := Clock(sc, s.vault);
    var lease := Lease(Child(token, t + childTtl as real), t, childTtl, reported);
    var (s1, failed) := Read(sc, s.(vault := v), lease.child);
    (s1, if failed.Some? then Raised(failed.value) else Ok(lease))
  }

  /** Hold a token that can be read with; end one that cannot, if possible. */
  function Read(sc: Script, s: State, child: Child): (r: (State, Option<Failure>)) {
    var (v, ok) := Use(sc, s.vault, child.token, false);
    if ok then (s.(vault := v, abandoned := s.abandoned - {child.token}, held := s.held[child.token := child]), None)
    else
      var (v1, cleaned) := Use(sc, v, child.token, true);
      (if cleaned then s.(vault := v1, abandoned := s.abandoned - {child.token}, ended := s.ended + {child.token}) else s.(vault := v1),
       Some(ReadFailed(cleaned)))
  }

  // ---------------------------------------------------------------- revoke

  function Drop(s: State, token: nat): State {
    s.(held := s.held - {token}, ended := s.ended + {token})
  }

  function Revoke(sc: Script, s: State, handle: Option<nat>): (r: (State, bool)) {
    if handle == None || handle.value !in s.held then (s, true)
    else
      var child := s.held[handle.value];
      var (v, t) := Clock(sc, s.vault);
      if t >= child.expiresAt then (Drop(s.(vault := v), handle.value), true)
      else
        var (v1, ok) := Use(sc, v, child.token, true);
        if ok then (Drop(s.(vault := v1), handle.value), true) else (s.(vault := v1), false)
  }

  /** A restart forgets the tokens; none of them is ended by it. */
  function Restart(s: State): State {
    s.(held := map[], client := None, abandoned := s.abandoned + s.held.Keys)
  }

  // ---------------------------------------------------------------- Kubernetes creds

  /** The checkout's lifetime is cut to what is left of its token's. */
  function Remaining(wanted: int, expiresAt: real, now: real): int {
    Max(1, Min(wanted, Trunc(expiresAt - now)))
  }

  function IssueCreds(sc: Script, s: State, ttl: int): (r: (State, Outcome<Made, Failure>)) {
    var (s1, leased) := Issue(sc, s, ttl);
    match leased
    case Raised(e) => (s1, Raised(e))
    case Ok(lease) =>
      var m := sc(s1.vault.moves);
      if !m.wellFormed then
        var (s2, released) := Revoke(sc, s1.(vault := s1.vault.(moves := s1.vault.moves + 1)), Some(lease.child.token));
        (s2, Raised(BadCreds(released)))
      else
        var (v, t) := Clock(sc, s1.vault);
        (s1.(vault := v), Ok(Made(Remaining(Narrowed(ttl, m.duration), lease.child.expiresAt, t), lease.child.token, lease, t)))
  }
}
