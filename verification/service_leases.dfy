/**
 The broker's checkouts beside the tokens they stand on: how long a checkout
 outlives its token, and which revocations it reports have ended one.
 */
module ServiceLeases {
  import opened Base
  import opened RegistrySpec
  import T = RegistryTheorems
  import S = ServiceSpec
  import opened L = LeasesSpec
  import LT = LeasesTheorems
  import LO = LeasesOutcomes

  // ---------------------------------------------------------------- lifetimes

  /** What the Kubernetes issuer returns for creds: the token's name is both handle and accessor. */
  function CredsIssued(made: Made, name: nat -> string, value: Fields): S.Issued {
    S.Issued(value, made.ttl, Some(name(made.handle)), Some(name(made.handle)))
  }

  /** The turn's issuer call was this issue of creds, and the turn was stamped after it. */
  ghost predicate FromCreds(sc: Script, s: State, ttl: int, name: nat -> string, turn: S.Turn) {
    && LT.Inv(s) && IssueCreds(sc, s, ttl).1.Ok? && IssueCreds(sc, s, ttl).0.vault.now <= turn.stamp
    && turn.issued.Ok? && turn.issued.value == CredsIssued(IssueCreds(sc, s, ttl).1.value, name, turn.issued.value.value)
  }

  /**
   A fresh Kubernetes checkout against the token it was issued with, which its
   handle names. It passes the token's expiry by at most the time from the token's
   minting to its own stamp, and by what was asked for and not granted; with a
   reported grant the latter does not count, and with more than a second of life
   neither does the time between the token's stamp and the working out of the
   lifetime.
   */
  lemma FreshOverrun(sc: Script, s: State, cap: S.Cap, session: string, ttl: int, name: nat -> string, turn: S.Turn)
    requires FromCreds(sc, s, ttl, name, turn)
    ensures var (s1, r) := IssueCreds(sc, s, ttl);
            var made, e := r.value, S.Fresh(cap, session, ttl, turn, turn.issued.value);
            && e.info.handle == Some(name(made.handle)) && made.handle in s1.held && made.handle < |s1.vault.tokens|
            && var token := s1.vault.tokens[made.handle];
            var lifetime, over := S.Lifetime(ttl, made.ttl), e.info.expiresAt - Expires(token);
            && 1 <= lifetime <= CHILD_TOKEN_MAX_TTL && e.info.expiresAt == turn.stamp + lifetime as real
            && over <= turn.stamp - token.minted + LO.Worst(ttl, made.lease.reported, token.granted) as real
            && (made.lease.reported && lifetime > 1 ==> over <= (turn.stamp - made.workedAt) + (made.lease.stamped - token.minted))
  {
    LT.CredsIs(sc, s, ttl);
    LO.OverrunIs(sc, s, ttl, turn.stamp, S.Lifetime(ttl, turn.issued.value.ttl));
  }

  /** With its grant reported or not, and of this length, the checkout stays within `slack` of the time from minting to stamp. */
  ghost predicate FreshWithin(sc: Script, s: State, cap: S.Cap, session: string, ttl: int, name: nat -> string, turn: S.Turn,
                              reported: bool, granted: nat, slack: int)
    requires FromCreds(sc, s, ttl, name, turn)
  {
    var (s1, r) := IssueCreds(sc, s, ttl);
    r.value.handle < |s1.vault.tokens| &&
    var token := s1.vault.tokens[r.value.handle];
    r.value.lease.reported == reported && token.granted == granted ==>
      S.Fresh(cap, session, ttl, turn, turn.issued.value).info.expiresAt - Expires(token) <= turn.stamp - token.minted + slack as real
  }

  ghost predicate FreshAlwaysWithin(ttl: int, reported: bool, granted: nat, slack: int) {
    forall sc, s, cap, session, name, turn :: FromCreds(sc, s, ttl, name, turn) ==>
      FreshWithin(sc, s, cap, session, ttl, name, turn, reported, granted, slack)
  }

  /**
   Over every world, state, capability and turn: how far a fresh checkout can
   outlive its token, exactly. It is not at all beyond the time from minting to
   stamp if and only if the grant is reported, or is all that was asked for.
   */
  lemma FreshOverrunIff(ttl: int, reported: bool, granted: nat, slack: int)
    requires granted <= ChildTtl(ttl) && (reported ==> granted >= 1)
    ensures FreshAlwaysWithin(ttl, reported, granted, slack) <==> slack >= LO.Worst(ttl, reported, granted)
    ensures FreshAlwaysWithin(ttl, reported, granted, 0) <==> reported || granted == ChildTtl(ttl)
  {
    FreshWorst(ttl, reported, granted, slack);
    FreshWorst(ttl, reported, granted, 0);
  }

  lemma FreshWorst(ttl: int, reported: bool, granted: nat, slack: int)
    requires granted <= ChildTtl(ttl) && (reported ==> granted >= 1)
    ensures FreshAlwaysWithin(ttl, reported, granted, slack) <==> slack >= LO.Worst(ttl, reported, granted)
  {
    if slack >= LO.Worst(ttl, reported, granted) {
      forall sc, s, cap, session, name, turn | FromCreds(sc, s, ttl, name, turn)
        ensures FreshWithin(sc, s, cap, session, ttl, name, turn, reported, granted, slack)
      {
        FreshOverrun(sc, s, cap, session, ttl, name, turn);
      }
    } else {
      FreshReached(ttl, reported, granted, slack);
    }
  }

  lemma FreshExpires(cap: S.Cap, session: string, ttl: int, turn: S.Turn, issued: S.Issued, lifetime: int)
    requires turn.issued == Ok(issued) && issued.ttl == lifetime && 1 <= lifetime <= ChildTtl(ttl)
    ensures S.Fresh(cap, session, ttl, turn, issued).info.expiresAt == turn.stamp + lifetime as real
  {
  }

  lemma FreshBeyond(sc: Script, cap: S.Cap, session: string, ttl: int, name: nat -> string, turn: S.Turn,
                    reported: bool, granted: nat, slack: int)
    requires FromCreds(sc, NEW, ttl, name, turn) && turn.stamp == 0.0
    requires granted <= ChildTtl(ttl) && (reported ==> granted >= 1) && slack < LO.Worst(ttl, reported, granted)
    requires var (s, r) := IssueCreds(sc, NEW, ttl);
             && s.vault.tokens == [Token(0, 0.0, granted, false)] && r.value.handle == 0 && r.value.lease.reported == reported
             && r.value.ttl == if reported then granted else ChildTtl(ttl)
    ensures !FreshWithin(sc, NEW, cap, session, ttl, name, turn, reported, granted, slack)
  {
    FreshExpires(cap, session, ttl, turn, turn.issued.value, if reported then granted else ChildTtl(ttl));
  }

  lemma FreshReached(ttl: int, reported: bool, granted: nat, slack: int)
    requires granted <= ChildTtl(ttl) && (reported ==> granted >= 1) && slack < LO.Worst(ttl, reported, granted)
    ensures !FreshAlwaysWithin(ttl, reported, granted, slack)
  {
    var sc := LO.Granting(ttl, reported, granted);
    var name: nat -> string := n => "a";
    var issued := CredsIssued(IssueCreds(sc, NEW, ttl).1.value, name, map[]);
    var turn := S.Turn(S.Attribution("h", None, None, "peer"), 0.0, 0.0, Ok(issued), "i");
    var cap := S.Cap("c", "k", 900, S.Delivery("helper", None, [], None), "", "", true, []);
    assert FromCreds(sc, NEW, ttl, name, turn);
    FreshBeyond(sc, cap, "s", ttl, name, turn, reported, granted, slack);
  }

  lemma FreshSpan(cap: S.Cap, session: string, ttl: int, turn: S.Turn, issued: S.Issued, life: int)
    requires issued.ttl == life && 1 <= life <= ChildTtl(ttl)
    ensures var e := S.Fresh(cap, session, ttl, turn, issued);
            e.info.issuedAt == turn.stamp && e.info.expiresAt - e.info.issuedAt == life as real
  {
  }

  lemma IssuedLife(sc: Script, s: State, ttl: int, name: nat -> string, turn: S.Turn)
    requires FromCreds(sc, s, ttl, name, turn)
    ensures LT.Inv(s) && IssueCreds(sc, s, ttl).1.Ok? && turn.issued.Ok?
    ensures turn.issued.value.ttl == IssueCreds(sc, s, ttl).1.value.ttl && 1 <= turn.issued.value.ttl <= ChildTtl(ttl)
  {
    LT.CredsIs(sc, s, ttl);
  }

  /**
   How long a fresh checkout lives, exactly: as long as its creds were issued for,
   which is no longer than their own duration, if they have one, or a second.
   */
  lemma FreshLife(sc: Script, s: State, cap: S.Cap, session: string, ttl: int, name: nat -> string, turn: S.Turn)
    requires FromCreds(sc, s, ttl, name, turn)
    ensures LO.LastCreate(sc, s).Some?
    ensures var k, e := LO.LastCreate(sc, s).value, S.Fresh(cap, session, ttl, turn, turn.issued.value);
            var duration, life := sc(k + 4).duration, IssueCreds(sc, s, ttl).1.value.ttl;
            && e.info.issuedAt == turn.stamp && e.info.expiresAt - e.info.issuedAt == life as real
            && LO.Longest(life, ttl, duration, LO.LeftOf(sc, k, ttl))
            && (duration.Some? && duration.value > 0 ==> life <= Max(1, duration.value))
  {
    IssuedLife(sc, s, ttl, name, turn);
    LO.CredsLifetime(sc, s, ttl);
    var k, life := LO.LastCreate(sc, s).value, IssueCreds(sc, s, ttl).1.value.ttl;
    LO.LongestWithin(life, ttl, sc(k + 4).duration, LO.LeftOf(sc, k, ttl));
    FreshSpan(cap, session, ttl, turn, turn.issued.value, life);
  }

  // ---------------------------------------------------------------- revocations

  /** Which token a checkout's handle names. */
  function Handle(number: string -> nat, handle: Option<string>): Option<nat> {
    match handle case None => None case Some(h) => Some(number(h))
  }

  /** Serving the registry's calls to this kind of issuer, in order. */
  function Serve(sc: Script, s: State, number: string -> nat, kind: string, log: seq<Attempt>): (s1: State)
    decreases |log|
  {
    if log == [] then s
    else
      Serve(sc, if log[0].kind == kind then L.Revoke(sc, s, Handle(number, log[0].handle)).0 else s, number, kind, log[1..])
  }

  /** The outcomes the registry recorded are those the issuer gave. */
  ghost predicate Agrees(sc: Script, s: State, number: string -> nat, kind: string, log: seq<Attempt>)
    decreases |log|
  {
    log == [] ||
    if log[0].kind == kind then
      var (s1, ok) := L.Revoke(sc, s, Handle(number, log[0].handle)); log[0].ok == ok && Agrees(sc, s1, number, kind, log[1..])
    else Agrees(sc, s, number, kind, log[1..])
  }

  /** A call about this token that was recorded as a success. */
  ghost predicate Ended(log: seq<Attempt>, number: string -> nat, kind: string, n: nat) {
    exists k :: 0 <= k < |log| && log[k].kind == kind && log[k].ok && Handle(number, log[k].handle) == Some(n)
  }

  lemma ServedOne(sc: Script, s: State, number: string -> nat, kind: string, a: Attempt, n: nat)
    requires LT.Inv(s) && n < |s.vault.tokens|
    ensures var s1 := if a.kind == kind then L.Revoke(sc, s, Handle(number, a.handle)).0 else s;
            && LT.Inv(s1) && LT.Aged(s.vault, s1.vault) && |s1.vault.tokens| == |s.vault.tokens|
            && (n !in s.held ==> n !in s1.held && s1.vault.tokens[n] == s.vault.tokens[n])
            && (n in s.held && n !in s1.held ==> Dead(s1.vault, n))
            && (n in s.held && a.kind == kind && Handle(number, a.handle) == Some(n) && L.Revoke(sc, s, Some(n)).1 ==> n !in s1.held)
  {
    LT.RevokeIs(sc, s, Handle(number, a.handle));
  }

  /**
   What serving a revocation's calls does to one token. If it was held, a
   recorded success means it is dead; if it was not, it is not touched at all,
   whatever was recorded.
   */
  lemma {:induction false} ServedFate(sc: Script, s: State, number: string -> nat, kind: string, log: seq<Attempt>, n: nat)
    requires LT.Inv(s) && n < |s.vault.tokens| && Agrees(sc, s, number, kind, log)
    ensures var s1 := Serve(sc, s, number, kind, log);
            && LT.Inv(s1) && LT.Aged(s.vault, s1.vault) && |s1.vault.tokens| == |s.vault.tokens|
            && (n !in s.held ==> n !in s1.held && s1.vault.tokens[n] == s.vault.tokens[n])
            && (n in s.held && (n !in s1.held || Ended(log, number, kind, n)) ==> n !in s1.held && Dead(s1.vault, n))
    decreases |log|
  {
    if log != [] {
      var a, rest := log[0], log[1..];
      var s1 := if a.kind == kind then L.Revoke(sc, s, Handle(number, a.handle)).0 else s;
      ServedOne(sc, s, number, kind, a, n);
      ServedFate(sc, s1, number, kind, rest, n);
      var s2 := Serve(sc, s1, number, kind, rest);
      LT.AgedTwice(s.vault, s1.vault, s2.vault);
      if n in s.held && n !in s1.held {
        LT.AgedDead(s1.vault, s2.vault, n);
      } else if n in s.held && Ended(log, number, kind, n) {
        EndedLater(log, number, kind, n);
      }
    }
  }

  lemma EndedLater(log: seq<Attempt>, number: string -> nat, kind: string, n: nat)
    requires log != [] && Ended(log, number, kind, n)
    ensures (log[0].kind == kind && log[0].ok && Handle(number, log[0].handle) == Some(n)) || Ended(log[1..], number, kind, n)
  {
    var k :| 0 <= k < |log| && log[k].kind == kind && log[k].ok && Handle(number, log[k].handle) == Some(n);
    if k > 0 { assert log[1..][k - 1] == log[k]; }
  }

  /** The calls of one registry operation. */
  function NewCalls(r: Reg, r1: Reg): seq<Attempt> {
    if |r.attempts| <= |r1.attempts| then r1.attempts[|r.attempts|..] else []
  }

  lemma CallsGrow(env: Env, r: Reg, ids: seq<string>, reason: string)
    requires Unique(r.live)
    ensures |r.attempts| <= |Revoking(env, r, ids, reason).attempts|
  {
    T.RevokeLog(env, r, ids, reason, 0);
  }

  ghost function Revoking(env: Env, r: Reg, ids: seq<string>, reason: string): Reg {
    RegistrySpec.Revoke(env, r, ids, reason).0
  }

  /**
   Which ids a revocation reports have a dead token. A reported checkout of this
   kind whose token the broker held is dead at Vault when the calls are over. One
   whose token it did not hold is as dead or alive as the script had it before,
   and dead at the latest when the longest lifetime has passed since its minting.
   */
  lemma ReportedTokens(env: Env, r: Reg, ids: seq<string>, reason: string, q: string,
                       sc: Script, s: State, number: string -> nat, kind: string, n: nat)
    requires Unique(r.live) && LT.Inv(s) && n < |s.vault.tokens|
    requires Agrees(sc, s, number, kind, NewCalls(r, Revoking(env, r, ids, reason)))
    requires var e := Find(r.live, q); e.Some? && e.value.info.issuerKind == kind && Handle(number, e.value.info.handle) == Some(n)
    requires var out := RegistrySpec.Revoke(env, r, ids, reason).1; out.Ok? && q in out.value
    ensures var s1 := Serve(sc, s, number, kind, NewCalls(r, Revoking(env, r, ids, reason)));
            && |s1.vault.tokens| == |s.vault.tokens|
            && (n in s.held ==> Dead(s1.vault, n))
            && (n !in s.held ==> s1.vault.tokens[n] == s.vault.tokens[n])
            && (s.vault.tokens[n].minted + CHILD_TOKEN_MAX_TTL as real <= s1.vault.now ==> Dead(s1.vault, n))
  {
    var r1 := Revoking(env, r, ids, reason);
    var log := NewCalls(r, r1);
    CallsGrow(env, r, ids, reason);
    T.RevokeFate(env, r, ids, reason, q);
    var k :| |r.attempts| <= k < |r1.attempts| && r1.attempts[k].id == q && r1.attempts[k].ok;
    T.RevokeLog(env, r, ids, reason, k);
    assert log[k - |r.attempts|] == r1.attempts[k];
    ServedFate(sc, s, number, kind, log, n);
    var s1 := Serve(sc, s, number, kind, log);
    if s.vault.tokens[n].minted + CHILD_TOKEN_MAX_TTL as real <= s1.vault.now { LT.DeadByTtl(s1.vault, n); }
  }

  /** With nothing held, every call returns normally and nothing happens. */
  lemma {:induction false} NothingHeld(sc: Script, s: State, number: string -> nat, kind: string, log: seq<Attempt>)
    requires s.held == map[]
    ensures Serve(sc, s, number, kind, log) == s
    ensures Agrees(sc, s, number, kind, log) <==> forall k :: 0 <= k < |log| && log[k].kind == kind ==> log[k].ok
    decreases |log|
  {
    if log != [] {
      NothingHeld(sc, s, number, kind, log[1..]);
      if forall k :: 0 <= k < |log[1..]| && log[1..][k].kind == kind ==> log[1..][k].ok {
        assert forall k :: 0 < k < |log| ==> log[k] == log[1..][k - 1];
      } else {
        var k :| 0 <= k < |log[1..]| && log[1..][k].kind == kind && !log[1..][k].ok;
        assert log[k + 1] == log[1..][k];
      }
    }
  }

  /**
   A recovery after a restart reports every recorded checkout of this kind as
   revoked, and ends no token: each is dead afterwards only if it was before.
   */
  lemma RecoveryEndsNothing(env: Env, r: Reg, sc: Script, s: State, number: string -> nat, kind: string, i: nat)
    requires r.live == [] && T.DistinctRecords(r.file) && i < |r.file| && r.file[i].info.issuerKind == kind && kind in env.kinds
    requires var r1 := Recover(env, r).0; Agrees(sc, Restart(s), number, kind, NewCalls(r, r1))
    ensures var (r1, out) := Recover(env, r);
            && Serve(sc, Restart(s), number, kind, NewCalls(r, r1)).vault == s.vault
            && Find(r1.live, r.file[i].info.id) == None
            && (out.Ok? ==> r.file[i].info.id in out.value)
  {
    var r1 := Recover(env, r).0;
    var log, id := NewCalls(r, r1), r.file[i].info.id;
    NothingHeld(sc, Restart(s), number, kind, log);
    T.RestoreUnique(r.file);
    CallsGrow(env, r.(live := Restore(r.live, r.file)), RecordIds(r.file), "recovered");
    T.RecoverFate(env, r, i);
    forall k | |r.attempts| <= k < |r1.attempts| && r1.attempts[k].id == id ensures r1.attempts[k].ok {
      RecoveredKind(env, r, i, k);
      assert log[k - |r.attempts|] == r1.attempts[k];
    }
  }

  lemma RecoveredKind(env: Env, r: Reg, i: nat, k: nat)
    requires r.live == [] && T.DistinctRecords(r.file) && i < |r.file|
    requires |r.attempts| <= k < |Recover(env, r).0.attempts| && Recover(env, r).0.attempts[k].id == r.file[i].info.id
    ensures Recover(env, r).0.attempts[k].kind == r.file[i].info.issuerKind
  {
    T.RestoreUnique(r.file);
    T.RestoreFind(r.file, i);
    T.RevokeLog(env, r.(live := Restore(r.live, r.file)), RecordIds(r.file), "recovered", k);
  }
}
