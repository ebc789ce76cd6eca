/**
 What the world must do for a child token to be left behind, or to be outlived
 by its checkout: conditions on the moves an issue meets.
 */
module LeasesOutcomes {
  import opened Base
  import opened LeasesSpec
  import opened LeasesTheorems

  // ---------------------------------------------------------------- every run

  datatype Op = Lease(ttl: int) | Creds(ttl: int) | End(handle: Option<nat>) | Reboot

  function Do(sc: Script, s: State, op: Op): State {
    match op
    case Lease(ttl) => Issue(sc, s, ttl).0
    case Creds(ttl) => IssueCreds(sc, s, ttl).0
    case End(handle) => Revoke(sc, s, handle).0
    case Reboot => Restart(s)
  }

  function After(sc: Script, s: State, ops: seq<Op>): State
    decreases |ops|
  {
    if ops == [] then s else After(sc, Do(sc, s, ops[0]), ops[1..])
  }

  ghost predicate Moves(s: State, s1: State) {
    Inv(s1) && Aged(s.vault, s1.vault) && s.ended <= s1.ended && s.abandoned <= s1.abandoned
  }

  lemma LeaseMoves(sc: Script, s: State, ttl: int)
    requires Inv(s)
    ensures Moves(s, Issue(sc, s, ttl).0)
  {
    IssueIs(sc, s, ttl);
  }

  lemma CredsMoves(sc: Script, s: State, ttl: int)
    requires Inv(s)
    ensures Moves(s, IssueCreds(sc, s, ttl).0)
  {
    CredsIs(sc, s, ttl);
    LeaseMoves(sc, s, ttl);
    var (s1, leased) := Issue(sc, s, ttl);
    if leased.Ok? && !sc(s1.vault.moves).wellFormed {
      var waited := s1.(vault := s1.vault.(moves := s1.vault.moves + 1));
      ClockOnly(s1, waited);
      EndMoves(sc, waited, Some(leased.value.child.token));
    }
  }

  lemma EndMoves(sc: Script, s: State, handle: Option<nat>)
    requires Inv(s)
    ensures Moves(s, Revoke(sc, s, handle).0)
  {
    RevokeIs(sc, s, handle);
  }

  lemma DoMoves(sc: Script, s: State, op: Op)
    requires Inv(s)
    ensures Moves(s, Do(sc, s, op))
  {
    match op
    case Lease(ttl) => LeaseMoves(sc, s, ttl);
    case Creds(ttl) => CredsMoves(sc, s, ttl);
    case End(handle) => EndMoves(sc, s, handle);
    case Reboot => RestartIs(s);
  }

  /**
   Over any sequence of issues, revocations and restarts: every token ever minted
   is counted in exactly one place and stays known; one that was ended is dead for
   good; and one that is alive is held, or was abandoned.
   */
  lemma {:induction false} RunInv(sc: Script, s: State, ops: seq<Op>)
    requires Inv(s)
    ensures var s1 := After(sc, s, ops);
            && Moves(s, s1)
            && forall i :: 0 <= i < |s1.vault.tokens| && !Dead(s1.vault, i) ==> i in s1.held || i in s1.abandoned
    decreases |ops|
  {
    if ops != [] {
      var s1 := Do(sc, s, ops[0]);
      DoMoves(sc, s, ops[0]);
      RunInv(sc, s1, ops[1..]);
      AgedTwice(s.vault, s1.vault, After(sc, s1, ops[1..]).vault);
    }
  }

  // ---------------------------------------------------------------- which moves leave a token behind

  /** The move of the last create call an issue makes, if it gets as far as one. */
  function LastCreate(sc: Script, s: State): (k: Option<nat>) {
    var m := s.vault.moves;
    if s.client == None && sc(m).refuses then None
    else
      var first := if s.client == None then m + 1 else m;
      Some(if sc(first).refuses && !sc(first + 1).refuses then first + 2 else first)
  }

  /** The token was made at move `k`. */
  predicate Makes(sc: Script, k: nat) {
    !sc(k).refuses && (sc(k).mints || sc(k).answers)
  }

  /** The token made at move `k` is named in the reply, and a client can be built for it. */
  predicate Usable(sc: Script, k: nat) {
    !sc(k).refuses && sc(k).answers && !sc(k).malformed && sc(k + 1).builds
  }

  function Asked(sc: Script, k: nat, ttl: nat): nat {
    if sc(k).granted <= ttl then sc(k).granted else ttl
  }

  /** What the create call at move `k` says. */
  function Said(sc: Script, k: nat, token: nat, ttl: nat): Created {
    if sc(k).refuses then Forbidden
    else if !sc(k).answers then Broken
    else if sc(k).malformed then Answer(Malformed)
    else Answer(Auth(token, if sc(k).reports then Some(Asked(sc, k, ttl)) else None))
  }

  /** What a call through the session leaves, told from the script. */
  ghost predicate CallEnds(sc: Script, s: State, k: Option<nat>, ttl: nat, s1: State, created: Option<Created>) {
    match k
    case None => created == None && s1.abandoned == s.abandoned
    case Some(k) =>
      && s1.abandoned == s.abandoned + (if Makes(sc, k) then {|s.vault.tokens|} else {})
      && (if sc(k).refuses then created == None || created == Some(Forbidden)
          else created == Some(Said(sc, k, |s.vault.tokens|, ttl)) && s1.vault.moves == k + 1)
  }

  lemma CreateEnds(sc: Script, s: State, client: nat, ttl: nat)
    ensures var (s1, r) := CreateAs(sc, s, client, ttl);
            && r == Said(sc, s.vault.moves, |s.vault.tokens|, ttl) && s1.vault.moves == s.vault.moves + 1
            && s1.abandoned == s.abandoned + (if Makes(sc, s.vault.moves) then {|s.vault.tokens|} else {})
            && (r.Forbidden? ==> s1.vault.tokens == s.vault.tokens)
  {
  }

  lemma CallEndsSo(sc: Script, s: State, ttl: nat)
    ensures var (s1, created, _) := Call(sc, s, ttl); CallEnds(sc, s, LastCreate(sc, s), ttl, s1, created)
  {
    var (s1, c) := GetClient(sc, s);
    if c.Some? {
      CreateEnds(sc, s1, c.value, ttl);
      var (s2, first) := CreateAs(sc, s1, c.value, ttl);
      if first.Forbidden? {
        var s3 := s2.(client := None);
        var (s4, c2) := GetClient(sc, s3);
        if c2.Some? { CreateEnds(sc, s4, c2.value, ttl); }
      }
    }
  }

  /** From a named token on: three moves to the end of the first read, four with the clean-up. */
  lemma LendEnds(sc: Script, s: State, token: nat, childTtl: int, reported: bool)
    requires token in s.abandoned
    ensures var (s1, r) := Lend(sc, s, token, childTtl, reported);
            var k := s.vault.moves;
            && s1.abandoned == (if sc(k).builds && (sc(k + 2).ok || sc(k + 3).ok) then s.abandoned - {token} else s.abandoned)
            && (r.Ok? <==> sc(k).builds && sc(k + 2).ok)
            && (r.Ok? ==> s1.vault.moves == k + 3 && r.value.childTtl == childTtl && r.value.child.token == token &&
                          r.value.child.expiresAt == r.value.stamped + childTtl as real &&
                          s1.vault.now == Wait(r.value.stamped, sc(k + 2).before) && s1.held == s.held[token := r.value.child])
  {
    var s1 := s.(vault := s.vault.(moves := s.vault.moves + 1));
    if sc(s.vault.moves).builds {
      var (v, t) := Clock(sc, s1.vault);
      ReadEnds(sc, s1.(vault := v), Child(token, t + childTtl as real));
    }
  }

  lemma ReadEnds(sc: Script, s: State, child: Child)
    ensures var (s1, failed) := Read(sc, s, child);
            var k := s.vault.moves;
            && (failed == None <==> sc(k).ok)
            && s1.abandoned == (if sc(k).ok || sc(k + 1).ok then s.abandoned - {child.token} else s.abandoned)
            && (failed == None ==> s1.vault.moves == k + 1 && s1.vault.now == Wait(s.vault.now, sc(k).before) &&
                                   s1.held == s.held[child.token := child])
  {
  }

  /**
   An issue leaves no token behind if and only if the last create call is never
   made, is refused, or makes none; or the token is named, a client is built for
   it, and it can be read with or else ended. It succeeds exactly when it can be
   read with.
   */
  lemma NothingLeftIff(sc: Script, s: State, ttl: int)
    requires Inv(s)
    ensures var (s1, r) := Issue(sc, s, ttl);
            match LastCreate(sc, s)
            case None => s1.abandoned == s.abandoned && r.Raised?
            case Some(k) =>
              && (s1.abandoned == s.abandoned <==> !Makes(sc, k) || (Usable(sc, k) && (sc(k + 3).ok || sc(k + 4).ok)))
              && (r.Ok? <==> Usable(sc, k) && sc(k + 3).ok)
  {
    CallEndsSo(sc, s, ChildTtl(ttl));
    var (s1, created, _) := Call(sc, s, ChildTtl(ttl));
    assert |s.vault.tokens| !in s.abandoned;
    IssueSplits(sc, s, ttl);
    var (s2, r) := Issue(sc, s, ttl);
    if Named(created) {
      var Auth(token, duration) := created.value.reply;
      LendEnds(sc, s1, token, Narrowed(ChildTtl(ttl), duration), Reported(duration));
    }
    Decided(sc, s, LastCreate(sc, s), ChildTtl(ttl), s1, created, s2.abandoned, r.Ok?);
  }

  /** The reply names a token. */
  predicate Named(created: Option<Created>) {
    created.Some? && created.value.Answer? && created.value.reply.Auth?
  }

  /** What the call left, and the three or four moves after it, decide. */
  lemma Decided(sc: Script, s: State, k: Option<nat>, ttl: nat, s1: State, created: Option<Created>, left: set<nat>, ok: bool)
    requires CallEnds(sc, s, k, ttl, s1, created) && |s.vault.tokens| !in s.abandoned
    requires if !Named(created) then left == s1.abandoned && !ok else
             var m := s1.vault.moves;
             && left == (if sc(m).builds && (sc(m + 2).ok || sc(m + 3).ok) then s1.abandoned - {created.value.reply.token} else s1.abandoned)
             && (ok <==> sc(m).builds && sc(m + 2).ok)
    ensures match k
            case None => left == s.abandoned && !ok
            case Some(k) =>
              && (left == s.abandoned <==> !Makes(sc, k) || (Usable(sc, k) && (sc(k + 3).ok || sc(k + 4).ok)))
              && (ok <==> Usable(sc, k) && sc(k + 3).ok)
  {
    assert s.abandoned + {|s.vault.tokens|} - {|s.vault.tokens|} == s.abandoned;
    assert s.abandoned + {} == s.abandoned;
  }

  lemma IssueSplits(sc: Script, s: State, ttl: int)
    ensures var (s1, created, _) := Call(sc, s, ChildTtl(ttl));
            match created
            case Some(Answer(Auth(token, duration))) =>
              Issue(sc, s, ttl) == Lend(sc, s1, token, Narrowed(ChildTtl(ttl), duration), Reported(duration))
            case _ => Issue(sc, s, ttl).0 == s1 && Issue(sc, s, ttl).1.Raised?
  {
  }

  /** How long the lease is for on a token made at move `k`. */
  function LeasedFor(sc: Script, k: nat, ttl: int): int {
    Narrowed(ChildTtl(ttl), if sc(k).reports then Some(Asked(sc, k, ChildTtl(ttl))) else None)
  }

  lemma LeaseSays(sc: Script, s: State, ttl: int)
    requires Inv(s) && Issue(sc, s, ttl).1.Ok?
    ensures var (s1, r) := Issue(sc, s, ttl);
            var k := LastCreate(sc, s);
            && k.Some? && s1.vault.moves == k.value + 4 && r.value.childTtl == LeasedFor(sc, k.value, ttl)
            && s1.vault.now == Wait(r.value.stamped, sc(k.value + 3).before)
            && r.value.child.expiresAt == r.value.stamped + LeasedFor(sc, k.value, ttl) as real
            && r.value.child.token in s1.held && s1.held[r.value.child.token] == r.value.child
  {
    CallEndsSo(sc, s, ChildTtl(ttl));
    var (s1, created, _) := Call(sc, s, ChildTtl(ttl));
    var Auth(token, duration) := created.value.reply;
    LendEnds(sc, s1, token, Narrowed(ChildTtl(ttl), duration), Reported(duration));
  }

  function Pause(d: real): real { if d > 0.0 then d else 0.0 }

  /** The creds have the wrong shape, and the call that would give the token back is made and fails. */
  predicate Stuck(sc: Script, k: nat, ttl: int) {
    && Usable(sc, k) && sc(k + 3).ok && !sc(k + 4).wellFormed && !sc(k + 6).ok
    && Pause(sc(k + 3).before) + Pause(sc(k + 5).before) < LeasedFor(sc, k, ttl) as real
  }

  /**
   A failed creds issue leaves a token held, for a checkout there is not, if and
   only if the creds have the wrong shape, the token has not expired by then, and
   the call that would give it back fails.
   */
  lemma StuckIff(sc: Script, s: State, ttl: int)
    requires Inv(s)
    ensures var (s1, r) := IssueCreds(sc, s, ttl);
            var stuck := LastCreate(sc, s).Some? && Stuck(sc, LastCreate(sc, s).value, ttl);
            (r == Raised(BadCreds(false)) <==> stuck) && (r.Raised? ==> (s1.held == s.held <==> !stuck))
  {
    NothingLeftIff(sc, s, ttl);
    BadCredsIff(sc, s, ttl);
    if Issue(sc, s, ttl).1.Ok? { StuckGuard(sc, s, ttl); }
    HeldAfter(sc, s, ttl);
  }

  /** The moves that a leased token's creds meet, by their numbers. */
  lemma StuckGuard(sc: Script, s: State, ttl: int)
    requires Inv(s) && Issue(sc, s, ttl).1.Ok?
    ensures var (s1, leased) := Issue(sc, s, ttl);
            var k, m := LastCreate(sc, s), s1.vault.moves;
            k.Some? && m == k.value + 4 &&
            (Wait(s1.vault.now, sc(m + 1).before) >= leased.value.child.expiresAt <==>
             !(Pause(sc(k.value + 3).before) + Pause(sc(k.value + 5).before) < LeasedFor(sc, k.value, ttl) as real))
  {
    LeaseSays(sc, s, ttl);
    var k, lease := LastCreate(sc, s).value, Issue(sc, s, ttl).1.value;
    Waits(lease.stamped, LeasedFor(sc, k, ttl), sc(k + 3).before, sc(k + 5).before);
  }

  lemma Waits(t: real, life: int, a: real, b: real)
    ensures Wait(Wait(t, a), b) >= t + life as real <==> !(Pause(a) + Pause(b) < life as real)
  {
  }

  lemma HeldAfter(sc: Script, s: State, ttl: int)
    requires Inv(s)
    ensures var (s1, r) := IssueCreds(sc, s, ttl); r.Raised? ==> (s1.held == s.held <==> r != Raised(BadCreds(false)))
  {
    CredsIs(sc, s, ttl);
    assert |s.vault.tokens| !in s.held;
  }

  lemma BadCredsIff(sc: Script, s: State, ttl: int)
    requires Inv(s)
    ensures var (s1, leased) := Issue(sc, s, ttl);
            var k := s1.vault.moves;
            IssueCreds(sc, s, ttl).1 == Raised(BadCreds(false)) <==>
            leased.Ok? && !sc(k).wellFormed && !sc(k + 2).ok &&
            !(Wait(s1.vault.now, sc(k + 1).before) >= leased.value.child.expiresAt)
  {
    CredsSplits(sc, s, ttl);
    NeverBadCreds(sc, s, ttl);
    var (s1, leased) := Issue(sc, s, ttl);
    if leased.Ok? {
      LeaseSays(sc, s, ttl);
      RevokeSays(sc, Shaped(s1), leased.value.child.token);
    }
  }

  /** After the creds were looked at. */
  function Shaped(s: State): State {
    s.(vault := s.vault.(moves := s.vault.moves + 1))
  }

  lemma CredsSplits(sc: Script, s: State, ttl: int)
    ensures var (s1, leased) := Issue(sc, s, ttl);
            match leased
            case Raised(e) => IssueCreds(sc, s, ttl).1 == Raised(e)
            case Ok(lease) =>
              if sc(s1.vault.moves).wellFormed then IssueCreds(sc, s, ttl).1.Ok?
              else IssueCreds(sc, s, ttl).1 == Raised(BadCreds(Revoke(sc, Shaped(s1), Some(lease.child.token)).1))
  {
  }

  lemma NeverBadCreds(sc: Script, s: State, ttl: int)
    ensures var r := Issue(sc, s, ttl).1; r.Raised? ==> !r.error.BadCreds?
  {
  }

  lemma RevokeSays(sc: Script, s: State, token: nat)
    requires token in s.held
    ensures var k := s.vault.moves;
            Revoke(sc, s, Some(token)).1 <==> Wait(s.vault.now, sc(k).before) >= s.held[token].expiresAt || sc(k + 1).ok
  {
  }

  // ---------------------------------------------------------------- the bad ends are reached

  /** A world in which every call succeeds at once and every token is granted in full. */
  const SMOOTH: Move := Move(0.0, 0.0, false, true, true, false, 900, true, true, true, false, true, None)

  /** Each way an issue can leave a live token behind happens: one script for each. */
  lemma Dangles(e: Failure) returns (sc: Script)
    requires e in {MintFailed, BadReply, NoChildClient, ReadFailed(false)}
    ensures var (s, r) := Issue(sc, NEW, 900);
            r == Raised(e) && |s.vault.tokens| == 1 && s.abandoned == {0} && !Dead(s.vault, 0)
  {
    var m := match e
      case MintFailed => SMOOTH.(answers := false)
      case BadReply => SMOOTH.(malformed := true)
      case NoChildClient => SMOOTH.(builds := false)
      case _ => SMOOTH.(ok := false);
    sc := n => m;
    var s1 := GetClient(sc, NEW).0;
    var s2 := CreateAs(sc, s1, 0, 900).0;
    assert s2.vault.tokens == [Token(0, 0.0, 900, false)];
  }

  /** A creds reply of the wrong shape whose clean-up fails leaves a live token held for a checkout that does not exist. */
  lemma Stranded() returns (sc: Script)
    ensures var (s, r) := IssueCreds(sc, NEW, 900);
            r == Raised(BadCreds(false)) && 0 in s.held && !Dead(s.vault, 0)
  {
    // moves: client, create, build, clock, read, shape, clock, revoke
    sc := n => if n == 7 then SMOOTH.(ok := false, wellFormed := false) else SMOOTH.(wellFormed := false);
    var s1 := GetClient(sc, NEW).0;
    var s2 := CreateAs(sc, s1, 0, 900).0;
    assert s2.vault.tokens == [Token(0, 0.0, 900, false)];
    var (s3, r) := Issue(sc, NEW, 900);
    assert s3.vault.moves == 5 && r.Ok? && s3.held == map[0 := Child(0, 900.0)];
  }

  // ---------------------------------------------------------------- the lifetime of creds

  /** Seconds a checkout may live: one in any case; more if they were asked for, the creds last as long, and the token does. */
  predicate Allowed(n: int, asked: int, duration: Option<int>, left: real) {
    n <= 1 || (n <= asked && (duration.Some? && duration.value > 0 ==> n <= duration.value) && n as real <= left)
  }

  /** The most seconds allowed. */
  ghost predicate Longest(life: int, asked: int, duration: Option<int>, left: real) {
    forall n: int {:trigger Allowed(n, asked, duration, left)} :: Allowed(n, asked, duration, left) <==> n <= life
  }

  lemma LongestWithin(life: int, asked: int, duration: Option<int>, left: real)
    requires Longest(life, asked, duration, left)
    ensures duration.Some? && duration.value > 0 ==> life <= Max(1, duration.value)
  {
    assert Allowed(life, asked, duration, left);
  }

  /** What is left of the token's stamp when the lifetime of creds read with the token made at move `k` is worked out. */
  function LeftOf(sc: Script, k: nat, ttl: int): real {
    LeasedFor(sc, k, ttl) as real - Pause(sc(k + 3).before) - Pause(sc(k + 4).before)
  }

  lemma RemainingAllowed(wanted: int, asked: int, duration: Option<int>, expiresAt: real, now: real, n: int)
    requires wanted == Narrowed(asked, duration)
    ensures n <= Remaining(wanted, expiresAt, now) <==> Allowed(n, asked, duration, expiresAt - now)
  {
    WholeSeconds(expiresAt - now, n);
  }

  lemma RemainingLongest(asked: int, duration: Option<int>, expiresAt: real, now: real)
    ensures Longest(Remaining(Narrowed(asked, duration), expiresAt, now), asked, duration, expiresAt - now)
  {
    var life := Remaining(Narrowed(asked, duration), expiresAt, now);
    forall n: int {:trigger Allowed(n, asked, duration, expiresAt - now)}
      ensures Allowed(n, asked, duration, expiresAt - now) <==> n <= life
    {
      RemainingAllowed(Narrowed(asked, duration), asked, duration, expiresAt, now, n);
    }
  }

  lemma WholeSeconds(x: real, n: int)
    ensures n > 1 ==> (n <= Trunc(x) <==> n as real <= x)
  {
    if x >= 0.0 {
      assert x.Floor as real <= x < (x.Floor + 1) as real;
    }
  }

  /**
   The lifetime of creds, exactly: the larger of a second and the least of what was
   asked for, the creds' own duration if they have one, and the whole seconds left
   of the token's stamp. All of it is read off the moves the issue meets.
   */
  lemma CredsLifetime(sc: Script, s: State, ttl: int)
    requires Inv(s) && IssueCreds(sc, s, ttl).1.Ok?
    ensures LastCreate(sc, s).Some?
    ensures var k, made := LastCreate(sc, s).value, IssueCreds(sc, s, ttl).1.value;
            Longest(made.ttl, ttl, sc(k + 4).duration, LeftOf(sc, k, ttl))
  {
    WorkedOut(sc, s, ttl);
    var k, made := LastCreate(sc, s).value, IssueCreds(sc, s, ttl).1.value;
    RemainingLongest(ttl, sc(k + 4).duration, Issue(sc, s, ttl).1.value.child.expiresAt, made.workedAt);
  }

  lemma WorkedOut(sc: Script, s: State, ttl: int)
    requires Inv(s) && IssueCreds(sc, s, ttl).1.Ok?
    ensures var (s1, leased) := Issue(sc, s, ttl);
            var made := IssueCreds(sc, s, ttl).1.value;
            && leased.Ok? && LastCreate(sc, s).Some?
            && var k := LastCreate(sc, s).value;
               made.ttl == Remaining(Narrowed(ttl, sc(k + 4).duration), leased.value.child.expiresAt, made.workedAt) &&
               leased.value.child.expiresAt - made.workedAt == LeftOf(sc, k, ttl)
  {
    LeaseSays(sc, s, ttl);
  }

  // ---------------------------------------------------------------- a checkout and its token

  /** How far past its token's expiry a checkout stamped at `t3` goes. */
  function Overrun(v: Vault, handle: nat, t3: real, lifetime: int): real
    requires handle < |v.tokens|
  {
    t3 + lifetime as real - Expires(v.tokens[handle])
  }

  /** A checkout of this lifetime, stamped at `t3`, is made from an issue of creds that returned. */
  ghost predicate Serves(sc: Script, s: State, ttl: int, t3: real, lifetime: int) {
    && Inv(s) && IssueCreds(sc, s, ttl).1.Ok?
    && IssueCreds(sc, s, ttl).0.vault.now <= t3 && 1 <= lifetime <= IssueCreds(sc, s, ttl).1.value.ttl
  }

  /**
   A checkout against its token at Vault. It passes the token's expiry by at most
   the time from the token's minting to its own stamp, and by what was asked for
   and not granted; if Vault reported what it granted, the latter does not count,
   and with more than a second of life neither does the time between the token's
   stamp and the working out of the lifetime.
   */
  lemma OverrunIs(sc: Script, s: State, ttl: int, t3: real, lifetime: int)
    requires Serves(sc, s, ttl, t3, lifetime)
    ensures var (s1, r) := IssueCreds(sc, s, ttl);
            var made := r.value;
            && made.handle < |s1.vault.tokens|
            && var token, over := s1.vault.tokens[made.handle], Overrun(s1.vault, made.handle, t3, lifetime);
            && token.granted <= ChildTtl(ttl) && token.minted <= t3
            && over <= t3 - token.minted + Worst(ttl, made.lease.reported, token.granted) as real
            && (made.lease.reported ==> token.granted >= 1)
            && (made.lease.reported && lifetime > 1 ==> over <= (t3 - made.workedAt) + (made.lease.stamped - token.minted))
  {
    CredsIs(sc, s, ttl);
  }

  /** What was asked for and not granted, unless Vault reported what it granted. */
  function Worst(ttl: int, reported: bool, granted: nat): int {
    if reported then 0 else ChildTtl(ttl) - granted
  }

  /** The checkout's lease was or was not reported; its token was granted this; and it stays within `slack` of the bound. */
  ghost predicate Within(sc: Script, s: State, ttl: int, reported: bool, granted: nat, slack: int, t3: real, lifetime: int)
    requires Serves(sc, s, ttl, t3, lifetime)
  {
    var (s1, r) := IssueCreds(sc, s, ttl);
    r.value.handle < |s1.vault.tokens| &&
    var token := s1.vault.tokens[r.value.handle];
    r.value.lease.reported == reported && token.granted == granted ==>
      Overrun(s1.vault, r.value.handle, t3, lifetime) <= t3 - token.minted + slack as real
  }

  /** So it is for every script, every state, every later stamp and every lifetime. */
  ghost predicate AlwaysWithin(ttl: int, reported: bool, granted: nat, slack: int) {
    forall sc, s, t3, lifetime :: Serves(sc, s, ttl, t3, lifetime) ==> Within(sc, s, ttl, reported, granted, slack, t3, lifetime)
  }

  /** How far a checkout can outlive its token, exactly, for each grant, reported or not. */
  lemma OverrunIff(ttl: int, reported: bool, granted: nat, slack: int)
    requires granted <= ChildTtl(ttl) && (reported ==> granted >= 1)
    ensures AlwaysWithin(ttl, reported, granted, slack) <==> slack >= Worst(ttl, reported, granted)
  {
    if slack >= Worst(ttl, reported, granted) {
      forall sc, s, t3, lifetime | Serves(sc, s, ttl, t3, lifetime)
        ensures Within(sc, s, ttl, reported, granted, slack, t3, lifetime)
      {
        OverrunIs(sc, s, ttl, t3, lifetime);
      }
    } else {
      var sc := Granting(ttl, reported, granted);
      var lifetime := if reported then granted else ChildTtl(ttl);
      assert Serves(sc, NEW, ttl, 0.0, lifetime);
      assert !Within(sc, NEW, ttl, reported, granted, slack, 0.0, lifetime);
    }
  }

  /** A checkout never passes its token's expiry by more than the time from minting to stamp exactly when the grant is reported or full. */
  lemma WithinIff(ttl: int, reported: bool, granted: nat)
    requires granted <= ChildTtl(ttl)
    ensures AlwaysWithin(ttl, reported, granted, 0) <==> reported || granted == ChildTtl(ttl)
  {
    if reported && granted == 0 {
      forall sc, s, t3, lifetime | Serves(sc, s, ttl, t3, lifetime) ensures Within(sc, s, ttl, reported, granted, 0, t3, lifetime) {
        OverrunIs(sc, s, ttl, t3, lifetime);
      }
    } else {
      OverrunIff(ttl, reported, granted, 0);
    }
  }

  /** Nothing takes any time; the token is granted this, and Vault says so or not. */
  lemma Granting(ttl: int, reported: bool, granted: nat) returns (sc: Script)
    requires granted <= ChildTtl(ttl) && (reported ==> granted >= 1)
    ensures var (s, r) := IssueCreds(sc, NEW, ttl);
            && s.vault.tokens == [Token(0, 0.0, granted, false)] && s.vault.now == 0.0
            && r.Ok? && r.value.handle == 0 && r.value.lease.reported == reported
            && r.value.ttl == if reported then granted else ChildTtl(ttl)
  {
    sc := n => SMOOTH.(granted := granted, reports := reported);
    var s1 := GetClient(sc, NEW).0;
    var s2 := CreateAs(sc, s1, 0, ChildTtl(ttl)).0;
    assert s2.vault.tokens == [Token(0, 0.0, granted, false)];
    var childTtl := if reported then granted else ChildTtl(ttl);
    var (s3, r) := Issue(sc, NEW, ttl);
    assert r.Ok? && r.value.child == Child(0, childTtl as real) && s3.vault.now == 0.0;
  }

  /** And the worst is reached: with a short grant that is not reported, the checkout outlives its token by all the rest. */
  lemma Unreported(ttl: int, granted: nat) returns (sc: Script)
    requires granted <= ChildTtl(ttl)
    ensures var (s, r) := IssueCreds(sc, NEW, ttl);
            && r.Ok? && !r.value.lease.reported && r.value.handle == 0 && |s.vault.tokens| == 1
            && Overrun(s.vault, 0, s.vault.now, r.value.ttl) == (ChildTtl(ttl) - granted) as real
  {
    sc := Granting(ttl, false, granted);
  }
}
