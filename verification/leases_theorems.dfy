/** Where every child token is, and how long a checkout may outlive its own. */
module LeasesTheorems {
  import opened Base
  import opened LeasesSpec

  lemma TruncDown(x: real)
    ensures Trunc(x) >= 1 ==> Trunc(x) as real <= x
  {
  }

  lemma TruncBelow(x: real, n: int)
    requires x <= n as real && n >= 1
    ensures Trunc(x) <= n
  {
  }

  // ---------------------------------------------------------------- the invariant

  ghost predicate VaultOk(v: Vault) {
    forall i :: 0 <= i < |v.tokens| ==> v.tokens[i].minted <= v.now && v.tokens[i].granted <= CHILD_TOKEN_MAX_TTL
  }

  /** Each minted token is in exactly one place, and what was ended is dead at Vault. */
  ghost predicate Inv(s: State) {
    && VaultOk(s.vault)
    && (forall i :: i in s.held || i in s.ended || i in s.abandoned <==> 0 <= i < |s.vault.tokens|)
    && s.held.Keys !! s.ended && s.held.Keys !! s.abandoned && s.ended !! s.abandoned
    && (forall i :: i in s.held ==> s.held[i].token == i && Expires(s.vault.tokens[i]) <= s.held[i].expiresAt)
    && (forall i :: i in s.ended ==> Dead(s.vault, i))
  }

  /** How Vault may change: time passes, tokens are added, and a revoked token stays revoked. */
  ghost predicate Aged(v: Vault, v1: Vault) {
    && v.now <= v1.now && |v.tokens| <= |v1.tokens|
    && forall i :: 0 <= i < |v.tokens| ==>
         v1.tokens[i] == v.tokens[i].(revoked := v1.tokens[i].revoked) && (v.tokens[i].revoked ==> v1.tokens[i].revoked)
  }

  lemma AgedDead(v: Vault, v1: Vault, i: nat)
    requires Aged(v, v1) && i < |v.tokens| && Dead(v, i)
    ensures Dead(v1, i)
  {
  }

  lemma AgedTwice(a: Vault, b: Vault, c: Vault)
    requires Aged(a, b) && Aged(b, c)
    ensures Aged(a, c)
  {
    forall i | 0 <= i < |a.tokens| ensures c.tokens[i] == a.tokens[i].(revoked := c.tokens[i].revoked) { }
  }

  // ---------------------------------------------------------------- Vault's calls

  lemma UseIs(sc: Script, v: Vault, token: nat, revoke: bool)
    requires VaultOk(v) && token < |v.tokens|
    ensures var (v1, ok) := Use(sc, v, token, revoke);
            && VaultOk(v1) && Aged(v, v1) && |v1.tokens| == |v.tokens|
            && (ok && revoke ==> v1.tokens[token].revoked)
            && forall i :: 0 <= i < |v.tokens| && i != token ==> v1.tokens[i] == v.tokens[i]
  {
  }

  lemma CreateIs(sc: Script, v: Vault, client: nat, ttl: nat)
    requires VaultOk(v) && ttl <= CHILD_TOKEN_MAX_TTL
    ensures var (v1, r) := Create(sc, v, client, ttl);
            && VaultOk(v1) && Aged(v, v1) && |v1.tokens| <= |v.tokens| + 1
            && (|v1.tokens| > |v.tokens| ==>
                  var t := v1.tokens[|v.tokens|]; t.parent == client && v.now <= t.minted && t.granted <= ttl && !t.revoked)
            && (r.Forbidden? ==> |v1.tokens| == |v.tokens|) && (r.Answer? ==> |v1.tokens| == |v.tokens| + 1)
            && (r.Answer? && r.reply.Auth? ==>
                  r.reply.token == |v.tokens| && (r.reply.duration.Some? ==> r.reply.duration.value == v1.tokens[|v.tokens|].granted))
  {
    var v1 := Create(sc, v, client, ttl).0;
    assert |v1.tokens| > |v.tokens| ==> v1.tokens[..|v.tokens|] == v.tokens;
  }

  // ---------------------------------------------------------------- the session's call

  /** What a create call through the session did, told from its result. */
  ghost predicate Called(s: State, s1: State, ttl: nat, created: Option<Created>, parent: nat) {
    && Inv(s1) && Aged(s.vault, s1.vault) && s1.held == s.held && s1.ended == s.ended
    && |s1.vault.tokens| <= |s.vault.tokens| + 1 && s1.abandoned == s.abandoned + Minted(s.vault, s1.vault)
    && (created == None || created == Some(Forbidden) ==> |s1.vault.tokens| == |s.vault.tokens|)
    && (|s1.vault.tokens| > |s.vault.tokens| ==>
          var t := s1.vault.tokens[|s.vault.tokens|]; t.parent == parent && s.vault.now <= t.minted && t.granted <= ttl)
    && (created.Some? && created.value.Answer? ==>
          |s1.vault.tokens| == |s.vault.tokens| + 1 && s1.client == Some(parent) &&
          (created.value.reply.Auth? ==>
             created.value.reply.token == |s.vault.tokens| &&
             (created.value.reply.duration.Some? ==> created.value.reply.duration.value == s1.vault.tokens[|s.vault.tokens|].granted)))
  }

  lemma CreateCalled(sc: Script, s: State, client: nat, ttl: nat)
    requires Inv(s) && ttl <= CHILD_TOKEN_MAX_TTL && s.client == Some(client)
    ensures var (s1, r) := CreateAs(sc, s, client, ttl); Called(s, s1, ttl, Some(r), client)
  {
    CreateIs(sc, s.vault, client, ttl);
    var (s1, r) := CreateAs(sc, s, client, ttl);
    forall i | i in s1.ended ensures Dead(s1.vault, i) { AgedDead(s.vault, s1.vault, i); }
  }

  lemma ClientOnly(sc: Script, s: State)
    requires Inv(s)
    ensures var (s1, c) := GetClient(sc, s);
            && Inv(s1) && Aged(s.vault, s1.vault) && s1.vault.tokens == s.vault.tokens && s1.client == c
            && s1.held == s.held && s1.ended == s.ended && s1.abandoned == s.abandoned
  {
    var s1 := GetClient(sc, s).0;
    forall i | i in s1.ended ensures Dead(s1.vault, i) { AgedDead(s.vault, s1.vault, i); }
  }

  lemma AgainCalled(sc: Script, s: State, ttl: nat)
    requires Inv(s) && ttl <= CHILD_TOKEN_MAX_TTL
    ensures var (s1, created, parent) := CallAgain(sc, s, ttl); Called(s, s1, ttl, created, parent)
  {
    ClientOnly(sc, s);
    var (s1, c) := GetClient(sc, s);
    if c.Some? { CreateCalled(sc, s1, c.value, ttl); }
  }

  lemma CalledAfter(s: State, s1: State, s2: State, ttl: nat, created: Option<Created>, parent: nat)
    requires Aged(s.vault, s1.vault) && s1.vault.tokens == s.vault.tokens
    requires s1.held == s.held && s1.ended == s.ended && s1.abandoned == s.abandoned
    requires Called(s1, s2, ttl, created, parent)
    ensures Called(s, s2, ttl, created, parent)
  {
    AgedTwice(s.vault, s1.vault, s2.vault);
  }

  /** At most one token is minted however often the call is tried, and the parent named is the client that minted it. */
  lemma CallIs(sc: Script, s: State, ttl: nat)
    requires Inv(s) && ttl <= CHILD_TOKEN_MAX_TTL
    ensures var (s1, created, parent) := Call(sc, s, ttl); Called(s, s1, ttl, created, parent)
  {
    ClientOnly(sc, s);
    var (s1, c) := GetClient(sc, s);
    if c.Some? {
      CreateCalled(sc, s1, c.value, ttl);
      var (s2, first) := CreateAs(sc, s1, c.value, ttl);
      if first.Forbidden? {
        AgainCalled(sc, s2.(client := None), ttl);
        var (s3, created, parent) := CallAgain(sc, s2.(client := None), ttl);
        AgedTwice(s.vault, s1.vault, s2.vault);
        CalledAfter(s, s2.(client := None), s3, ttl, created, parent);
      } else {
        CalledAfter(s, s1, s2, ttl, Some(first), c.value);
      }
    }
  }

  // ---------------------------------------------------------------- issue

  lemma ReadIs(sc: Script, s: State, child: Child)
    requires Inv(s) && child.token in s.abandoned && Expires(s.vault.tokens[child.token]) <= child.expiresAt
    ensures var (s1, failed) := Read(sc, s, child);
            && Inv(s1) && Aged(s.vault, s1.vault) && |s1.vault.tokens| == |s.vault.tokens|
            && s1.held == (if failed == None then s.held[child.token := child] else s.held)
            && s1.ended == (if failed == Some(ReadFailed(true)) then s.ended + {child.token} else s.ended)
            && s1.abandoned == (if failed == Some(ReadFailed(false)) then s.abandoned else s.abandoned - {child.token})
            && (failed == None || failed.value.ReadFailed?)
  {
    var (v, ok) := Use(sc, s.vault, child.token, false);
    UseIs(sc, s.vault, child.token, false);
    var s1 := Read(sc, s, child).0;
    if !ok {
      UseIs(sc, v, child.token, true);
      AgedTwice(s.vault, v, s1.vault);
    }
    forall i | i in s.ended ensures Dead(s1.vault, i) { AgedDead(s.vault, s1.vault, i); }
  }

  /** The stamped expiry never falls before the token's own. */
  lemma StampCovers(t: Token, now: real, ttl: nat, duration: Option<int>)
    requires t.minted <= now && t.granted <= ttl && (duration.Some? ==> duration.value == t.granted)
    ensures Expires(t) <= now + Narrowed(ttl, duration) as real
    ensures Reported(duration) ==> Narrowed(ttl, duration) == t.granted
  {
  }

  /**
   Each minted token stays in exactly one of held, ended and abandoned. A failed
   issue that minted a token abandons it, unless the clean-up after a failed
   read returned; and on success the stamp, the lifetime and the token agree.
   */
  lemma IssueIs(sc: Script, s: State, ttl: int)
    requires Inv(s)
    ensures var (s1, r) := Issue(sc, s, ttl);
            IssueEnds(s, s1, ttl, r)
  {
    CallIs(sc, s, ChildTtl(ttl));
    var (s1, created, parent) := Call(sc, s, ChildTtl(ttl));
    if created.Some? && created.value.Answer? && created.value.reply.Auth? {
      var Auth(token, duration) := created.value.reply;
      assert token == |s.vault.tokens| && token !in s.abandoned;
      LendIs(sc, s, s1, ttl, duration);
    }
  }

  /** A successful issue. */
  ghost predicate Leased(s: State, s1: State, ttl: int, lease: Lease) {
    var n := |s.vault.tokens|;
    && |s1.vault.tokens| == n + 1 && lease.child.token == n && s1.held == s.held[n := lease.child]
    && s1.ended == s.ended && s1.abandoned == s.abandoned
    && s.vault.now <= s1.vault.tokens[n].minted <= lease.stamped <= s1.vault.now
    && lease.child.expiresAt == lease.stamped + lease.childTtl as real
    && 1 <= lease.childTtl <= ChildTtl(ttl)
    && s1.vault.tokens[n].granted <= lease.childTtl
    && (lease.reported ==> s1.vault.tokens[n].granted == lease.childTtl)
  }

  /** A failed issue: what became of the token it minted, if it minted one. */
  ghost predicate Left(s: State, s1: State, e: Failure) {
    && (e == NoClient ==> |s1.vault.tokens| == |s.vault.tokens|)
    && (e == BadReply || e == NoChildClient || e.ReadFailed? ==> |s1.vault.tokens| == |s.vault.tokens| + 1)
    && !e.BadCreds?
    && if e == ReadFailed(true) then s1.ended == s.ended + {|s.vault.tokens|} && s1.abandoned == s.abandoned
       else s1.ended == s.ended && s1.abandoned == s.abandoned + Minted(s.vault, s1.vault)
  }

  /** How an issue ends. */
  ghost predicate IssueEnds(s: State, s1: State, ttl: int, r: Outcome<Lease, Failure>) {
    && Inv(s1) && Aged(s.vault, s1.vault) && |s1.vault.tokens| <= |s.vault.tokens| + 1
    && match r case Ok(lease) => Leased(s, s1, ttl, lease) case Raised(e) => s1.held == s.held && Left(s, s1, e)
  }

  /** A token has been minted and named, and nothing else has happened. */
  ghost predicate JustMinted(s: State, s1: State, ttl: nat, duration: Option<int>) {
    var n := |s.vault.tokens|;
    && Inv(s1) && Aged(s.vault, s1.vault) && |s1.vault.tokens| == n + 1
    && s1.held == s.held && s1.ended == s.ended && s1.abandoned == s.abandoned + {n} && n !in s.abandoned
    && s.vault.now <= s1.vault.tokens[n].minted && s1.vault.tokens[n].granted <= ttl
    && (duration.Some? ==> duration.value == s1.vault.tokens[n].granted)
  }

  lemma LendIs(sc: Script, s: State, s1: State, ttl: int, duration: Option<int>)
    requires JustMinted(s, s1, ChildTtl(ttl), duration)
    ensures var (s2, r) := Lend(sc, s1, |s.vault.tokens|, Narrowed(ChildTtl(ttl), duration), Reported(duration));
            IssueEnds(s, s2, ttl, r)
  {
    var n, childTtl, reported := |s.vault.tokens|, Narrowed(ChildTtl(ttl), duration), Reported(duration);
    var s2 := s1.(vault := s1.vault.(moves := s1.vault.moves + 1));
    MovedOn(s, s1, ChildTtl(ttl), duration);
    StampIs(sc, s, s2, ttl, duration);
    NotBuilt(s, s2, ChildTtl(ttl), duration, ttl);
    LendSplits(sc, s1, s2, n, childTtl, reported);
  }

  lemma LendSplits(sc: Script, s: State, s1: State, token: nat, childTtl: int, reported: bool)
    requires s1 == s.(vault := s.vault.(moves := s.vault.moves + 1))
    ensures Lend(sc, s, token, childTtl, reported) ==
            if sc(s.vault.moves).builds then Stamp(sc, s1, token, childTtl, reported) else (s1, Raised(NoChildClient))
  {
  }

  lemma MovedOn(s: State, s1: State, ttl: nat, duration: Option<int>)
    requires JustMinted(s, s1, ttl, duration)
    ensures JustMinted(s, s1.(vault := s1.vault.(moves := s1.vault.moves + 1)), ttl, duration)
  {
    var s2 := s1.(vault := s1.vault.(moves := s1.vault.moves + 1));
    ClockOnly(s1, s2);
    AgedTwice(s.vault, s1.vault, s2.vault);
  }

  lemma NotBuilt(s: State, s1: State, granted: nat, duration: Option<int>, ttl: int)
    requires JustMinted(s, s1, granted, duration)
    ensures IssueEnds(s, s1, ttl, Raised(NoChildClient))
  {
  }

  lemma StampIs(sc: Script, s: State, s1: State, ttl: int, duration: Option<int>)
    requires JustMinted(s, s1, ChildTtl(ttl), duration)
    ensures var (s2, r) := Stamp(sc, s1, |s.vault.tokens|, Narrowed(ChildTtl(ttl), duration), Reported(duration));
            IssueEnds(s, s2, ttl, r)
  {
    var n, childTtl := |s.vault.tokens|, Narrowed(ChildTtl(ttl), duration);
    var (v, t) := Clock(sc, s1.vault);
    StampCovers(s1.vault.tokens[n], t, ChildTtl(ttl), duration);
    ClockOnly(s1, s1.(vault := v));
    AgedTwice(s.vault, s1.vault, v);
    StampedIs(sc, s, s1.(vault := v), ttl, Lease(Child(n, t + childTtl as real), t, childTtl, Reported(duration)));
  }

  /** From the stamp to the end of the first read. */
  lemma StampedIs(sc: Script, s: State, s1: State, ttl: int, lease: Lease)
    requires Inv(s1) && Aged(s.vault, s1.vault) && |s1.vault.tokens| == |s.vault.tokens| + 1
    requires s1.held == s.held && s1.ended == s.ended
    requires s1.abandoned == s.abandoned + {|s.vault.tokens|} && |s.vault.tokens| !in s.abandoned
    requires lease.child.token == |s.vault.tokens| && lease.stamped == s1.vault.now && 1 <= lease.childTtl <= ChildTtl(ttl)
    requires lease.child.expiresAt == lease.stamped + lease.childTtl as real
    requires var t := s1.vault.tokens[|s.vault.tokens|];
             s.vault.now <= t.minted && t.granted <= lease.childTtl && (lease.reported ==> t.granted == lease.childTtl)
    ensures var (s2, failed) := Read(sc, s1, lease.child);
            && Inv(s2) && Aged(s.vault, s2.vault) && |s2.vault.tokens| <= |s.vault.tokens| + 1
            && (failed == None ==> Leased(s, s2, ttl, lease))
            && (failed.Some? ==> s2.held == s.held && Left(s, s2, failed.value))
  {
    ReadIs(sc, s1, lease.child);
    var s2 := Read(sc, s1, lease.child).0;
    AgedTwice(s.vault, s1.vault, s2.vault);
  }

  lemma ClockOnly(s: State, s1: State)
    requires Inv(s) && s1 == s.(vault := s1.vault) && s1.vault.tokens == s.vault.tokens && s.vault.now <= s1.vault.now
    ensures Inv(s1) && Aged(s.vault, s1.vault)
  {
    forall i | i in s1.ended ensures Dead(s1.vault, i) { AgedDead(s.vault, s1.vault, i); }
  }

  // ---------------------------------------------------------------- revoke

  /**
   Returning normally for a held token means it is dead at Vault; no other token
   is touched. For one that is not held nothing is done at all.
   */
  lemma RevokeIs(sc: Script, s: State, handle: Option<nat>)
    requires Inv(s)
    ensures var (s1, ok) := Revoke(sc, s, handle);
            && Inv(s1) && Aged(s.vault, s1.vault) && |s1.vault.tokens| == |s.vault.tokens| && s1.abandoned == s.abandoned
            && (handle == None || handle.value !in s.held ==> ok && s1 == s)
            && (handle.Some? && handle.value in s.held && ok ==>
                  s1.held == s.held - {handle.value} && s1.ended == s.ended + {handle.value} && Dead(s1.vault, handle.value))
            && (!ok ==> s1.held == s.held && s1.ended == s.ended)
            && (forall i :: 0 <= i < |s.vault.tokens| && Some(i) != handle ==> s1.vault.tokens[i] == s.vault.tokens[i])
  {
    if handle.Some? && handle.value in s.held {
      var (v, t) := Clock(sc, s.vault);
      ClockOnly(s, s.(vault := v));
      var s1 := s.(vault := v);
      if t >= s.held[handle.value].expiresAt {
        Dropped(s1, handle.value);
      } else {
        UseIs(sc, v, handle.value, true);
        var (v1, ok) := Use(sc, v, handle.value, true);
        Used(s1, s1.(vault := v1), handle.value);
        if ok { Dropped(s1.(vault := v1), handle.value); }
        AgedTwice(s.vault, v, v1);
      }
    }
  }

  /** A held token that is dead at Vault can be counted as ended. */
  lemma Dropped(s: State, token: nat)
    requires Inv(s) && token in s.held && Dead(s.vault, token)
    ensures Inv(Drop(s, token))
  {
  }

  lemma Used(s: State, s1: State, token: nat)
    requires Inv(s) && s1 == s.(vault := s1.vault) && VaultOk(s1.vault) && Aged(s.vault, s1.vault)
    requires |s1.vault.tokens| == |s.vault.tokens|
    ensures Inv(s1)
  {
    forall i | i in s.ended ensures Dead(s1.vault, i) { AgedDead(s.vault, s1.vault, i); }
  }

  lemma RestartIs(s: State)
    requires Inv(s)
    ensures Inv(Restart(s)) && Restart(s).held == map[] && Restart(s).vault == s.vault && Restart(s).ended == s.ended
    ensures Restart(s).abandoned == s.abandoned + s.held.Keys
  {
  }

  /** Whatever happens to a token, it is dead once the longest child lifetime has passed since its minting. */
  lemma DeadByTtl(v: Vault, i: nat)
    requires VaultOk(v) && i < |v.tokens| && v.tokens[i].minted + CHILD_TOKEN_MAX_TTL as real <= v.now
    ensures Dead(v, i)
  {
  }

  // ---------------------------------------------------------------- creds

  lemma RemainingIs(wanted: int, lease: Lease, now: real)
    requires lease.stamped <= now && lease.childTtl >= 1 && lease.child.expiresAt == lease.stamped + lease.childTtl as real
    ensures var ttl := Remaining(wanted, lease.child.expiresAt, now);
            1 <= ttl <= lease.childTtl && ttl <= Max(1, wanted) && (ttl == 1 || now + ttl as real <= lease.child.expiresAt)
  {
    TruncDown(lease.child.expiresAt - now);
    TruncBelow(lease.child.expiresAt - now, lease.childTtl);
  }

  /** How an issue of creds ends. */
  ghost predicate CredsEnd(s: State, s1: State, ttl: int, r: Outcome<Made, Failure>) {
    && Inv(s1) && Aged(s.vault, s1.vault)
    && (r.Ok? ==>
          && Leased(s, s1, ttl, r.value.lease) && r.value.handle == r.value.lease.child.token
          && r.value.lease.stamped <= r.value.workedAt <= s1.vault.now
          && 1 <= r.value.ttl <= r.value.lease.childTtl && r.value.ttl <= Max(1, ttl)
          && (r.value.ttl == 1 || r.value.workedAt + r.value.ttl as real <= r.value.lease.child.expiresAt))
    && (r == Raised(BadCreds(true)) ==> s1.held == s.held && s1.ended == s.ended + {|s.vault.tokens|})
    && (r == Raised(BadCreds(false)) ==> s1.held.Keys == s.held.Keys + {|s.vault.tokens|})
    && (r.Raised? && !r.error.BadCreds? ==> s1.held == s.held && Left(s, s1, r.error))
  }

  /** Issued creds: the token is held, and the lifetime is within what was asked and what is left of the token's stamp. */
  lemma CredsIs(sc: Script, s: State, ttl: int)
    requires Inv(s)
    ensures var (s1, r) := IssueCreds(sc, s, ttl); CredsEnd(s, s1, ttl, r)
  {
    IssueIs(sc, s, ttl);
    var (s1, leased) := Issue(sc, s, ttl);
    if leased.Ok? { LeasedCreds(sc, s, s1, ttl, leased.value); }
  }

  /** From a lease on. */
  lemma LeasedCreds(sc: Script, s: State, s1: State, ttl: int, lease: Lease)
    requires Inv(s) && Issue(sc, s, ttl) == (s1, Ok(lease)) && Inv(s1) && Aged(s.vault, s1.vault) && Leased(s, s1, ttl, lease)
    ensures var (s2, r) := IssueCreds(sc, s, ttl); CredsEnd(s, s2, ttl, r)
  {
    if sc(s1.vault.moves).wellFormed { Worked(sc, s, s1, ttl, lease); } else { GivenBack(sc, s, s1, ttl, lease); }
  }

  lemma Worked(sc: Script, s: State, s1: State, ttl: int, lease: Lease)
    requires Inv(s1) && Aged(s.vault, s1.vault) && Leased(s, s1, ttl, lease)
    ensures var (v, t) := Clock(sc, s1.vault);
            var s2, lifetime := s1.(vault := v), Remaining(Narrowed(ttl, sc(s1.vault.moves).duration), lease.child.expiresAt, t);
            && Inv(s2) && Aged(s.vault, s2.vault) && Leased(s, s2, ttl, lease) && lease.stamped <= t <= s2.vault.now
            && 1 <= lifetime <= lease.childTtl && lifetime <= Max(1, ttl)
            && (lifetime == 1 || t + lifetime as real <= lease.child.expiresAt)
  {
    var (v, t) := Clock(sc, s1.vault);
    RemainingIs(Narrowed(ttl, sc(s1.vault.moves).duration), lease, t);
    ClockOnly(s1, s1.(vault := v));
    AgedTwice(s.vault, s1.vault, v);
  }

  lemma GivenBack(sc: Script, s: State, s1: State, ttl: int, lease: Lease)
    requires Inv(s) && Inv(s1) && Aged(s.vault, s1.vault) && Leased(s, s1, ttl, lease)
    ensures var (s2, released) := Revoke(sc, s1.(vault := s1.vault.(moves := s1.vault.moves + 1)), Some(lease.child.token));
            && Inv(s2) && Aged(s.vault, s2.vault)
            && (released ==> s2.held == s.held && s2.ended == s.ended + {|s.vault.tokens|})
            && (!released ==> s2.held.Keys == s.held.Keys + {|s.vault.tokens|})
  {
    var n := |s.vault.tokens|;
    var waited := s1.(vault := s1.vault.(moves := s1.vault.moves + 1));
    ClockOnly(s1, waited);
    RevokeIs(sc, waited, Some(n));
    AgedTwice(s.vault, waited.vault, Revoke(sc, waited, Some(n)).0.vault);
    assert n !in s.held;
    HeldAndDropped(s.held, n, lease.child);
  }

  lemma HeldAndDropped(held: map<nat, Child>, n: nat, child: Child)
    requires n !in held
    ensures held[n := child] - {n} == held && held[n := child].Keys == held.Keys + {n}
  {
  }
}
