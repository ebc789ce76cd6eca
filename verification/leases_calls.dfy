/** Which calls are made for a child token, with which client, and when they succeed, read off the script. */
module LeasesCalls {
  import opened Base
  import opened LeasesSpec
  import opened LeasesTheorems
  import opened LeasesOutcomes

  // ---------------------------------------------------------------- the session's client

  /** Clients are numbered as they are made. */
  predicate Numbered(s: State) { s.client.Some? ==> s.client.value < s.clients }

  /** The move of the first create call, if there is one. */
  function FirstCreate(sc: Script, s: State): (k: Option<nat>) {
    if s.client.Some? then Some(s.vault.moves)
    else if sc(s.vault.moves).refuses then None
    else Some(s.vault.moves + 1)
  }

  /**
   The first create call is made with the client there is, or a new one; a refused
   one is made once more, with a client made after the refusal. A client whose call
   was answered is kept; one that was refused is not used again by the retry.
   */
  lemma CallClient(sc: Script, s: State, ttl: nat)
    requires Numbered(s)
    ensures var (s1, created, parent) := Call(sc, s, ttl);
            var first := if s.client.Some? then s.client.value else s.clients;
            && Numbered(s1)
            && match FirstCreate(sc, s)
               case None => created == None && s1.client == None && s1.vault.tokens == s.vault.tokens
               case Some(k) =>
                 if !sc(k).refuses then created.Some? && parent == first && s1.client == Some(first)
                 else if sc(k + 1).refuses then created == None && s1.client == None && s1.vault.tokens == s.vault.tokens
                 else created.Some? && parent > first && s1.client == Some(parent) && s1.vault.moves == k + 3
  {
    var (s1, c) := GetClient(sc, s);
    if c.Some? && sc(s1.vault.moves).refuses { AgainClient(sc, CreateAs(sc, s1, c.value, ttl).0.(client := None), ttl); }
  }

  lemma AgainClient(sc: Script, s: State, ttl: nat)
    requires s.client == None
    ensures var (s1, created, parent) := CallAgain(sc, s, ttl);
            if sc(s.vault.moves).refuses then created == None && s1.client == None && s1.clients == s.clients && s1.vault.tokens == s.vault.tokens
            else created.Some? && parent == s.clients && s1.client == Some(parent) && s1.clients == s.clients + 1 &&
                 s1.vault.moves == s.vault.moves + 2
  {
  }

  // ---------------------------------------------------------------- what is asked for

  /** A number of seconds a token may be asked for: one, or no more than the checkout's and a quarter of an hour. */
  predicate Askable(n: int, ttl: int) { n <= 1 || (n <= ttl && n <= 900) }

  /** A token is asked for the longest it may be. */
  lemma AskedFor(ttl: int, n: int)
    ensures n <= ChildTtl(ttl) <==> Askable(n, ttl)
  {
  }

  /** A token minted for a checkout lives no longer than was asked for, and is stamped for just as long if Vault says how long. */
  lemma TokenLife(sc: Script, s: State, ttl: int)
    requires Inv(s) && Issue(sc, s, ttl).1.Ok?
    ensures var (s1, r) := Issue(sc, s, ttl);
            var t := s1.vault.tokens[|s.vault.tokens|];
            && r.value.child.token == |s.vault.tokens| && Askable(t.granted, ttl) && Askable(r.value.childTtl, ttl)
            && (if r.value.reported then r.value.childTtl == t.granted else forall n :: n <= r.value.childTtl <==> Askable(n, ttl))
  {
    IssueIs(sc, s, ttl);
    LeaseSays(sc, s, ttl);
    NotNarrowed(sc, s, ttl);
    var r := Issue(sc, s, ttl).1.value;
    AskedFor(ttl, Issue(sc, s, ttl).0.vault.tokens[|s.vault.tokens|].granted);
    AskedFor(ttl, r.childTtl);
    forall n ensures n <= ChildTtl(ttl) <==> Askable(n, ttl) { AskedFor(ttl, n); }
  }

  lemma NotNarrowed(sc: Script, s: State, ttl: int)
    requires Inv(s) && Issue(sc, s, ttl).1.Ok?
    ensures var r := Issue(sc, s, ttl).1.value; !r.reported ==> r.childTtl == ChildTtl(ttl)
  {
    IssueSplits(sc, s, ttl);
  }

  // ---------------------------------------------------------------- when creds are issued

  /** Creds are issued exactly when the token can be read with and they have the right shape. */
  lemma CredsIff(sc: Script, s: State, ttl: int)
    requires Inv(s)
    ensures IssueCreds(sc, s, ttl).1.Ok? <==>
            LastCreate(sc, s).Some? &&
            var k := LastCreate(sc, s).value; Usable(sc, k) && sc(k + 3).ok && sc(k + 4).wellFormed
  {
    NothingLeftIff(sc, s, ttl);
    CredsSplits(sc, s, ttl);
    if Issue(sc, s, ttl).1.Ok? { LeaseSays(sc, s, ttl); }
  }

  // ---------------------------------------------------------------- revoking

  /** By the clock, as the script has it, the token's stamp has run out. */
  predicate RunOut(sc: Script, s: State, child: Child) {
    child.expiresAt <= s.vault.now + Pause(sc(s.vault.moves).before)
  }

  /** The same tokens, but that this one may be revoked now. */
  predicate AllBut(v: Vault, v1: Vault, token: nat, revoked: bool) {
    |v1.tokens| == |v.tokens| &&
    forall i :: 0 <= i < |v.tokens| ==> v1.tokens[i] == if i == token && revoked then v.tokens[i].(revoked := true) else v.tokens[i]
  }

  /**
   Revoking a held token: if its stamp has run out no call is made and it is let
   go; otherwise one call is made, with the token itself, and it is let go exactly
   if that returns. Either way Vault has revoked it if the call took effect.
   */
  lemma RevokeDoes(sc: Script, s: State, token: nat)
    requires Inv(s) && token in s.held
    ensures var (s1, ok) := Revoke(sc, s, Some(token));
            var m := s.vault.moves;
            && (if RunOut(sc, s, s.held[token]) then ok && s1.vault.tokens == s.vault.tokens && s1.vault.moves == m + 1
                else (ok <==> sc(m + 1).ok) && AllBut(s.vault, s1.vault, token, sc(m + 1).ok || sc(m + 1).took) && s1.vault.moves == m + 2)
            && s1.held == (if ok then s.held - {token} else s.held) && s1.ended == (if ok then s.ended + {token} else s.ended)
            && s1.client == s.client && s1.abandoned == s.abandoned
  {
  }

  /** A restart also forgets the session's client. */
  lemma RestartForgets(s: State)
    ensures Restart(s).client == None && Restart(s).held == map[] && (Numbered(s) ==> Numbered(Restart(s)))
  {
  }
}
