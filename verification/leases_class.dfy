/** The broker's bookkeeping of child tokens, changed in place beside a Vault that moves by a script. */
module LeasesClass {
  import opened Base
  import opened Spec = LeasesSpec

  class Site {
    const script: Script
    var now: real
    var tokens: seq<Token>
    var moves: nat

    function View(): Vault reads this { Vault(now, tokens, moves) }

    constructor (script: Script)
      ensures this.script == script && View() == Vault(0.0, [], 0)
    {
      this.script, now, tokens, moves := script, 0.0, [], 0;
    }

    method Clock() returns (t: real)
      modifies this
      ensures (View(), t) == Spec.Clock(script, old(View()))
    {
      now := Wait(now, script(moves).before);
      moves := moves + 1;
      t := now;
    }

    method Create(client: nat, ttl: nat) returns (r: Created)
      modifies this
      ensures (View(), r) == Spec.Create(script, old(View()), client, ttl)
    {
      var m := script(moves);
      now, moves := Wait(now, m.before), moves + 1;
      if m.refuses {
        return Forbidden;
      }
      if !m.mints && !m.answers {
        return Broken;
      }
      var granted := if m.granted <= ttl then m.granted else ttl;
      tokens := tokens + [Token(client, now, granted, false)];
      now := Wait(now, m.after);
      if !m.answers {
        return Broken;
      }
      return Answer(if m.malformed then Malformed else Auth(|tokens| - 1, if m.reports then Some(granted) else None));
    }

    method Use(token: nat, revoke: bool) returns (ok: bool)
      modifies this
      ensures (View(), ok) == Spec.Use(script, old(View()), token, revoke)
    {
      var m := script(moves);
      if m.took || (m.ok && revoke) {
        tokens := Revoked(tokens, token);
      }
      now, moves := Wait(now, m.before), moves + 1;
      ok := m.ok;
    }

    /** A move that takes no time. */
    method Next() returns (m: Move)
      modifies this`moves
      ensures m == script(old(moves)) && View() == old(View()).(moves := old(moves) + 1)
    {
      m := script(moves);
      moves := moves + 1;
    }
  }

  class ChildTokenLeases {
    const site: Site
    var client: Option<nat>
    var clients: nat
    var held: map<nat, Child>
    ghost var ended: set<nat>
    ghost var abandoned: set<nat>

    ghost function View(): State reads this, site {
      State(site.View(), client, clients, held, ended, abandoned)
    }

    constructor (site: Site)
      requires site.View() == Vault(0.0, [], 0)
      ensures this.site == site && View() == NEW
    {
      this.site, client, clients, held, ended, abandoned := site, None, 0, map[], {}, {};
    }

    /** The cached client, or a new one if authentication succeeds. */
    method GetClient() returns (c: Option<nat>)
      modifies this, site
      ensures (View(), c) == Spec.GetClient(site.script, old(View()))
    {
      if client.Some? {
        return client;
      }
      var refused := site.script(site.moves).refuses;
      var t := site.Clock();
      if refused {
        return None;
      }
      client, clients := Some(clients), clients + 1;
      c := client;
    }

    method CreateAs(c: nat, ttl: nat) returns (r: Created)
      modifies this, site
      ensures (View(), r) == Spec.CreateAs(site.script, old(View()), c, ttl)
    {
      ghost var before := site.View();
      r := site.Create(c, ttl);
      abandoned := abandoned + Minted(before, site.View());
    }

    /** On a refusal the client is dropped, and the call made once more with a new one. */
    method Call(ttl: nat) returns (created: Option<Created>, parent: nat)
      modifies this, site
      ensures (View(), created, parent) == Spec.Call(site.script, old(View()), ttl)
    {
      var c := GetClient();
      if c == None {
        return None, 0;
      }
      var first := CreateAs(c.value, ttl);
      if !first.Forbidden? {
        return Some(first), c.value;
      }
      client := None;
      c := GetClient();
      if c == None {
        return None, 0;
      }
      var second := CreateAs(c.value, ttl);
      return Some(second), c.value;
    }

    method Issue(ttl: int) returns (r: Outcome<Lease, Failure>)
      modifies this, site
      ensures (View(), r) == Spec.Issue(site.script, old(View()), ttl)
    {
      var childTtl: int := ChildTtl(ttl);
      var created, parent := Call(childTtl);
      if created == None {
        return Raised(NoClient);
      }
      if !created.value.Answer? {
        return Raised(MintFailed);
      }
      if created.value.reply.Malformed? {
        return Raised(BadReply);
      }
      var Auth(token, duration) := created.value.reply;
      if Reported(duration) {
        childTtl := Min(childTtl, duration.value);
      }
      r := Lend(token, childTtl, Reported(duration));
    }

    method Lend(token: nat, childTtl: int, reported: bool) returns (r: Outcome<Lease, Failure>)
      modifies this, site
      ensures (View(), r) == Spec.Lend(site.script, old(View()), token, childTtl, reported)
    {
      var m := site.Next();
      if !m.builds {
        return Raised(NoChildClient);
      }
      var t := site.Clock();
      var child := Child(token, t + childTtl as real);
      var failed := Read(child);
      r := if failed.Some? then Raised(failed.value) else Ok(Lease(child, t, childTtl, reported));
    }

    method Read(child: Child) returns (failed: Option<Failure>)
      modifies this, site
      ensures (View(), failed) == Spec.Read(site.script, old(View()), child)
    {
      var ok := site.Use(child.token, false);
      if ok {
        abandoned, held := abandoned - {child.token}, held[child.token := child];
        return None;
      }
      var cleaned := site.Use(child.token, true);
      if cleaned {
        abandoned, ended := abandoned - {child.token}, ended + {child.token};
      }
      failed := Some(ReadFailed(cleaned));
    }

    method Revoke(handle: Option<nat>) returns (ok: bool)
      modifies this, site
      ensures (View(), ok) == Spec.Revoke(site.script, old(View()), handle)
    {
      if handle == None || handle.value !in held {
        return true;
      }
      var child := held[handle.value];
      var t := site.Clock();
      if t < child.expiresAt {
        ok := site.Use(child.token, true);
        if !ok {
          return;
        }
      }
      ok := true;
      held := held - {handle.value};
      ended := ended + {handle.value};
    }

    method IssueCreds(ttl: int) returns (r: Outcome<Made, Failure>)
      modifies this, site
      ensures (View(), r) == Spec.IssueCreds(site.script, old(View()), ttl)
    {
      var leased := Issue(ttl);
      if leased.Raised? {
        return Raised(leased.error);
      }
      var lease := leased.value;
      var m := site.script(site.moves);
      if !m.wellFormed {
        m := site.Next();
        var released := Revoke(Some(lease.child.token));
        return Raised(BadCreds(released));
      }
      var t := site.Clock();
      var wanted := ttl;
      if Reported(m.duration) {
        wanted := Min(wanted, m.duration.value);
      }
      r := Ok(Made(Remaining(wanted, lease.child.expiresAt, t), lease.child.token, lease, t));
    }
  }
}
