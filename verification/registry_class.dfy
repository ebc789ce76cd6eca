/** The registry as the broker keeps it: shared `Checkout` objects, changed in place. */
module RegistryClass {
  import opened Base
  import opened RegistrySpec
  import T = RegistryTheorems

  class Checkout {
    const info: Info
    var pending: bool
    var value: Option<Fields>

    constructor (info: Info, pending: bool, value: Option<Fields>)
      ensures this.info == info && this.pending == pending && this.value == value
    {
      this.info, this.pending, this.value := info, pending, value;
    }

    function View(): Entry
      reads this
    {
      Entry(info, pending, value)
    }
  }

  function Views(cos: seq<Checkout>): (es: seq<Entry>)
    reads cos
  {
    seq(|cos|, i requires 0 <= i < |cos| reads cos => cos[i].View())
  }

  ghost predicate DistinctIds(cos: seq<Checkout>) {
    forall i, j :: 0 <= i < j < |cos| ==> cos[i].info.id != cos[j].info.id
  }

  /** `dict[id] = co`, `dict.pop(id)` and `dict.get(id)` on the insertion-ordered dict. */
  function PutObject(cos: seq<Checkout>, co: Checkout): seq<Checkout> {
    if cos == [] then [co]
    else if cos[0].info.id == co.info.id then [co] + cos[1..]
    else [cos[0]] + PutObject(cos[1..], co)
  }

  function DropObject(cos: seq<Checkout>, id: string): seq<Checkout> {
    if cos == [] then []
    else if cos[0].info.id == id then cos[1..]
    else [cos[0]] + DropObject(cos[1..], id)
  }

  function Named(cos: seq<Checkout>, ids: seq<string>): seq<Checkout> {
    if ids == [] then []
    else
      var rest := Named(cos, ids[1..]);
      match GetObject(cos, ids[0])
      case None => rest
      case Some(co) => [co] + rest
  }

  function GetObject(cos: seq<Checkout>, id: string): (r: Option<Checkout>)
    ensures r.Some? ==> r.value in cos && r.value.info.id == id
  {
    if cos == [] then None
    else if cos[0].info.id == id then Some(cos[0])
    else GetObject(cos[1..], id)
  }

  lemma {:induction false} PutView(cos: seq<Checkout>, co: Checkout)
    ensures Views(PutObject(cos, co)) == Put(Views(cos), co.View())
  {
    if cos != [] {
      PutView(cos[1..], co);
      assert Views(cos)[1..] == Views(cos[1..]);
    }
  }

  lemma {:induction false} PutMembers(cos: seq<Checkout>, co: Checkout)
    requires DistinctIds(cos)
    ensures forall j :: 0 <= j < |PutObject(cos, co)| ==> PutObject(cos, co)[j] == co || PutObject(cos, co)[j] in cos
    ensures DistinctIds(PutObject(cos, co))
  {
    if cos != [] && cos[0].info.id != co.info.id {
      PutMembers(cos[1..], co);
      var rest := PutObject(cos[1..], co);
      forall j | 0 <= j < |rest| ensures rest[j].info.id != cos[0].info.id {
        assert rest[j] == co || rest[j] in cos[1..];
      }
    }
  }

  lemma {:induction false} DropMembers(cos: seq<Checkout>, id: string)
    requires DistinctIds(cos)
    ensures forall j :: 0 <= j < |DropObject(cos, id)| ==> DropObject(cos, id)[j] in cos && DropObject(cos, id)[j].info.id != id
    ensures forall i :: 0 <= i < |cos| && cos[i].info.id != id ==> cos[i] in DropObject(cos, id)
    ensures DistinctIds(DropObject(cos, id))
  {
    if cos != [] {
      DropMembers(cos[1..], id);
      forall i | 0 < i < |cos| && cos[i].info.id != id ensures cos[i] in DropObject(cos, id) {
        assert cos[i] == cos[1..][i - 1];
      }
    }
  }

  lemma {:induction false} DropView(cos: seq<Checkout>, id: string)
    requires DistinctIds(cos)
    ensures Views(DropObject(cos, id)) == Drop(Views(cos), id)
  {
    if cos != [] {
      DropView(cos[1..], id);
      assert Views(cos)[1..] == Views(cos[1..]);
    }
  }

  lemma {:induction false} GetView(cos: seq<Checkout>, id: string)
    ensures var v := Find(Views(cos), id);
            match GetObject(cos, id) case None => v.None? case Some(co) => v == Some(co.View())
  {
    if cos != [] {
      GetView(cos[1..], id);
      assert Views(cos)[1..] == Views(cos[1..]);
    }
  }

  function Infos(cos: seq<Checkout>): (r: seq<Info>) {
    seq(|cos|, i requires 0 <= i < |cos| => cos[i].info)
  }

  lemma {:induction false} NamedView(cos: seq<Checkout>, ids: seq<string>)
    ensures Infos(Named(cos, ids)) == Targets(Views(cos), ids)
    ensures forall co :: co in Named(cos, ids) ==> co in cos
  {
    if ids != [] {
      NamedView(cos, ids[1..]);
      GetView(cos, ids[0]);
      var rest := Named(cos, ids[1..]);
      match GetObject(cos, ids[0])
      case None =>
      case Some(co) => assert Infos([co] + rest) == [co.info] + Infos(rest);
    }
  }

  lemma SameObject(cos: seq<Checkout>, a: Checkout, b: Checkout)
    requires DistinctIds(cos) && a in cos && b in cos && a.info.id == b.info.id
    ensures a == b
  {
    var i :| 0 <= i < |cos| && cos[i] == a;
    var j :| 0 <= j < |cos| && cos[j] == b;
  }

  class Registry {
    const env: Env
    var live: seq<Checkout>
    var file: seq<Record>
    var attempts: seq<Attempt>
    var writes: nat
    var events: seq<Event>

    ghost predicate Valid()
      reads this
    {
      DistinctIds(live)
    }

    ghost function Objects(): set<Checkout>
      reads this
    {
      set co | co in live
    }

    function View(): Reg
      reads this, live
    {
      Reg(Views(live), file, attempts, writes, events)
    }

    /** A fresh process: empty memory, whatever file the last one left. */
    constructor (env: Env, file: seq<Record>)
      ensures Valid() && View() == Reg([], file, [], 0, []) && this.env == env
    {
      this.env := env;
      this.live, this.file, this.attempts, this.writes, this.events := [], file, [], 0, [];
    }

    method Persist() returns (out: Outcome<(), Error>)
      requires Valid()
      modifies this`file, this`writes
      ensures var (r, o) := RegistrySpec.Persist(env, old(View())); View() == r && out == o
    {
      if env.disk(writes) {
        file := Records(Views(live));
        out := Ok(());
      } else {
        out := Raised(OSError);
      }
      writes := writes + 1;
    }

    method Add(co: Checkout) returns (out: Outcome<(), Error>)
      requires Valid()
      modifies this
      ensures var (r, o) := RegistrySpec.Add(env, old(View()), old(co.View())); Valid() && View() == r && out == o
      ensures Objects() <= old(Objects()) + {co}
    {
      if co.value == None {
        return Raised(ValueError);
      }
      PutView(live, co);
      PutMembers(live, co);
      live := PutObject(live, co);
      out := Persist();
      if out.Ok? {
        events := events + [Event("broker_checkout", co.info, true, "")];
      }
    }

    method FindReusable(capability: string, session: string, harness: string, now: real, minRemaining: real)
      returns (found: Option<(Checkout, Fields)>)
      requires Valid()
      ensures var spec := RegistrySpec.FindReusable(Views(live), capability, session, harness, now, minRemaining);
              match found
              case None => spec.None?
              case Some(p) => p.0 in live && spec == Some(p.0.View()) && p.0.value == Some(p.1)
    {
      var i := 0;
      while i < |live|
        invariant 0 <= i <= |live|
        invariant RegistrySpec.FindReusable(Views(live), capability, session, harness, now, minRemaining) ==
                  RegistrySpec.FindReusable(Views(live)[i..], capability, session, harness, now, minRemaining)
      {
        assert Views(live)[i..][0] == live[i].View();
        assert Views(live)[i..][1..] == Views(live)[i + 1..];
        var co := live[i];
        if Reusable(co.View(), capability, session, harness, now, minRemaining) {
          found := Some((co, co.value.value));
          return;
        }
        i := i + 1;
      }
      found := None;
    }

    /** How many checkouts are live, and how many wait for a retry. */
    method Counts() returns (liveCount: nat, pending: nat)
      requires Valid()
      ensures pending == CountPending(Views(live)) && liveCount == |live| - pending
      ensures Settled(Views(live)) ==> liveCount == CountLive(Views(live))
    {
      pending := 0;
      var i := 0;
      while i < |live|
        invariant 0 <= i <= |live| && pending <= i
        invariant pending == CountPending(Views(live)[..i])
      {
        assert Views(live)[..i + 1] == Views(live)[..i] + [live[i].View()];
        if live[i].pending {
          pending := pending + 1;
        }
        i := i + 1;
      }
      assert Views(live)[..|live|] == Views(live);
      liveCount := |live| - pending;
      if Settled(Views(live)) {
        CountsAreRows(Views(live));
      }
    }

    method Revoke(ids: seq<string>, reason: string) returns (out: Outcome<seq<string>, Error>)
      requires Valid()
      modifies this, Objects()
      ensures var (r, o) := RegistrySpec.Revoke(env, old(View()), ids, reason); Valid() && View() == r && out == o
      ensures Objects() <= old(Objects())
    {
      var targets := BeginRevoke(ids);
      var done := RevokeTargets(targets, reason);
      if targets != [] {
        var saved := Persist();
        out := if saved.Raised? then Raised(saved.error) else Ok(done);
      } else {
        out := Ok(done);
      }
    }

    /** The locked first section: pick the targets and forget their values. */
    method BeginRevoke(ids: seq<string>) returns (targets: seq<Checkout>)
      requires Valid()
      modifies Objects()
      ensures Infos(targets) == Targets(old(Views(live)), Dedup(ids))
      ensures DistinctIds(targets) && forall co :: co in targets ==> co in live
      ensures Views(live) == Clear(old(Views(live)), ids)
    {
      targets := Named(live, Dedup(ids));
      NamedFacts(live, ids);
      ForgetValues(targets);
    }

    method RevokeTargets(targets: seq<Checkout>, reason: string) returns (done: seq<string>)
      requires Valid() && DistinctIds(targets) && forall co :: co in targets ==> co in live
      modifies this, targets`pending
      ensures var (r, o) := RevokeEach(env, old(View()), Infos(targets), reason); Valid() && View() == r && done == o
      ensures Objects() <= old(Objects())
    {
      ghost var start := View();
      done := [];
      var i := 0;
      while i < |targets|
        invariant 0 <= i <= |targets|
        invariant Valid() && Objects() <= old(Objects())
        invariant forall k :: i <= k < |targets| ==> targets[k] in Objects()
        invariant RevokeEach(env, start, Infos(targets), reason).0 == RevokeEach(env, View(), Infos(targets)[i..], reason).0
        invariant RevokeEach(env, start, Infos(targets), reason).1 == done + RevokeEach(env, View(), Infos(targets)[i..], reason).1
      {
        EachNext(env, View(), Infos(targets), i, reason);
        var ok := RevokeTarget(targets[i], reason);
        if ok {
          done := done + [targets[i].info.id];
        }
        i := i + 1;
      }
      assert Infos(targets)[|targets|..] == [];
    }

    /** The value is forgotten first, whatever happens next. */
    method ForgetValues(targets: seq<Checkout>)
      modifies targets`value
      ensures forall k :: 0 <= k < |targets| ==> targets[k].value == None
    {
      var i := 0;
      while i < |targets|
        invariant 0 <= i <= |targets|
        invariant forall k :: 0 <= k < i ==> targets[k].value == None
      {
        targets[i].value := None;
        i := i + 1;
      }
    }

    method RevokeTarget(co: Checkout, reason: string) returns (ok: bool)
      requires Valid() && co in live
      modifies this, co`pending
      ensures var (r, o) := RevokeOne(env, old(View()), co.info, reason); Valid() && View() == r && ok == o
      ensures Objects() == old(Objects()) - (if ok then {co} else {})
    {
      ok := false;
      if co.info.issuerKind in env.kinds {
        ok := env.revokes(|attempts|);
        attempts := attempts + [Attempt(co.info.id, co.info.issuerKind, co.info.handle, ok)];
      }
      if ok {
        DropView(live, co.info.id);
        DropMembers(live, co.info.id);
        forall x | x in live && x.info.id == co.info.id ensures x == co {
          SameObject(live, x, co);
        }
        live := DropObject(live, co.info.id);
        assert Views(live) == Drop(old(Views(live)), co.info.id);
      } else {
        forall x | x in live && x.info.id == co.info.id ensures x == co {
          SameObject(live, x, co);
        }
        co.pending := true;
        assert Views(live) == Mark(old(Views(live)), co.info.id);
      }
      events := events + [Event("broker_revoke", co.info, ok, reason)];
      ghost var spec := RevokeOne(env, old(View()), co.info, reason).0;
      assert View().live == spec.live;
      assert View().attempts == spec.attempts;
      assert View().events == spec.events;
    }

    method Reap(now: real, alive: (int, Option<int>) -> bool) returns (out: Outcome<seq<string>, Error>)
      requires Valid()
      modifies this, Objects()
      ensures var (r, o) := RegistrySpec.Reap(env, old(View()), now, alive); Valid() && View() == r && out == o
      ensures Objects() <= old(Objects())
    {
      var snapshot := Views(live);
      var expired := ReapGroup(Due(snapshot, now, alive, Expired), "expired");
      if expired.Raised? { return expired; }
      var orphaned := ReapGroup(Due(snapshot, now, alive, SessionEnd), "session_end");
      if orphaned.Raised? { return orphaned; }
      var retried := ReapGroup(Due(snapshot, now, alive, Retry), "retry");
      if retried.Raised? { return retried; }
      return Ok(expired.value + orphaned.value + retried.value);
    }

    method ReapGroup(ids: seq<string>, reason: string) returns (out: Outcome<seq<string>, Error>)
      requires Valid()
      modifies this, Objects()
      ensures var (r, o) := RegistrySpec.ReapGroup(env, old(View()), ids, reason); Valid() && View() == r && out == o
      ensures Objects() <= old(Objects())
    {
      out := Ok([]);
      if ids != [] {
        out := Revoke(ids, reason);
      }
    }

    method RevokeAll(reason: string) returns (out: Outcome<seq<string>, Error>)
      requires Valid()
      modifies this, Objects()
      ensures var (r, o) := RegistrySpec.RevokeAll(env, old(View()), reason); Valid() && View() == r && out == o
      ensures Objects() <= old(Objects())
    {
      out := Revoke(Ids(Views(live)), reason);
    }

    method Recover() returns (out: Outcome<seq<string>, Error>)
      requires Valid()
      modifies this, Objects()
      ensures var (r, o) := RegistrySpec.Recover(env, old(View())); Valid() && View() == r && out == o
      ensures fresh(Objects() - old(Objects()))
    {
      RestoreFile();
      out := Revoke(RecordIds(file), "recovered");
    }

    /** Recorded checkouts come back pending: their values died with the old process. */
    method RestoreFile()
      requires Valid()
      modifies this`live
      ensures Valid() && Views(live) == Restore(old(Views(live)), file)
      ensures fresh(Objects() - old(Objects()))
    {
      var i := 0;
      while i < |file|
        invariant 0 <= i <= |file|
        invariant Valid() && Views(live) == Restore(old(Views(live)), file[..i])
        invariant fresh(Objects() - old(Objects()))
      {
        assert file[..i + 1][..i] == file[..i];
        var e := FromRecord(file[i]);
        var co := new Checkout(e.info, true, e.value);
        PutView(live, co);
        PutMembers(live, co);
        live := PutObject(live, co);
        i := i + 1;
      }
      assert file[..|file|] == file;
    }
  }

  lemma EachNext(env: Env, r: Reg, infos: seq<Info>, i: nat, reason: string)
    requires i < |infos|
    ensures var (r1, ok) := RevokeOne(env, r, infos[i], reason);
            var (r2, rest) := RevokeEach(env, r1, infos[i + 1..], reason);
            RevokeEach(env, r, infos[i..], reason) == (r2, if ok then [infos[i].id] + rest else rest)
  {
    assert infos[i..][0] == infos[i] && infos[i..][1..] == infos[i + 1..];
  }

  lemma NamedFacts(cos: seq<Checkout>, ids: seq<string>)
    requires DistinctIds(cos)
    ensures var ts := Named(cos, Dedup(ids));
      && Infos(ts) == Targets(Views(cos), Dedup(ids)) && DistinctIds(ts)
      && (forall co :: co in ts ==> co in cos)
      && (forall i :: 0 <= i < |cos| ==> (cos[i] in ts <==> cos[i].info.id in ids))
  {
    NamedView(cos, Dedup(ids));
    NamedDistinct(cos, ids);
    forall i | 0 <= i < |cos| ensures cos[i] in Named(cos, Dedup(ids)) <==> cos[i].info.id in ids {
      NamedIff(cos, Dedup(ids), cos[i]);
    }
  }

  lemma NamedDistinct(cos: seq<Checkout>, ids: seq<string>)
    requires DistinctIds(cos)
    ensures DistinctIds(Named(cos, Dedup(ids)))
  {
    var ts := Named(cos, Dedup(ids));
    NamedView(cos, Dedup(ids));
    assert Unique(Views(cos));
    T.NamedTargets(Views(cos), ids);
    forall i, j | 0 <= i < j < |ts| ensures ts[i].info.id != ts[j].info.id {
      assert Infos(ts)[i].id != Infos(ts)[j].id;
    }
  }

  lemma {:induction false} NamedIff(cos: seq<Checkout>, ids: seq<string>, co: Checkout)
    requires DistinctIds(cos) && co in cos
    ensures co in Named(cos, ids) <==> co.info.id in ids
  {
    if ids != [] {
      NamedIff(cos, ids[1..], co);
      GetFinds(cos, co);
    }
  }

  lemma {:induction false} GetFinds(cos: seq<Checkout>, co: Checkout)
    requires DistinctIds(cos) && co in cos
    ensures GetObject(cos, co.info.id) == Some(co)
  {
    if cos[0] != co {
      SameIdSameObject(cos, co);
      GetFinds(cos[1..], co);
    }
  }

  lemma SameIdSameObject(cos: seq<Checkout>, co: Checkout)
    requires DistinctIds(cos) && co in cos && cos[0] != co
    ensures cos[0].info.id != co.info.id
  {
    var i :| 0 <= i < |cos| && cos[i] == co;
  }

  lemma {:induction false} CountsAreRows(live: seq<Entry>)
    requires Settled(live)
    ensures CountPending(live) + CountLive(live) == |live|
  {
    if live != [] {
      var n := |live| - 1;
      assert forall i :: 0 <= i < n ==> live[..n][i] == live[i];
      CountsAreRows(live[..n]);
      assert live[n].pending <==> live[n].value.None?;
    }
  }

  /** The rows a listing shows as live: with a value and no revocation pending. */
  function CountLive(live: seq<Entry>): (n: nat) {
    if live == [] then 0
    else CountLive(live[..|live| - 1]) + (if live[|live| - 1].value.Some? && !live[|live| - 1].pending then 1 else 0)
  }
}
