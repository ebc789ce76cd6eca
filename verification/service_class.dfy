/** The broker at work: each request changes the registry in place and is answered. */
module ServiceClass {
  import opened Base
  import opened RegistrySpec
  import opened ServiceSpec
  import opened JsonTree
  import RC = RegistryClass
  import Secrecy = ServiceSecrecy

  class Broker {
    const config: Config
    const registry: RC.Registry

    constructor (config: Config, registry: RC.Registry)
      ensures this.config == config && this.registry == registry
    {
      this.config, this.registry := config, registry;
    }

    /** The first capability, in the manifest's order, whose helper serves the tool and host. */
    method Match(tool: string, host: Option<string>) returns (cap: Option<Cap>)
      ensures cap == FirstServing(config.caps, tool, Wanted(host))
    {
      var want := Wanted(host);
      for i := 0 to |config.caps|
        invariant FirstServing(config.caps, tool, want) == FirstServing(config.caps[i..], tool, want)
      {
        var c := config.caps[i];
        assert config.caps[i..][0] == c && config.caps[i..][1..] == config.caps[i + 1..];
        if c.delivery.rung != "helper" || c.delivery.tool != Some(tool) {
          continue;
        }
        if c.delivery.hosts != [] {
          if want.Some? && want.value in c.delivery.hosts {
            return Some(c);
          }
        } else if want.None? {
          return Some(c);
        }
      }
      return None;
    }

    method Resolve(t: Target) returns (r: Outcome<Cap, Code>)
      ensures r == ServiceSpec.Resolve(config, t)
    {
      match t {
        case ById(id) =>
          var c := ByName(config.caps, id);
          r := if c.Some? then Ok(c.value) else Raised(UnknownCapability);
        case ByMatch(tool, host) =>
          var c := Match(tool, host);
          r := if c.Some? then Ok(c.value) else Raised(NoMatch);
      }
    }

    /** The live checkouts that pass the filters, oldest first. */
    method Select(id: Option<string>, capability: Option<string>, session: Option<string>) returns (es: seq<Entry>)
      requires registry.Valid()
      ensures es == ServiceSpec.Select(registry.View().live, id, capability, session)
    {
      var live := RC.Views(registry.live);
      var out: seq<Entry> := [];
      for i := |live| downto 0
        invariant out == Chosen(live[i..], id, capability, session)
      {
        assert live[i..][0] == live[i] && live[i..][1..] == live[i + 1..];
        out := (if Chooses(live[i].info, id, capability, session) then [live[i]] else []) + out;
      }
      assert live[0..] == live;
      es := SortByIssue(out);
    }

    method Checkout(req: Request, target: Target, asked: Option<int>, turn: Turn) returns (resp: Response)
      requires registry.Valid()
      modifies registry
      ensures registry.Valid()
      ensures var (r, a) := ServiceSpec.Checkout(config, registry.env, old(registry.View()), req, target, asked, turn);
              registry.View() == r && resp == a
    {
      var resolved := Resolve(target);
      if resolved.Raised? {
        return Failure(resolved.error);
      }
      var cap := resolved.value;
      if cap.harnesses != [] && turn.attr.harness !in cap.harnesses {
        return Failure(HarnessNotAllowed);
      }
      if req.frontEnd.Some? && (cap.delivery.rung != "helper" || cap.delivery.tool != Some(Tool(req.frontEnd.value))) {
        return Failure(DeliveryMismatch);
      }
      if cap.issuerKind !in registry.env.kinds {
        return Failure(IssuerError);
      }
      resp := CheckoutOf(req, cap, asked, turn);
    }

    method CheckoutOf(req: Request, cap: Cap, asked: Option<int>, turn: Turn) returns (resp: Response)
      requires registry.Valid()
      modifies registry
      ensures registry.Valid()
      ensures var (r, a) := CheckoutCap(config, registry.env, old(registry.View()), req, cap, asked, turn);
              registry.View() == r && resp == a
    {
      var session := SessionOf(config, req, turn.attr);
      var ttl := if asked.None? then cap.ttl else if cap.ttl <= asked.value then cap.ttl else asked.value;
      var found := registry.FindReusable(cap.id, session, turn.attr.harness, turn.lookup, MinRemaining(ttl));
      if found.Some? {
        var (co, value) := found.value;
        return CheckoutAnswer(co.View(), value, true, turn.attr.source, req.frontEnd.Some?, cap.delivery.username);
      }
      if turn.issued.Raised? {
        return Failure(turn.issued.error);
      }
      var e := Fresh(cap, session, ttl, turn, turn.issued.value);
      var co := new RC.Checkout(e.info, false, e.value);
      var saved := registry.Add(co);
      if saved.Raised? {
        return Failure(Internal);
      }
      return CheckoutAnswer(e, turn.issued.value.value, false, turn.attr.source, req.frontEnd.Some?, cap.delivery.username);
    }

    method Targets(req: Request, p: Params, turn: Turn) returns (t: Outcome<seq<Entry>, Code>)
      requires registry.Valid() && p.RevokeParams?
      ensures t == RevokeTargets(config, registry.View(), req, p, turn)
    {
      var session: Option<string> := None;
      if p.ownSession {
        session := Some(SessionOf(config, req, turn.attr));
      }
      match p.selector {
        case All =>
          var es := Select(None, None, session);
          t := Ok(es);
        case OneCheckout(id) =>
          var es := Select(Some(id), None, session);
          t := if es == [] then Raised(NotFound) else Ok(es);
        case OfCapability(target) =>
          var cap := Resolve(target);
          if cap.Raised? {
            return Raised(cap.error);
          }
          var es := Select(None, Some(cap.value.id), session);
          t := Ok(es);
      }
    }

    method Revoke(req: Request, p: Params, turn: Turn) returns (resp: Response)
      requires registry.Valid() && p.RevokeParams?
      modifies registry, registry.Objects()
      ensures registry.Valid()
      ensures var (r, a) := RevokeRequest(config, registry.env, old(registry.View()), req, p, turn);
              registry.View() == r && resp == a
    {
      var targets := Targets(req, p, turn);
      if targets.Raised? {
        return Failure(targets.error);
      }
      if p.dryRun {
        return DryRunAnswer(targets.value);
      }
      var ids := Ids(targets.value);
      var done := registry.Revoke(ids, "requested");
      resp := if done.Raised? then Failure(Internal) else RevokedAnswer(ids, done.value);
    }

    method Dispatch(req: Request, turn: Turn) returns (resp: Response)
      requires registry.Valid()
      modifies registry, registry.Objects()
      ensures registry.Valid()
      ensures var (r, a) := ServiceSpec.Dispatch(config, registry.env, old(registry.View()), req, turn);
              registry.View() == r && resp == a
    {
      match req.params {
        case CheckoutParams(target, ttl) => resp := Checkout(req, target, ttl, turn);
        case RevokeParams(_, _, _) => resp := Revoke(req, req.params, turn);
        case ListParams(capability, session) =>
          var es := Select(None, capability, session);
          resp := Answer(map["checkouts" := MetaList(es)], false);
        case StatusParams => resp := Answer(Status(config, registry.env, registry.View()), false);
      }
    }

    /** The single way out: an answer that broke the value rule would be replaced, but none does. */
    method Respond(req: Request, turn: Turn) returns (resp: Response)
      requires registry.Valid()
      modifies registry, registry.Objects()
      ensures registry.Valid()
      ensures var (r, a) := ServiceSpec.Dispatch(config, registry.env, old(registry.View()), req, turn);
              registry.View() == r && resp == a
      ensures ShapeOk(MethodOf(req), req.frontEnd, resp)
    {
      Secrecy.DispatchedShapeOk(config, registry.env, registry.View(), req, turn);
      resp := Dispatch(req, turn);
      if !ShapeOk(MethodOf(req), req.frontEnd, resp) {
        resp := Failure(Internal);
      }
    }
  }
}
