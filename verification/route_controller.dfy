/**
 The Route reconcilers as the source runs them, on the cluster's set of Routes
 (internal/controller/openshellgateway_controller.go). Each is proved against RouteProtocol.
 */
module RouteController {
  import opened Options
  import opened RouteProtocol

  /** `order` lists every Route that carries the gateway's labels. */
  ghost predicate ListsManaged(routes: Routes, gw: Gateway, order: seq<Key>) {
    && (forall i :: 0 <= i < |order| ==> order[i] in routes && Managed(gw, routes[order[i]]))
    && (forall k :: k in routes && Managed(gw, routes[k]) ==> k in order)
    && (forall i, j :: 0 <= i < j < |order| ==> order[i] != order[j])
  }

  /** Sorting the services by name and taking the first. */
  method PickService(services: seq<string>) returns (name: string)
    requires services != []
    ensures FirstByName(services, name)
  {
    name := services[0];
    BeforeIsTotal(name, name);
    for i := 1 to |services|
      invariant name in services && forall j :: 0 <= j < i ==> Before(name, services[j])
    {
      BeforeIsTotal(name, services[i]);
      BeforeIsTotal(services[i], services[i]);
      if !Before(name, services[i]) {
        forall j | 0 <= j < i ensures Before(services[i], services[j]) {
          BeforeIsTransitive(services[i], name, services[j]);
        }
        name := services[i];
      }
    }
  }

  /** What the API answers to the calls of one routing pass. */
  datatype Input = Input(listed: bool, order: seq<Key>, undeletable: set<Key>,
                         services: Option<seq<string>>, ca: Option<string>,
                         direct: Calls, envoy: Calls, auth: Calls, scc: bool, oauth: bool)

  class RouteReconciler {
    var routes: Routes

    constructor (routes: Routes)
      ensures this.routes == routes
    {
      this.routes := routes;
    }

    /** Deletes obsolete Routes one by one and stops at the first deletion that fails. */
    method ReconcileObsoleteRoutes(gw: Gateway, mode: Mode, input: Input) returns (ok: bool, ghost done: set<Key>)
      requires ListsManaged(routes, gw, input.order)
      modifies this
      ensures done <= Obsolete(old(routes), gw, mode) && routes == old(routes) - done
      ensures ok ==> done == Obsolete(old(routes), gw, mode)
    {
      done := {};
      assert routes == routes - done;
      if !input.listed {
        return false, done;
      }
      for i := 0 to |input.order|
        invariant done == set j | 0 <= j < i && input.order[j] in Obsolete(old(routes), gw, mode) :: input.order[j]
        invariant routes == old(routes) - done
      {
        var k := input.order[i];
        if ManagedName(gw, k.name) && !Desired(gw, mode, k) {
          if k in input.undeletable {
            return false, done;
          }
          routes := routes - {k};
          done := done + {k};
        }
      }
      ok := true;
      forall k | k in Obsolete(old(routes), gw, mode) ensures k in done {
        assert k in input.order;
      }
    }

    /** The cleanup on deletion of the gateway: every Route with its labels, under any name. */
    method DeleteManagedRoutes(gw: Gateway, input: Input) returns (ok: bool)
      requires ListsManaged(routes, gw, input.order)
      modifies this
      ensures Others(routes, gw) == Others(old(routes), gw)
      ensures ok ==> routes == Others(old(routes), gw)
    {
      if !input.listed {
        return false;
      }
      ghost var done: set<Key> := {};
      assert routes == routes - done;
      for i := 0 to |input.order|
        invariant done == set j | 0 <= j < i :: input.order[j]
        invariant routes == old(routes) - done
      {
        var k := input.order[i];
        if k in input.undeletable {
          assert Others(routes, gw) == Others(old(routes), gw);
          return false;
        }
        routes := routes - {k};
        done := done + {k};
      }
      assert forall k :: k in old(routes) && Managed(gw, old(routes)[k]) ==> k in input.order;
      assert forall k :: k in done <==> k in old(routes) && Managed(gw, old(routes)[k]);
      return true;
    }

    method ReconcileRoute(gw: Gateway, calls: Calls) returns (ok: bool)
      modifies this
      ensures Outcome(routes, ok) == ReconcileDirect(old(routes), gw, calls)
    {
      if gw.routeEnabled == Some(false) {
        return true;
      }
      var tlsTermination := "passthrough";
      var insecurePolicy := "";
      if gw.tlsEnabled == Some(false) {
        tlsTermination := "edge";
        insecurePolicy := "Redirect";
      }
      var spec := Spec(gw.hostname, gw.name, 0, "grpc", Tls(tlsTermination, insecurePolicy, ""), "");
      var key := DirectKey(gw);
      if !calls.get {
        return false;
      }
      if key !in routes {
        if calls.create {
          routes := routes[key := Route(GatewayLabels(gw), spec)];
        }
        return calls.create;
      }
      var existing := routes[key];
      if !Managed(gw, existing) {
        return false;
      }
      var needsRecreate := (gw.hostname != "" && existing.spec.host != gw.hostname) ||
        existing.spec.tls.termination != tlsTermination;
      if needsRecreate {
        if !calls.delete {
          return false;
        }
        routes := routes - {key};
        if calls.create {
          routes := routes[key := Route(GatewayLabels(gw), spec)];
        }
        return calls.create;
      }
      return true;
    }

    method ReconcileEnvoyRoute(gw: Gateway, services: Option<seq<string>>, calls: Calls)
      returns (ok: bool, ghost service: Option<string>)
      modifies this
      ensures services.Some? && services.value != [] ==> service.Some? && FirstByName(services.value, service.value)
      ensures services.None? || services.value == [] ==> service.None?
      ensures Outcome(routes, ok) == ReconcileEnvoy(old(routes), gw, services.Some?, service, calls)
    {
      var chosen: Option<string> := None;
      if services.Some? && services.value != [] {
        var name := PickService(services.value);
        chosen := Some(name);
      }
      service := chosen;
      if gw.routeEnabled == Some(false) {
        return true, service;
      }
      if gw.hostname == "" {
        return true, service;
      }
      if services.None? {
        return false, service;
      }
      if chosen.None? {
        return true, service;
      }
      var key := EnvoyKey(gw);
      var wanted := Route(GatewayLabels(gw),
                            Spec(gw.hostname, chosen.value, 0, "10443", Tls("passthrough", "", ""), ""));
      if !calls.get {
        return false, service;
      }
      if key !in routes {
        if calls.create {
          routes := routes[key := wanted];
        }
        return calls.create, service;
      }
      var existing := routes[key];
      if !Managed(gw, existing) {
        return false, service;
      }
      if existing.spec.host != gw.hostname || existing.spec.to != chosen.value {
        if !calls.delete {
          return false, service;
        }
        routes := routes - {key};
        if calls.create {
          routes := routes[key := wanted];
        }
        return calls.create, service;
      }
      return true, service;
    }

    method ReconcileAuthBridgeRoute(gw: Gateway, ca: Option<string>, calls: Calls) returns (ok: bool)
      modifies this
      ensures Outcome(routes, ok) == ReconcileAuth(old(routes), gw, ca, calls)
    {
      if gw.routeEnabled == Some(false) {
        return true;
      }
      var key := AuthKey(gw);
      if !calls.get {
        return false;
      }
      var creating := key !in routes;
      if !creating && !Managed(gw, routes[key]) {
        return false;
      }
      var tls := AuthTls(gw, ca);
      if tls.None? {
        return false;
      }
      var spec := Spec(AuthHost(gw), gw.name, 100, "auth", tls.value, "None");
      if creating {
        if calls.create {
          routes := routes[key := Route(GatewayLabels(gw), spec)];
        }
        return calls.create;
      }
      if spec.host == "" {
        spec := spec.(host := routes[key].spec.host);
      }
      if routes[key].spec == spec {
        return true;
      }
      if calls.update {
        routes := routes[key := routes[key].(spec := spec)];
      }
      return calls.update;
    }

    method ReconcileOpenShiftRouting(gw: Gateway, mode: Mode, input: Input) returns (ok: bool, ghost env: Env)
      requires ListsManaged(routes, gw, input.order)
      modifies this
      ensures Possible(old(routes), gw, mode, env)
      ensures Outcome(routes, ok) == RoutingPass(old(routes), gw, mode, env)
      ensures env.ca == input.ca
      ensures ok && mode.useGatewayAPI && input.services.Some? && input.services.value != [] ==>
                env.service.Some? && FirstByName(input.services.value, env.service.value)
    {
      env := Env(None, input.services.Some?, None, input.ca, input.direct, input.envoy,
                 input.auth, input.scc, input.oauth);
      ghost var done;
      ok, done := ReconcileObsoleteRoutes(gw, mode, input);
      if !ok {
        env := env.(cleanup := Some(done));
        return;
      }
      if mode.useGatewayAPI {
        ghost var service;
        ok, service := ReconcileEnvoyRoute(gw, input.services, input.envoy);
        env := env.(service := service);
      } else {
        ok := ReconcileRoute(gw, input.direct);
      }
      if !ok || !input.scc {
        ok := false;
        return;
      }
      if mode.authEnabled {
        if !MissingHostname(gw, mode) {
          ok := ReconcileAuthBridgeRoute(gw, input.ca, input.auth);
          if !ok {
            return;
          }
          ok := input.oauth;
        }
      }
    }
  }
}
