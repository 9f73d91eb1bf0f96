/**
 The lifecycle of a gateway's OpenShift Routes (internal/controller/openshellgateway_controller.go):
 the cleanup of obsolete Routes, the three Route reconcilers and the routing pass that runs
 them, plus the cleanup on deletion. Every API call of a pass may fail.
 */
module RouteProtocol {
  import opened Options

  datatype Key = Key(name: string, namespace: string)
  datatype Tls = Tls(termination: string, insecurePolicy: string, destinationCA: string)
  datatype Spec = Spec(host: string, to: string, weight: int, port: string, tls: Tls, wildcardPolicy: string)
  datatype Route = Route(labels: map<string, string>, spec: Spec)
  type Routes = map<Key, Route>

  /** The part of the gateway object that routing depends on, with its namespace resolved. */
  datatype Gateway = Gateway(name: string, namespace: string, routeEnabled: Option<bool>,
                             hostname: string, tlsEnabled: Option<bool>)

  const ENVOY_NAMESPACE := "envoy-gateway-system"
  const MANAGED_BY := "app.kubernetes.io/managed-by"
  const INSTANCE := "app.kubernetes.io/instance"

  predicate RouteEnabled(gw: Gateway) {
    gw.routeEnabled != Some(false)
  }

  predicate TlsEnabled(gw: Gateway) {
    gw.tlsEnabled != Some(false)
  }

  predicate Managed(gw: Gateway, r: Route) {
    && MANAGED_BY in r.labels && r.labels[MANAGED_BY] == "ogo"
    && INSTANCE in r.labels && r.labels[INSTANCE] == gw.name
  }

  function GatewayLabels(gw: Gateway): map<string, string> {
    map[MANAGED_BY := "ogo", INSTANCE := gw.name, "app.kubernetes.io/name" := "openshell",
        "app.kubernetes.io/part-of" := "openshell-gateway"]
  }

  function DirectKey(gw: Gateway): Key {
    Key(gw.name, gw.namespace)
  }

  function EnvoyKey(gw: Gateway): Key {
    Key(gw.name + "-gw", ENVOY_NAMESPACE)
  }

  function AuthKey(gw: Gateway): Key {
    Key(gw.name + "-auth", gw.namespace)
  }

  predicate ManagedName(gw: Gateway, name: string) {
    name == gw.name || name == gw.name + "-gw" || name == gw.name + "-auth"
  }

  /** What the routing pass is asked for, besides the gateway object itself. */
  datatype Mode = Mode(useGatewayAPI: bool, authEnabled: bool)

  predicate Desired(gw: Gateway, mode: Mode, k: Key) {
    && RouteEnabled(gw)
    && ((k == DirectKey(gw) && !mode.useGatewayAPI) || (k == EnvoyKey(gw) && mode.useGatewayAPI)
        || (k == AuthKey(gw) && mode.authEnabled))
  }

  function Obsolete(routes: Routes, gw: Gateway, mode: Mode): set<Key> {
    set k | k in routes && Managed(gw, routes[k]) && ManagedName(gw, k.name) && !Desired(gw, mode, k)
  }

  // -------------------------------------------------------------------- service choice

  /** Byte-wise order on names. */
  predicate Before(a: string, b: string) {
    a == [] || (b != [] && (a[0] < b[0] || (a[0] == b[0] && Before(a[1..], b[1..]))))
  }

  lemma {:induction false} BeforeIsAntisymmetric(a: string, b: string)
    requires Before(a, b) && Before(b, a)
    ensures a == b
  {
    if a != [] && b != [] {
      BeforeIsAntisymmetric(a[1..], b[1..]);
      assert a == [a[0]] + a[1..] && b == [b[0]] + b[1..];
    }
  }

  lemma {:induction false} BeforeIsTotal(a: string, b: string)
    ensures Before(a, b) || Before(b, a)
  {
    if a != [] && b != [] && a[0] == b[0] {
      BeforeIsTotal(a[1..], b[1..]);
    }
  }

  lemma {:induction false} BeforeIsTransitive(a: string, b: string, c: string)
    requires Before(a, b) && Before(b, c)
    ensures Before(a, c)
  {
    if a != [] && a[0] == b[0] == c[0] {
      BeforeIsTransitive(a[1..], b[1..], c[1..]);
    }
  }

  /** The service that sorting by name puts first. */
  ghost predicate FirstByName(services: seq<string>, name: string) {
    name in services && forall s :: s in services ==> Before(name, s)
  }

  /** The choice does not depend on the order in which the API lists the services. */
  lemma FirstByNameIgnoresOrder(a: seq<string>, b: seq<string>, x: string, y: string)
    requires (forall s :: s in a <==> s in b) && FirstByName(a, x) && FirstByName(b, y)
    ensures x == y
  {
    BeforeIsAntisymmetric(x, y);
  }

  // ------------------------------------------------------------------- the reconcilers

  /** The fate of the calls one Route reconciler makes. */
  datatype Calls = Calls(get: bool, delete: bool, create: bool, update: bool)

  datatype Outcome = Outcome(routes: Routes, ok: bool)

  function DirectTermination(gw: Gateway): string {
    if TlsEnabled(gw) then "passthrough" else "edge"
  }

  function DirectSpec(gw: Gateway): Spec {
    Spec(gw.hostname, gw.name, 0, "grpc", Tls(DirectTermination(gw), if TlsEnabled(gw) then "" else "Redirect", ""), "")
  }

  /** The existing Route does not show the wanted host or termination. */
  predicate DirectDrifted(gw: Gateway, r: Route) {
    (gw.hostname != "" && r.spec.host != gw.hostname) || r.spec.tls.termination != DirectTermination(gw)
  }

  function Recreate(routes: Routes, k: Key, r: Route, calls: Calls): Outcome {
    if !calls.delete then Outcome(routes, false)
    else if !calls.create then Outcome(routes - {k}, false)
    else Outcome(routes[k := r], true)
  }

  function ReconcileDirect(routes: Routes, gw: Gateway, calls: Calls): Outcome {
    var k, r := DirectKey(gw), Route(GatewayLabels(gw), DirectSpec(gw));
    if !RouteEnabled(gw) then Outcome(routes, true)
    else if !calls.get then Outcome(routes, false)
    else if k !in routes then (if calls.create then Outcome(routes[k := r], true) else Outcome(routes, false))
    else if !Managed(gw, routes[k]) then Outcome(routes, false)
    else if DirectDrifted(gw, routes[k]) then Recreate(routes, k, r, calls)
    else Outcome(routes, true)
  }

  function EnvoySpec(gw: Gateway, service: string): Spec {
    Spec(gw.hostname, service, 0, "10443", Tls("passthrough", "", ""), "")
  }

  /** `service` is the chosen proxy Service: none listed, or the listing itself failed (`listed` false). */
  function ReconcileEnvoy(routes: Routes, gw: Gateway, listed: bool, service: Option<string>, calls: Calls): Outcome {
    var k := EnvoyKey(gw);
    if !RouteEnabled(gw) || gw.hostname == "" then Outcome(routes, true)
    else if !listed then Outcome(routes, false)
    else match service
      case None => Outcome(routes, true)
      case Some(name) =>
        var r := Route(GatewayLabels(gw), EnvoySpec(gw, name));
        if !calls.get then Outcome(routes, false)
        else if k !in routes then (if calls.create then Outcome(routes[k := r], true) else Outcome(routes, false))
        else if !Managed(gw, routes[k]) then Outcome(routes, false)
        else if routes[k].spec.host != gw.hostname || routes[k].spec.to != name then Recreate(routes, k, r, calls)
        else Outcome(routes, true)
  }

  /** The part of the hostname after its first dot. */
  function DomainSuffix(hostname: string): string {
    if '.' !in hostname then hostname else if hostname[0] == '.' then hostname[1..] else DomainSuffix(hostname[1..])
  }

  function AuthHost(gw: Gateway): string {
    if gw.hostname == "" then "" else "openshell-auth." + DomainSuffix(gw.hostname)
  }

  /** `ca` is the published CA; none if the ConfigMap is missing or empty. */
  function AuthTls(gw: Gateway, ca: Option<string>): Option<Tls> {
    if !TlsEnabled(gw) then Some(Tls("edge", "Redirect", ""))
    else if ca.None? then None
    else Some(Tls("reencrypt", "Redirect", ca.value))
  }

  function AuthSpec(gw: Gateway, tls: Tls, host: string): Spec {
    Spec(host, gw.name, 100, "auth", tls, "None")
  }

  function ReconcileAuth(routes: Routes, gw: Gateway, ca: Option<string>, calls: Calls): Outcome {
    var k := AuthKey(gw);
    var tls := AuthTls(gw, ca);
    if !RouteEnabled(gw) then Outcome(routes, true)
    else if !calls.get || (k in routes && !Managed(gw, routes[k])) || tls.None? then Outcome(routes, false)
    else if k !in routes then
      if calls.create then Outcome(routes[k := Route(GatewayLabels(gw), AuthSpec(gw, tls.value, AuthHost(gw)))], true)
      else Outcome(routes, false)
    else
      var spec := AuthSpec(gw, tls.value, if AuthHost(gw) == "" then routes[k].spec.host else AuthHost(gw));
      if routes[k].spec == spec then Outcome(routes, true)
      else if calls.update then Outcome(routes[k := routes[k].(spec := spec)], true)
      else Outcome(routes, false)
  }

  /** Browser SSO and routing are on but no hostname is configured. */
  predicate MissingHostname(gw: Gateway, mode: Mode) {
    mode.authEnabled && RouteEnabled(gw) && gw.hostname == ""
  }

  /** Everything a routing pass reads or is told. `cleanup` is the part of a failed cleanup that was done. */
  datatype Env = Env(cleanup: Option<set<Key>>, listed: bool, service: Option<string>, ca: Option<string>,
                     direct: Calls, envoy: Calls, auth: Calls, scc: bool, oauth: bool)

  function RoutingPass(routes: Routes, gw: Gateway, mode: Mode, env: Env): Outcome {
    if env.cleanup.Some? then Outcome(routes - env.cleanup.value, false)
    else
      var clean := routes - Obsolete(routes, gw, mode);
      var first := if mode.useGatewayAPI then ReconcileEnvoy(clean, gw, env.listed, env.service, env.envoy)
                   else ReconcileDirect(clean, gw, env.direct);
      if !first.ok || !env.scc then Outcome(first.routes, false)
      else if !mode.authEnabled || MissingHostname(gw, mode) then first
      else
        var second := ReconcileAuth(first.routes, gw, env.ca, env.auth);
        Outcome(second.routes, second.ok && env.oauth)
  }

  /** A failed cleanup has deleted only obsolete Routes. */
  ghost predicate Possible(routes: Routes, gw: Gateway, mode: Mode, env: Env) {
    env.cleanup.Some? ==> env.cleanup.value <= Obsolete(routes, gw, mode)
  }

  // ------------------------------------------------------------------------- theorems

  /** The Routes that are not this gateway's. */
  function Others(routes: Routes, gw: Gateway): Routes {
    map k | k in routes && !Managed(gw, routes[k]) :: routes[k]
  }

  lemma OwnLabelsAreManaged(gw: Gateway, spec: Spec)
    ensures Managed(gw, Route(GatewayLabels(gw), spec))
  {
  }

  lemma KeysAreDistinct(gw: Gateway)
    ensures DirectKey(gw) != EnvoyKey(gw) && DirectKey(gw) != AuthKey(gw) && EnvoyKey(gw) != AuthKey(gw)
  {
    assert |gw.name + "-gw"| == |gw.name| + 3 && |gw.name + "-auth"| == |gw.name| + 5;
  }

  lemma DirectLeavesOthers(routes: Routes, gw: Gateway, calls: Calls)
    ensures Others(ReconcileDirect(routes, gw, calls).routes, gw) == Others(routes, gw)
  {
    OwnLabelsAreManaged(gw, DirectSpec(gw));
  }

  lemma EnvoyLeavesOthers(routes: Routes, gw: Gateway, listed: bool, service: Option<string>, calls: Calls)
    ensures Others(ReconcileEnvoy(routes, gw, listed, service, calls).routes, gw) == Others(routes, gw)
  {
    if service.Some? {
      OwnLabelsAreManaged(gw, EnvoySpec(gw, service.value));
    }
  }

  lemma AuthLeavesOthers(routes: Routes, gw: Gateway, ca: Option<string>, calls: Calls)
    ensures Others(ReconcileAuth(routes, gw, ca, calls).routes, gw) == Others(routes, gw)
  {
    if AuthTls(gw, ca).Some? {
      OwnLabelsAreManaged(gw, AuthSpec(gw, AuthTls(gw, ca).value, AuthHost(gw)));
    }
  }

  /** No routing pass, successful or not, creates, changes or deletes a Route that is not the gateway's own. */
  lemma UnmanagedRoutesUntouched(routes: Routes, gw: Gateway, mode: Mode, env: Env)
    requires Possible(routes, gw, mode, env)
    ensures Others(RoutingPass(routes, gw, mode, env).routes, gw) == Others(routes, gw)
  {
    var gone := if env.cleanup.Some? then env.cleanup.value else Obsolete(routes, gw, mode);
    assert Others(routes - gone, gw) == Others(routes, gw);
    var clean := routes - Obsolete(routes, gw, mode);
    DirectLeavesOthers(clean, gw, env.direct);
    EnvoyLeavesOthers(clean, gw, env.listed, env.service, env.envoy);
    var first := if mode.useGatewayAPI then ReconcileEnvoy(clean, gw, env.listed, env.service, env.envoy)
                 else ReconcileDirect(clean, gw, env.direct);
    AuthLeavesOthers(first.routes, gw, env.ca, env.auth);
  }

  /** What a successful pass guarantees about the Route the Route reconciler answers for. */
  ghost predicate DirectSettled(routes: Routes, gw: Gateway) {
    RouteEnabled(gw) ==>
      DirectKey(gw) in routes && Managed(gw, routes[DirectKey(gw)]) && !DirectDrifted(gw, routes[DirectKey(gw)])
  }

  ghost predicate EnvoySettled(routes: Routes, gw: Gateway, service: Option<string>) {
    RouteEnabled(gw) && gw.hostname != "" && service.Some? ==>
      && EnvoyKey(gw) in routes && Managed(gw, routes[EnvoyKey(gw)])
      && routes[EnvoyKey(gw)].spec.host == gw.hostname && routes[EnvoyKey(gw)].spec.to == service.value
  }

  ghost predicate AuthSettled(routes: Routes, gw: Gateway, ca: Option<string>) {
    RouteEnabled(gw) && gw.hostname != "" ==>
      && AuthKey(gw) in routes && Managed(gw, routes[AuthKey(gw)]) && AuthTls(gw, ca).Some?
      && routes[AuthKey(gw)].spec == AuthSpec(gw, AuthTls(gw, ca).value, AuthHost(gw))
  }

  /** `after` is `before` except at `k`. */
  ghost predicate SameBut(before: Routes, after: Routes, k: Key) {
    forall j :: j != k ==> (j in after <==> j in before) && (j in before ==> after[j] == before[j])
  }

  /** `after` is `before` at `k`. */
  ghost predicate SameAt(before: Routes, after: Routes, k: Key) {
    (k in after <==> k in before) && (k in before ==> after[k] == before[k])
  }

  lemma DirectSettles(routes: Routes, gw: Gateway, calls: Calls)
    requires ReconcileDirect(routes, gw, calls).ok
    ensures DirectSettled(ReconcileDirect(routes, gw, calls).routes, gw)
    ensures SameBut(routes, ReconcileDirect(routes, gw, calls).routes, DirectKey(gw))
    ensures !RouteEnabled(gw) ==> ReconcileDirect(routes, gw, calls).routes == routes
  {
    OwnLabelsAreManaged(gw, DirectSpec(gw));
  }

  lemma EnvoySettles(routes: Routes, gw: Gateway, listed: bool, service: Option<string>, calls: Calls)
    requires ReconcileEnvoy(routes, gw, listed, service, calls).ok
    ensures EnvoySettled(ReconcileEnvoy(routes, gw, listed, service, calls).routes, gw, service)
    ensures SameBut(routes, ReconcileEnvoy(routes, gw, listed, service, calls).routes, EnvoyKey(gw))
    ensures !RouteEnabled(gw) || gw.hostname == "" || service.None? ==>
              ReconcileEnvoy(routes, gw, listed, service, calls).routes == routes
  {
    if service.Some? {
      OwnLabelsAreManaged(gw, EnvoySpec(gw, service.value));
    }
  }

  lemma AuthSettles(routes: Routes, gw: Gateway, ca: Option<string>, calls: Calls)
    requires ReconcileAuth(routes, gw, ca, calls).ok
    ensures AuthSettled(ReconcileAuth(routes, gw, ca, calls).routes, gw, ca)
    ensures SameBut(routes, ReconcileAuth(routes, gw, ca, calls).routes, AuthKey(gw))
    ensures !RouteEnabled(gw) ==> ReconcileAuth(routes, gw, ca, calls).routes == routes
  {
    if AuthTls(gw, ca).Some? {
      OwnLabelsAreManaged(gw, AuthSpec(gw, AuthTls(gw, ca).value, AuthHost(gw)));
    }
  }

  ghost predicate Settled(routes: Routes, gw: Gateway, mode: Mode, env: Env) {
    && Obsolete(routes, gw, mode) == {}
    && (if mode.useGatewayAPI then EnvoySettled(routes, gw, env.service) else DirectSettled(routes, gw))
    && (mode.authEnabled ==> AuthSettled(routes, gw, env.ca))
  }

  lemma NothingObsoleteAdded(before: Routes, after: Routes, gw: Gateway, mode: Mode, k: Key)
    requires Obsolete(before, gw, mode) == {} && SameBut(before, after, k) && (after == before || Desired(gw, mode, k))
    ensures Obsolete(after, gw, mode) == {}
  {
    assert forall j :: j in Obsolete(after, gw, mode) ==> j in Obsolete(before, gw, mode);
  }

  /**
   A successful pass from any Route set leaves no managed Route under a managed name but the
   desired ones. It settles the desired Routes, except that the Envoy Route stays as it was while
   there is no hostname or no proxy Service, and the auth Route while there is no hostname.
   */
  lemma RoutesConverge(routes: Routes, gw: Gateway, mode: Mode, env: Env)
    requires RoutingPass(routes, gw, mode, env).ok
    ensures Settled(RoutingPass(routes, gw, mode, env).routes, gw, mode, env)
    ensures RouteEnabled(gw) && mode.useGatewayAPI && (gw.hostname == "" || env.service.None?) ==>
              SameAt(routes, RoutingPass(routes, gw, mode, env).routes, EnvoyKey(gw))
    ensures RouteEnabled(gw) && mode.authEnabled && gw.hostname == "" ==>
              SameAt(routes, RoutingPass(routes, gw, mode, env).routes, AuthKey(gw))
  {
    KeysAreDistinct(gw);
    var clean := routes - Obsolete(routes, gw, mode);
    assert Obsolete(clean, gw, mode) == {};
    var first: Routes, k: Key;
    if mode.useGatewayAPI {
      EnvoySettles(clean, gw, env.listed, env.service, env.envoy);
      first, k := ReconcileEnvoy(clean, gw, env.listed, env.service, env.envoy).routes, EnvoyKey(gw);
    } else {
      DirectSettles(clean, gw, env.direct);
      first, k := ReconcileDirect(clean, gw, env.direct).routes, DirectKey(gw);
    }
    NothingObsoleteAdded(clean, first, gw, mode, k);
    if mode.authEnabled && !MissingHostname(gw, mode) {
      AuthSettles(first, gw, env.ca, env.auth);
      NothingObsoleteAdded(first, ReconcileAuth(first, gw, env.ca, env.auth).routes, gw, mode, AuthKey(gw));
    }
  }

  lemma SettledIsLeftAlone(routes: Routes, gw: Gateway, env: Env)
    ensures DirectSettled(routes, gw) ==> ReconcileDirect(routes, gw, env.direct).routes == routes
    ensures EnvoySettled(routes, gw, env.service) ==>
              ReconcileEnvoy(routes, gw, env.listed, env.service, env.envoy).routes == routes
    ensures AuthSettled(routes, gw, env.ca) && (RouteEnabled(gw) ==> gw.hostname != "")
            ==> ReconcileAuth(routes, gw, env.ca, env.auth).routes == routes
  {
  }

  lemma SettledIsStable(routes: Routes, gw: Gateway, mode: Mode, env: Env, again: Env)
    requires Settled(routes, gw, mode, env) && Possible(routes, gw, mode, again)
    requires again.service == env.service && again.ca == env.ca
    ensures RoutingPass(routes, gw, mode, again).routes == routes
  {
    var none: set<Key> := {};
    assert routes - none == routes;
    assert again.cleanup.Some? ==> again.cleanup.value == none;
    SettledIsLeftAlone(routes, gw, again);
  }

  /** A second pass over the same inputs changes no Route, whatever its own calls report. */
  lemma SecondPassIsIdle(routes: Routes, gw: Gateway, mode: Mode, env: Env, again: Env)
    requires RoutingPass(routes, gw, mode, env).ok
    requires Possible(RoutingPass(routes, gw, mode, env).routes, gw, mode, again)
    requires again.service == env.service && again.ca == env.ca
    ensures RoutingPass(RoutingPass(routes, gw, mode, env).routes, gw, mode, again).routes
            == RoutingPass(routes, gw, mode, env).routes
  {
    RoutesConverge(routes, gw, mode, env);
    SettledIsStable(RoutingPass(routes, gw, mode, env).routes, gw, mode, env, again);
  }

  // ------------------------------------------------- what settling does not look at

  /** The Route is the wanted one in every field; with no hostname the router's own host is fine. */
  predicate DirectWanted(gw: Gateway, r: Route) {
    && (gw.hostname != "" ==> r.spec.host == gw.hostname)
    && r.spec.to == gw.name && r.spec.weight == 0 && r.spec.port == "grpc" && r.spec.wildcardPolicy == ""
    && r.spec.tls == if gw.tlsEnabled == Some(false) then Tls("edge", "Redirect", "") else Tls("passthrough", "", "")
  }

  predicate EnvoyWanted(gw: Gateway, service: string, r: Route) {
    && r.spec.host == gw.hostname && r.spec.to == service && r.spec.weight == 0 && r.spec.port == "10443"
    && r.spec.tls == Tls("passthrough", "", "") && r.spec.wildcardPolicy == ""
  }

  /** A successful pass leaves the direct Route fully as wanted iff it was missing, drifted or as wanted before. */
  lemma DirectExactIff(routes: Routes, gw: Gateway, calls: Calls)
    requires RouteEnabled(gw) && ReconcileDirect(routes, gw, calls).ok
    ensures var k, after := DirectKey(gw), ReconcileDirect(routes, gw, calls).routes;
            && k in after
            && (DirectWanted(gw, after[k]) <==>
                k in routes ==> DirectDrifted(gw, routes[k]) || DirectWanted(gw, routes[k]))
  {
  }

  /** The same for the Envoy Route, whose drift is its host or its Service. */
  lemma EnvoyExactIff(routes: Routes, gw: Gateway, service: string, calls: Calls)
    requires RouteEnabled(gw) && gw.hostname != "" && ReconcileEnvoy(routes, gw, true, Some(service), calls).ok
    ensures var k, after := EnvoyKey(gw), ReconcileEnvoy(routes, gw, true, Some(service), calls).routes;
            && k in after
            && (EnvoyWanted(gw, service, after[k]) <==>
                k in routes ==> || routes[k].spec.host != gw.hostname || routes[k].spec.to != service
                                || EnvoyWanted(gw, service, routes[k]))
  {
  }

  /** A direct Route that was pointed at another Service keeps pointing there. */
  lemma RetargetedRouteStays(gw: Gateway, other: string)
    requires RouteEnabled(gw) && other != gw.name
    ensures var r := Route(GatewayLabels(gw), DirectSpec(gw).(to := other));
            && ReconcileDirect(map[DirectKey(gw) := r], gw, Calls(true, true, true, true))
               == Outcome(map[DirectKey(gw) := r], true)
            && !DirectWanted(gw, r)
  {
    OwnLabelsAreManaged(gw, DirectSpec(gw).(to := other));
  }

  // ------------------------------------------------ the same on labels, names and fields

  /** The Route carries both labels that make it this gateway's. */
  predicate CarriesLabels(r: Route, gw: Gateway) {
    && "app.kubernetes.io/managed-by" in r.labels && r.labels["app.kubernetes.io/managed-by"] == "ogo"
    && "app.kubernetes.io/instance" in r.labels && r.labels["app.kubernetes.io/instance"] == gw.name
  }

  /** The Routes that the routing and the deletion path leave alone are exactly those without the labels. */
  lemma OthersLackLabels(routes: Routes, gw: Gateway, k: Key)
    ensures k in Others(routes, gw) <==> k in routes && !CarriesLabels(routes[k], gw)
    ensures k in Others(routes, gw) ==> Others(routes, gw)[k] == routes[k]
  {
  }

  /** Whatever becomes of the pass, a Route without the labels stays as it is, and no such Route appears. */
  lemma UnlabelledRouteStays(routes: Routes, gw: Gateway, mode: Mode, env: Env, k: Key)
    requires Possible(routes, gw, mode, env)
    ensures var after := RoutingPass(routes, gw, mode, env).routes;
            && (k in routes && !CarriesLabels(routes[k], gw) ==> k in after && after[k] == routes[k])
            && (k in after && !CarriesLabels(after[k], gw) ==> k in routes && after[k] == routes[k])
  {
    UnmanagedRoutesUntouched(routes, gw, mode, env);
    OthersLackLabels(routes, gw, k);
    OthersLackLabels(RoutingPass(routes, gw, mode, env).routes, gw, k);
  }

  /** After a successful pass a labelled Route under one of the three names is where the mode wants one. */
  lemma LabelledRoutesAreWanted(routes: Routes, gw: Gateway, mode: Mode, env: Env, k: Key)
    requires RoutingPass(routes, gw, mode, env).ok && k in RoutingPass(routes, gw, mode, env).routes
    requires CarriesLabels(RoutingPass(routes, gw, mode, env).routes[k], gw)
    requires k.name == gw.name || k.name == gw.name + "-gw" || k.name == gw.name + "-auth"
    ensures gw.routeEnabled != Some(false)
    ensures || (k == Key(gw.name, gw.namespace) && !mode.useGatewayAPI)
            || (k == Key(gw.name + "-gw", "envoy-gateway-system") && mode.useGatewayAPI)
            || (k == Key(gw.name + "-auth", gw.namespace) && mode.authEnabled)
  {
    RoutesConverge(routes, gw, mode, env);
    assert k !in Obsolete(RoutingPass(routes, gw, mode, env).routes, gw, mode);
  }

  /** The suffix is what follows the first dot, or the whole name if there is none. */
  lemma {:induction false} SuffixFollowsFirstDot(hostname: string) returns (first: string)
    ensures '.' !in first
    ensures if '.' in hostname then hostname == first + "." + DomainSuffix(hostname)
            else first == hostname == DomainSuffix(hostname)
  {
    if '.' !in hostname {
      first := hostname;
    } else if hostname[0] == '.' {
      first := "";
      assert hostname == "" + "." + hostname[1..];
    } else {
      var rest := SuffixFollowsFirstDot(hostname[1..]);
      first := [hostname[0]] + rest;
      assert hostname == [hostname[0]] + hostname[1..];
      assert '.' in hostname[1..];
    }
  }

  /** What the Routes of a gateway with a hostname show after a successful pass. */
  lemma RoutesShowSpec(routes: Routes, gw: Gateway, mode: Mode, env: Env)
    requires RoutingPass(routes, gw, mode, env).ok && gw.routeEnabled != Some(false) && gw.hostname != ""
    ensures var after := RoutingPass(routes, gw, mode, env).routes;
            && (!mode.useGatewayAPI ==>
                  var k := Key(gw.name, gw.namespace);
                  && k in after && CarriesLabels(after[k], gw) && after[k].spec.host == gw.hostname
                  && after[k].spec.tls.termination == if gw.tlsEnabled == Some(false) then "edge" else "passthrough")
            && (mode.useGatewayAPI && env.service.Some? ==>
                  var k := Key(gw.name + "-gw", "envoy-gateway-system");
                  && k in after && CarriesLabels(after[k], gw)
                  && after[k].spec.host == gw.hostname && after[k].spec.to == env.service.value)
            && (mode.authEnabled ==>
                  var k := Key(gw.name + "-auth", gw.namespace);
                  && k in after && CarriesLabels(after[k], gw) && ShowsAuth(gw, env.ca, after[k].spec))
  {
    RoutesConverge(routes, gw, mode, env);
  }

  /** The auth bridge's host under the gateway's domain, and TLS that trusts the published CA. */
  predicate ShowsAuth(gw: Gateway, ca: Option<string>, spec: Spec) {
    && spec.host == "openshell-auth." + DomainSuffix(gw.hostname)
    && spec.to == gw.name && spec.weight == 100 && spec.port == "auth" && spec.wildcardPolicy == "None"
    && spec.tls.insecurePolicy == "Redirect"
    && (if gw.tlsEnabled == Some(false) then spec.tls.termination == "edge" && spec.tls.destinationCA == ""
        else spec.tls.termination == "reencrypt" && ca == Some(spec.tls.destinationCA))
  }

  /** A Route that the pass creates carries the operator's four labels. */
  lemma NewRoutesAreLabelled(routes: Routes, gw: Gateway, mode: Mode, env: Env, k: Key)
    requires k !in routes && k in RoutingPass(routes, gw, mode, env).routes
    ensures RoutingPass(routes, gw, mode, env).routes[k].labels
         == map["app.kubernetes.io/managed-by" := "ogo", "app.kubernetes.io/instance" := gw.name,
                "app.kubernetes.io/name" := "openshell", "app.kubernetes.io/part-of" := "openshell-gateway"]
  {
    KeysAreDistinct(gw);
  }

  /** A pass succeeds when its calls do, no foreign Route is in the way and the auth bridge's CA is published. */
  lemma CleanPassSucceeds(routes: Routes, gw: Gateway, mode: Mode, env: Env)
    requires env.cleanup.None? && env.listed && env.scc && env.oauth
    requires env.direct == env.envoy == env.auth == Calls(true, true, true, true)
    requires forall k :: k in routes && k in {DirectKey(gw), EnvoyKey(gw), AuthKey(gw)} ==> CarriesLabels(routes[k], gw)
    requires gw.tlsEnabled == Some(false) || env.ca.Some?
    ensures RoutingPass(routes, gw, mode, env).ok
  {
    KeysAreDistinct(gw);
    var clean := routes - Obsolete(routes, gw, mode);
    assert AuthKey(gw) in clean ==> Managed(gw, clean[AuthKey(gw)]);
    assert DirectKey(gw) in clean ==> Managed(gw, clean[DirectKey(gw)]);
    assert EnvoyKey(gw) in clean ==> Managed(gw, clean[EnvoyKey(gw)]);
  }
}
