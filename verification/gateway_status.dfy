/**
 How the gateway controller computes the status it reports
 (internal/controller/openshellgateway_controller.go): the conditions a pass collects in memory,
 updateStatus at its end, setDegraded when a step fails, and the write for a second gateway.
 */
module GatewayStatus {
  import opened Options

  datatype Phase = Pending | Creating | Running | Failed
  datatype Dep = EnvoyGateway | Database | EnvoyProxySCC | OpenShiftGroups | ImageConfig
  datatype Type = Available | Progressing | Degraded | EnvoyRouteReady | BrowserSSOReady | Dependency(dep: Dep)
  datatype Truth = True | False | Unknown
  datatype Reason =
    | Ready | NotReady | Deploying | WaitingForConfig | Complete | HostnameMissing
    | EnvoyRouteNotReady | DeploymentNotFound
    | OK | ReconcileError | MultipleGateways | ProxyServiceNotFound | Other(text: string)
  datatype Condition = Condition(status: Truth, reason: Reason)
  type Conditions = map<Type, Condition>
  datatype Status = Status(phase: Phase, conditions: Conditions, observedGeneration: nat)

  datatype Deployment = Deployment(readyReplicas: int, replicas: Option<int>)

  /**
   What one pass finds. The cluster's Gateway API is detected twice, at the start of the pass and
   again in updateStatus. `dependencies` are the conditions of the dependency reconcilers and of
   the image check; `envoy` is the condition reconcileEnvoyRoute returns once a hostname is set.
   */
  datatype Inputs = Inputs(isOpenShift: bool, gatewayAPIAtStart: bool, gatewayAPIAtEnd: bool,
                           gatewayAPISetting: Option<bool>,
                           authSetting: Option<bool>, routeEnabled: bool, hostname: string,
                           dependencies: map<Dep, Condition>,
                           envoy: Condition, deployment: Option<Deployment>, generation: nat)

  function Chosen(setting: Option<bool>, detected: bool): bool {
    if setting.Some? then setting.value else detected
  }

  predicate UsesGatewayAPI(n: Inputs) {
    Chosen(n.gatewayAPISetting, n.gatewayAPIAtStart)
  }

  predicate AuthEnabled(n: Inputs) {
    Chosen(n.authSetting, n.isOpenShift)
  }

  predicate MissingHostname(n: Inputs) {
    AuthEnabled(n) && n.routeEnabled && n.hostname == ""
  }

  /** updateStatus decides anew whether the Envoy Route matters. */
  predicate EnvoyRouteActive(n: Inputs) {
    n.routeEnabled && Chosen(n.gatewayAPISetting, n.gatewayAPIAtEnd)
  }

  predicate PodsReady(n: Inputs) {
    && n.deployment.Some? && n.deployment.value.readyReplicas > 0
    && n.deployment.value.readyReplicas ==
       if n.deployment.value.replicas.Some? then n.deployment.value.replicas.value else 1
  }

  // ------------------------------------------------------------- conditions of one pass

  /** What the pass itself sets for the Envoy Route: reconcileGatewayAPI first,
      reconcileEnvoyRoute on OpenShift after it. */
  function EnvoyCondition(n: Inputs): Option<Condition> {
    if UsesGatewayAPI(n) && n.hostname == "" then Some(Condition(False, HostnameMissing))
    else if UsesGatewayAPI(n) && n.isOpenShift && n.routeEnabled then Some(n.envoy)
    else None
  }

  function SSOCondition(n: Inputs): Option<Condition> {
    if !n.isOpenShift || !AuthEnabled(n) then None
    else Some(if MissingHostname(n) then Condition(False, HostnameMissing) else Condition(True, Ready))
  }

  function Set(c: Conditions, t: Type, v: Option<Condition>): Conditions {
    if v.Some? then c[t := v.value] else c
  }

  function WithDependencies(stored: Conditions, deps: map<Dep, Condition>): Conditions {
    stored + map d | d in deps :: Dependency(d) := deps[d]
  }

  /** The conditions in memory when a pass reaches updateStatus: the stored ones, then what the pass set. */
  function Collected(stored: Conditions, n: Inputs): Conditions {
    Set(Set(WithDependencies(stored, n.dependencies), EnvoyRouteReady, EnvoyCondition(n)),
        BrowserSSOReady, SSOCondition(n))
  }

  function Find(c: Conditions, t: Type): Option<Condition> {
    if t in c then Some(c[t]) else None
  }

  predicate Blocks(collected: Conditions, t: Type, active: bool) {
    active && t in collected && collected[t].status != True
  }

  /** What updateStatus makes of the stored status and the collected conditions. */
  function Finished(stored: Status, collected: Conditions, n: Inputs): Status {
    if n.deployment.None? then
      stored.(phase := Failed, conditions := stored.conditions[Available := Condition(False, DeploymentNotFound)])
    else
      var envoyBlocks := Blocks(collected, EnvoyRouteReady, EnvoyRouteActive(n));
      var ssoBlocks := Blocks(collected, BrowserSSOReady, AuthEnabled(n));
      Status(PhaseFor(n, envoyBlocks, ssoBlocks),
             FinalConditions(stored.conditions, collected, n, envoyBlocks, ssoBlocks), n.generation)
  }

  function PhaseFor(n: Inputs, envoyBlocks: bool, ssoBlocks: bool): Phase {
    if PodsReady(n) && !envoyBlocks && !ssoBlocks then Running else Creating
  }

  function AvailableFor(n: Inputs, envoyBlocks: bool, ssoBlocks: bool): Condition {
    if !PodsReady(n) then Condition(False, NotReady)
    else if ssoBlocks then Condition(False, HostnameMissing)
    else if envoyBlocks then Condition(False, EnvoyRouteNotReady)
    else Condition(True, Ready)
  }

  function ProgressingFor(n: Inputs, envoyBlocks: bool, ssoBlocks: bool): Condition {
    if !PodsReady(n) then Condition(True, Deploying)
    else if ssoBlocks then Condition(True, WaitingForConfig)
    else if envoyBlocks then Condition(True, Deploying)
    else Condition(False, Complete)
  }

  function FinalConditions(stored: Conditions, collected: Conditions, n: Inputs,
                           envoyBlocks: bool, ssoBlocks: bool): Conditions {
    map t | t in (stored.Keys + collected.Keys + {Available, Progressing, Degraded}) && Kept(n, t)
          :: match t
             case Available => AvailableFor(n, envoyBlocks, ssoBlocks)
             case Progressing => ProgressingFor(n, envoyBlocks, ssoBlocks)
             case Degraded => Condition(False, OK)
             case _ => if t in collected then collected[t] else stored[t]
  }

  /** An inactive Envoy or SSO condition is dropped, not carried along. */
  predicate Kept(n: Inputs, t: Type) {
    (t.EnvoyRouteReady? ==> EnvoyRouteActive(n)) && (t.BrowserSSOReady? ==> AuthEnabled(n))
  }

  // ------------------------------------------------------------------------------- runs

  /** How a pass ends: at updateStatus, at a failing step, or at once because another gateway is older. */
  datatype Ending = Ends | StepFails | NotTheOldest

  datatype Pass = Pass(inputs: Inputs, ending: Ending, fetched: bool, written: bool)

  function After(s: Status, p: Pass): Status {
    var t := match p.ending
      case Ends => Finished(s, Collected(s.conditions, p.inputs), p.inputs)
      case StepFails => Status(Failed, s.conditions[Degraded := Condition(True, ReconcileError)], p.inputs.generation)
      case NotTheOldest =>
        s.(phase := Failed, conditions := s.conditions[Degraded := Condition(True, MultipleGateways)]);
    if p.written && (p.fetched || p.ending.NotTheOldest?) then t else s
  }

  function AfterAll(s: Status, ps: seq<Pass>): Status {
    if ps == [] then s else After(AfterAll(s, ps[..|ps| - 1]), ps[|ps| - 1])
  }

  const NO_STATUS := Status(Pending, map[], 0)

  predicate AbsentOrTrue(c: Conditions, t: Type) {
    t in c ==> c[t].status == True
  }

  /** Running is reported only with every other condition agreeing. */
  predicate Honest(s: Status) {
    s.phase.Running? ==>
      && Available in s.conditions && s.conditions[Available].status == True
      && Progressing in s.conditions && s.conditions[Progressing].status == False
      && Degraded in s.conditions && s.conditions[Degraded].status == False
      && AbsentOrTrue(s.conditions, EnvoyRouteReady) && AbsentOrTrue(s.conditions, BrowserSSOReady)
  }

  /** The two conditions that can block, as the pass sees them. */
  lemma CollectedBlockers(stored: Conditions, n: Inputs)
    ensures Find(Collected(stored, n), EnvoyRouteReady)
            == if EnvoyCondition(n).Some? then EnvoyCondition(n) else Find(stored, EnvoyRouteReady)
    ensures Find(Collected(stored, n), BrowserSSOReady)
            == if SSOCondition(n).Some? then SSOCondition(n) else Find(stored, BrowserSSOReady)
  {
  }

  /** The conditions updateStatus writes, looked up one by one. */
  lemma FinalLookup(stored: Conditions, collected: Conditions, n: Inputs, envoyBlocks: bool, ssoBlocks: bool)
    ensures var c := FinalConditions(stored, collected, n, envoyBlocks, ssoBlocks);
            && Find(c, Available) == Some(AvailableFor(n, envoyBlocks, ssoBlocks))
            && Find(c, Progressing) == Some(ProgressingFor(n, envoyBlocks, ssoBlocks))
            && Find(c, Degraded) == Some(Condition(False, OK))
            && (forall t :: t in {EnvoyRouteReady, BrowserSSOReady} ==>
                              Find(c, t) == if !Kept(n, t) then None
                                            else if t in collected then Some(collected[t]) else Find(stored, t))
  {
  }

  lemma FinishedIsHonest(s: Status, n: Inputs)
    ensures Honest(Finished(s, Collected(s.conditions, n), n))
  {
    var collected := Collected(s.conditions, n);
    CollectedBlockers(s.conditions, n);
    FinalLookup(s.conditions, collected, n, Blocks(collected, EnvoyRouteReady, EnvoyRouteActive(n)),
                Blocks(collected, BrowserSSOReady, AuthEnabled(n)));
    if n.deployment.Some? {
      var final := Finished(s, collected, n).conditions;
      assert Find(final, EnvoyRouteReady).Some? || EnvoyRouteReady !in final;
      assert Find(final, BrowserSSOReady).Some? || BrowserSSOReady !in final;
    }
  }

  lemma PassKeepsHonest(s: Status, p: Pass)
    requires Honest(s)
    ensures Honest(After(s, p))
  {
    FinishedIsHonest(s, p.inputs);
  }

  /** Over every run of passes, finished, failed or with lost writes,
      a Running gateway is available, settled and unblocked. */
  lemma {:induction false} RunningIsHonest(ps: seq<Pass>)
    ensures Honest(AfterAll(NO_STATUS, ps))
  {
    if ps != [] {
      RunningIsHonest(ps[..|ps| - 1]);
      PassKeepsHonest(AfterAll(NO_STATUS, ps[..|ps| - 1]), ps[|ps| - 1]);
    }
  }

  // ---------------------------------------------------------------- history independence

  /** The part of the status that tells a user whether the gateway works. */
  datatype Summary = Summary(phase: Phase, available: Option<Condition>,
                             progressing: Option<Condition>, degraded: Option<Condition>)

  function Summarize(s: Status): Summary {
    Summary(s.phase, Find(s.conditions, Available), Find(s.conditions, Progressing), Find(s.conditions, Degraded))
  }

  function Report(s: Status, n: Inputs): Summary {
    Summarize(Finished(s, Collected(s.conditions, n), n))
  }

  /** The Gateway API was not there at the start of the pass and is there at its end. */
  predicate DetectionFlips(n: Inputs) {
    n.routeEnabled && n.gatewayAPISetting.None? && !n.gatewayAPIAtStart && n.gatewayAPIAtEnd
  }

  /** The report is the same after every history of passes. */
  ghost predicate IgnoresHistory(n: Inputs) {
    forall ps, qs :: Report(AfterAll(NO_STATUS, ps), n) == Report(AfterAll(NO_STATUS, qs), n)
  }

  /** The report depends on the two blocking answers and on nothing else of the past. */
  lemma ReportFor(s: Status, n: Inputs, envoyBlocks: bool, ssoBlocks: bool)
    requires n.deployment.Some?
    requires envoyBlocks == Blocks(Collected(s.conditions, n), EnvoyRouteReady, EnvoyRouteActive(n))
    requires ssoBlocks == Blocks(Collected(s.conditions, n), BrowserSSOReady, AuthEnabled(n))
    ensures Report(s, n) == Summary(PhaseFor(n, envoyBlocks, ssoBlocks), Some(AvailableFor(n, envoyBlocks, ssoBlocks)),
                                    Some(ProgressingFor(n, envoyBlocks, ssoBlocks)), Some(Condition(False, OK)))
  {
    FinalLookup(s.conditions, Collected(s.conditions, n), n, envoyBlocks, ssoBlocks);
  }

  /** On OpenShift a pass refreshes both answers, unless the Gateway API appears in its course. */
  lemma BlockingIsRefreshed(s: Status, n: Inputs)
    requires n.isOpenShift
    ensures Blocks(Collected(s.conditions, n), BrowserSSOReady, AuthEnabled(n)) == MissingHostname(n)
    ensures !DetectionFlips(n) ==>
              Blocks(Collected(s.conditions, n), EnvoyRouteReady, EnvoyRouteActive(n))
              == (EnvoyRouteActive(n) && (n.hostname == "" || n.envoy.status != True))
  {
    CollectedBlockers(s.conditions, n);
  }

  lemma ReportWithoutFlip(s: Status, t: Status, n: Inputs)
    requires n.isOpenShift && n.deployment.Some?
    requires !(DetectionFlips(n) && PodsReady(n) && !MissingHostname(n))
    ensures Report(s, n) == Report(t, n)
  {
    BlockingIsRefreshed(s, n);
    BlockingIsRefreshed(t, n);
    ReportFor(s, n, Blocks(Collected(s.conditions, n), EnvoyRouteReady, EnvoyRouteActive(n)), MissingHostname(n));
    ReportFor(t, n, Blocks(Collected(t.conditions, n), EnvoyRouteReady, EnvoyRouteActive(n)), MissingHostname(n));
  }

  /** The history of one pass that used the Gateway API and still waits for the proxy Service. */
  function WaitingForProxy(n: Inputs): seq<Pass> {
    [Pass(n.(gatewayAPIAtStart := true, envoy := Condition(False, ProxyServiceNotFound)), Ends, true, true)]
  }

  lemma WaitingLeavesCondition(n: Inputs)
    requires n.isOpenShift && DetectionFlips(n) && PodsReady(n)
    ensures EnvoyRouteReady in AfterAll(NO_STATUS, WaitingForProxy(n)).conditions
    ensures AfterAll(NO_STATUS, WaitingForProxy(n)).conditions[EnvoyRouteReady].status == False
  {
    var ps := WaitingForProxy(n);
    var m := ps[0].inputs;
    var collected := Collected(map[], m);
    assert ps[..0] == [];
    assert AfterAll(NO_STATUS, ps) == Finished(NO_STATUS, collected, m);
    CollectedBlockers(map[], m);
    FinalLookup(map[], collected, m, Blocks(collected, EnvoyRouteReady, EnvoyRouteActive(m)),
                Blocks(collected, BrowserSSOReady, AuthEnabled(m)));
  }

  /** The stale condition of an earlier pass decides, because this pass did not look at the Envoy Route. */
  lemma StaleConditionDecides(s: Status, n: Inputs)
    requires n.isOpenShift && DetectionFlips(n) && PodsReady(n) && !MissingHostname(n)
    ensures Report(s, n).phase.Running? <==> AbsentOrTrue(s.conditions, EnvoyRouteReady)
  {
    CollectedBlockers(s.conditions, n);
    BlockingIsRefreshed(s, n);
    var blocks := Blocks(Collected(s.conditions, n), EnvoyRouteReady, EnvoyRouteActive(n));
    assert blocks <==> !AbsentOrTrue(s.conditions, EnvoyRouteReady) by {
      assert Find(Collected(s.conditions, n), EnvoyRouteReady) == Find(s.conditions, EnvoyRouteReady);
    }
    ReportFor(s, n, blocks, false);
  }

  lemma FlipExposesHistory(n: Inputs)
    requires n.isOpenShift && DetectionFlips(n) && PodsReady(n) && !MissingHostname(n)
    ensures !IgnoresHistory(n)
  {
    WaitingLeavesCondition(n);
    StaleConditionDecides(AfterAll(NO_STATUS, []), n);
    StaleConditionDecides(AfterAll(NO_STATUS, WaitingForProxy(n)), n);
  }

  /**
   On an OpenShift pass that reaches the end of updateStatus with a Deployment, the phase and the
   three main conditions do not depend on what earlier passes left behind, except exactly when
   the Gateway API appears during the pass itself while nothing else blocks.
   */
  lemma HistoryIgnoredIff(n: Inputs)
    requires n.isOpenShift && n.deployment.Some?
    ensures IgnoresHistory(n) <==> !(DetectionFlips(n) && PodsReady(n) && !MissingHostname(n))
  {
    if DetectionFlips(n) && PodsReady(n) && !MissingHostname(n) {
      FlipExposesHistory(n);
    } else {
      forall ps, qs ensures Report(AfterAll(NO_STATUS, ps), n) == Report(AfterAll(NO_STATUS, qs), n) {
        ReportWithoutFlip(AfterAll(NO_STATUS, ps), AfterAll(NO_STATUS, qs), n);
      }
    }
  }

  // ------------------------------------------------- the report on the pass's own inputs

  /** As many pods are ready as the Deployment asks for (one if it does not say), and at least one. */
  predicate AllReady(d: Deployment) {
    d.readyReplicas >= 1 && (d.replicas == Some(d.readyReplicas) || (d.replicas.None? && d.readyReplicas == 1))
  }

  /** Browser login is on, on OpenShift by default, and routed, and has no hostname to go to. */
  predicate LoginBroken(n: Inputs) {
    n.authSetting != Some(false) && n.routeEnabled && n.hostname == ""
  }

  /** Routing goes through the Gateway API, and the Envoy Route has no hostname or is not ready. */
  predicate EnvoyBroken(n: Inputs) {
    && n.routeEnabled
    && (n.gatewayAPISetting == Some(true) || (n.gatewayAPISetting.None? && n.gatewayAPIAtEnd))
    && (n.hostname == "" || !n.envoy.status.True?)
  }

  /**
   What a finished OpenShift pass with a Deployment reports, whatever was stored before: Running
   exactly when every pod is ready and neither login nor Envoy Route is broken.
   */
  lemma ReportOnOpenShift(s: Status, n: Inputs)
    requires n.isOpenShift && n.deployment.Some? && !DetectionFlips(n)
    ensures var r, up := Report(s, n), AllReady(n.deployment.value);
            && (r.phase.Running? <==> up && !LoginBroken(n) && !EnvoyBroken(n))
            && (!r.phase.Running? ==> r.phase.Creating?)
            && r.degraded == Some(Condition(False, OK))
            && r.available == Some(if !up then Condition(False, NotReady)
                                   else if LoginBroken(n) then Condition(False, HostnameMissing)
                                   else if EnvoyBroken(n) then Condition(False, EnvoyRouteNotReady)
                                   else Condition(True, Ready))
            && r.progressing == Some(if !up then Condition(True, Deploying)
                                     else if LoginBroken(n) then Condition(True, WaitingForConfig)
                                     else if EnvoyBroken(n) then Condition(True, Deploying)
                                     else Condition(False, Complete))
  {
    BlockingIsRefreshed(s, n);
    ReportFor(s, n, EnvoyBroken(n), LoginBroken(n));
  }

  /** What it reports about login and Envoy Route themselves: a condition that is not active is dropped. */
  lemma BlockersOnOpenShift(s: Status, n: Inputs)
    requires n.isOpenShift && n.deployment.Some? && !DetectionFlips(n)
    ensures var after := Finished(s, Collected(s.conditions, n), n);
            && after.observedGeneration == n.generation
            && Find(after.conditions, BrowserSSOReady)
               == (if n.authSetting == Some(false) then None
                   else Some(if LoginBroken(n) then Condition(False, HostnameMissing) else Condition(True, Ready)))
            && Find(after.conditions, EnvoyRouteReady)
               == (if !n.routeEnabled || !(n.gatewayAPISetting == Some(true)
                                           || (n.gatewayAPISetting.None? && n.gatewayAPIAtEnd)) then None
                   else Some(if n.hostname == "" then Condition(False, HostnameMissing) else n.envoy))
  {
    var collected := Collected(s.conditions, n);
    CollectedBlockers(s.conditions, n);
    FinalLookup(s.conditions, collected, n, Blocks(collected, EnvoyRouteReady, EnvoyRouteActive(n)),
                Blocks(collected, BrowserSSOReady, AuthEnabled(n)));
    assert EnvoyRouteReady in {EnvoyRouteReady, BrowserSSOReady};
    assert BrowserSSOReady in {EnvoyRouteReady, BrowserSSOReady};
    assert Find(collected, EnvoyRouteReady).Some? <==> EnvoyRouteReady in collected;
    assert Find(collected, BrowserSSOReady).Some? <==> BrowserSSOReady in collected;
  }

  lemma CollectedDependency(stored: Conditions, n: Inputs, d: Dep)
    ensures Find(Collected(stored, n), Dependency(d))
         == if d in n.dependencies then Some(n.dependencies[d]) else Find(stored, Dependency(d))
  {
    var w := WithDependencies(stored, n.dependencies);
    assert d in n.dependencies ==> Dependency(d) in w && w[Dependency(d)] == n.dependencies[d];
  }

  lemma FinalDependency(stored: Conditions, collected: Conditions, n: Inputs, envoyBlocks: bool, ssoBlocks: bool,
                        d: Dep)
    ensures Find(FinalConditions(stored, collected, n, envoyBlocks, ssoBlocks), Dependency(d))
         == if Dependency(d) in collected then Some(collected[Dependency(d)]) else Find(stored, Dependency(d))
  {
  }

  /** Dependency conditions are reported as the pass found them; those it did not look at stay. */
  lemma DependenciesAreReported(s: Status, n: Inputs, d: Dep)
    requires n.deployment.Some?
    ensures Find(Finished(s, Collected(s.conditions, n), n).conditions, Dependency(d))
         == if d in n.dependencies then Some(n.dependencies[d]) else Find(s.conditions, Dependency(d))
  {
    var collected := Collected(s.conditions, n);
    CollectedDependency(s.conditions, n, d);
    FinalDependency(s.conditions, collected, n, Blocks(collected, EnvoyRouteReady, EnvoyRouteActive(n)),
                    Blocks(collected, BrowserSSOReady, AuthEnabled(n)), d);
  }

  /** A pass that ends early reports Failed and why, and keeps every other condition. */
  lemma EarlyEndReports(s: Status, p: Pass, t: Type)
    requires !p.ending.Ends? && p.written && p.fetched
    ensures var after := After(s, p);
            && after.phase.Failed?
            && Find(after.conditions, Degraded)
               == Some(Condition(True, if p.ending.StepFails? then ReconcileError else MultipleGateways))
            && (t != Degraded ==> Find(after.conditions, t) == Find(s.conditions, t))
            && after.observedGeneration == if p.ending.StepFails? then p.inputs.generation else s.observedGeneration
  {
  }

  /** Without its Deployment the gateway is Failed and not available, and nothing else changes. */
  lemma MissingDeploymentReports(s: Status, n: Inputs, t: Type)
    requires n.deployment.None?
    ensures var after := Finished(s, Collected(s.conditions, n), n);
            && after.phase.Failed? && after.observedGeneration == s.observedGeneration
            && Find(after.conditions, Available) == Some(Condition(False, DeploymentNotFound))
            && (t != Available ==> Find(after.conditions, t) == Find(s.conditions, t))
  {
  }
}
