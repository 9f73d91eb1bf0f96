/**
 The status code of the gateway controller as the source runs it
 (internal/controller/openshellgateway_controller.go): conditions set one by one on an in-memory
 copy, then copied type by type onto a freshly read object. Proved against GatewayStatus.
 */
module StatusController {
  import opened Options
  import opened GatewayStatus

  /** The condition types that updateStatus carries over, in its order. */
  const CARRIED: seq<Type> := [
    Dependency(EnvoyGateway), Dependency(Database), Dependency(EnvoyProxySCC), Dependency(OpenShiftGroups),
    EnvoyRouteReady, BrowserSSOReady, Dependency(ImageConfig)]

  predicate IsCarried(n: Inputs, collected: Conditions, t: Type) {
    (t.Dependency? || t.EnvoyRouteReady? || t.BrowserSSOReady?) && t in collected && Kept(n, t)
  }

  lemma CarriedTypes(t: Type)
    ensures t in CARRIED <==> t.Dependency? || t.EnvoyRouteReady? || t.BrowserSSOReady?
  {
    match t
    case Dependency(EnvoyGateway) => assert CARRIED[0] == t;
    case Dependency(Database) => assert CARRIED[1] == t;
    case Dependency(EnvoyProxySCC) => assert CARRIED[2] == t;
    case Dependency(OpenShiftGroups) => assert CARRIED[3] == t;
    case EnvoyRouteReady => assert CARRIED[4] == t;
    case BrowserSSOReady => assert CARRIED[5] == t;
    case Dependency(ImageConfig) => assert CARRIED[6] == t;
    case _ =>
  }

  /** The loop that carries conditions over. */
  method CarryOver(latest: Conditions, collected: Conditions, n: Inputs) returns (c: Conditions)
    ensures forall t :: t in c <==> t in latest || IsCarried(n, collected, t)
    ensures forall t :: t in c ==> c[t] == if IsCarried(n, collected, t) then collected[t] else latest[t]
  {
    c := latest;
    for i := 0 to |CARRIED|
      invariant forall t :: t in c <==> t in latest || (t in CARRIED[..i] && t in collected && Kept(n, t))
      invariant forall t :: t in c ==>
                  c[t] == if t in CARRIED[..i] && t in collected && Kept(n, t) then collected[t] else latest[t]
    {
      var t := CARRIED[i];
      assert CARRIED[..i + 1] == CARRIED[..i] + [t];
      if t == EnvoyRouteReady && !EnvoyRouteActive(n) {
        continue;
      }
      if t == BrowserSSOReady && !AuthEnabled(n) {
        continue;
      }
      if t in collected {
        c := c[t := collected[t]];
      }
    }
    assert CARRIED[..|CARRIED|] == CARRIED;
    forall t ensures t in CARRIED <==> t.Dependency? || t.EnvoyRouteReady? || t.BrowserSSOReady? {
      CarriedTypes(t);
    }
  }

  lemma MergedPointwise(stored: Conditions, deps: map<Dep, Condition>, c: Conditions)
    requires forall t :: t in c <==> t in stored || (t.Dependency? && t.dep in deps)
    requires forall t :: t in c ==> c[t] == if t.Dependency? && t.dep in deps then deps[t.dep] else stored[t]
    ensures c == WithDependencies(stored, deps)
  {
    var w := WithDependencies(stored, deps);
    forall t ensures (t in c <==> t in w) && (t in c ==> c[t] == w[t]) {
      assert t.Dependency? ==> t == Dependency(t.dep);
    }
    assert c.Keys == w.Keys;
  }

  method MergeDependencies(stored: Conditions, deps: map<Dep, Condition>) returns (c: Conditions)
    ensures c == WithDependencies(stored, deps)
  {
    c := stored;
    var left := deps.Keys;
    while left != {}
      invariant left <= deps.Keys
      invariant forall t :: t in c <==> t in stored || (t.Dependency? && t.dep in deps && t.dep !in left)
      invariant forall t :: t in c ==>
                  c[t] == if t.Dependency? && t.dep in deps && t.dep !in left then deps[t.dep] else stored[t]
      decreases |left|
    {
      var d :| d in left;
      c := c[Dependency(d) := deps[d]];
      left := left - {d};
    }
    MergedPointwise(stored, deps, c);
  }

  class StatusReconciler {
    var status: Status

    constructor ()
      ensures status == NO_STATUS
    {
      status := NO_STATUS;
    }

    /** The conditions a pass sets on its own copy on the way to updateStatus. */
    method Collect(n: Inputs) returns (c: Conditions)
      ensures c == Collected(status.conditions, n)
    {
      c := MergeDependencies(status.conditions, n.dependencies);
      if UsesGatewayAPI(n) && n.hostname == "" {
        c := c[EnvoyRouteReady := Condition(False, HostnameMissing)];
      }
      if n.isOpenShift {
        if UsesGatewayAPI(n) && n.routeEnabled && n.hostname != "" {
          c := c[EnvoyRouteReady := n.envoy];
        }
        if AuthEnabled(n) {
          if MissingHostname(n) {
            c := c[BrowserSSOReady := Condition(False, HostnameMissing)];
          } else {
            c := c[BrowserSSOReady := Condition(True, Ready)];
          }
        }
      }
    }

    method UpdateStatus(collected: Conditions, n: Inputs, fetched: bool, written: bool)
      requires OnTopOf(status.conditions, collected)
      modifies this
      ensures status == if fetched && written then Finished(old(status), collected, n) else old(status)
    {
      if !fetched {
        return;
      }
      var latest := status.conditions;
      if n.deployment.None? {
        latest := latest[Available := Condition(False, DeploymentNotFound)];
        if written {
          status := status.(phase := Failed, conditions := latest);
        }
        return;
      }
      var envoyRouteActive := EnvoyRouteActive(n);
      var envoyBlocking := envoyRouteActive && EnvoyRouteReady in collected &&
        collected[EnvoyRouteReady].status != True;
      if !envoyRouteActive {
        latest := latest - {EnvoyRouteReady};
      }
      var ssoBlocking := AuthEnabled(n) && BrowserSSOReady in collected && collected[BrowserSSOReady].status != True;
      if !AuthEnabled(n) {
        latest := latest - {BrowserSSOReady};
      }
      var phase;
      phase, latest := SetMainConditions(latest, n, envoyBlocking, ssoBlocking);
      latest := CarryOver(latest, collected, n);
      CarriedIsFinal(status.conditions, collected, latest, n, envoyBlocking, ssoBlocking);
      if written {
        status := Status(phase, latest, n.generation);
      }
    }

    /** One pass of the controller, as far as its status is concerned. */
    method Reconcile(p: Pass)
      modifies this
      ensures status == After(old(status), p)
    {
      match p.ending {
        case NotTheOldest =>
          if p.written {
            status := status.(phase := Failed,
                              conditions := status.conditions[Degraded := Condition(True, MultipleGateways)]);
          }
        case StepFails =>
          if p.fetched && p.written {
            status := Status(Failed, status.conditions[Degraded := Condition(True, ReconcileError)],
                             p.inputs.generation);
          }
        case Ends =>
          var collected := Collect(p.inputs);
          CollectedOnTop(status.conditions, p.inputs);
          UpdateStatus(collected, p.inputs, p.fetched, p.written);
      }
    }
  }

  /** `collected` keeps every stored type, and outside the carried types it is the stored condition itself. */
  ghost predicate OnTopOf(stored: Conditions, collected: Conditions) {
    && (forall t :: t in stored ==> t in collected)
    && (forall t :: t in collected && (t.Available? || t.Progressing? || t.Degraded?) ==>
            t in stored && collected[t] == stored[t])
  }

  lemma CollectedOnTop(stored: Conditions, n: Inputs)
    ensures OnTopOf(stored, Collected(stored, n))
  {
  }

  /** The switch at the end of updateStatus. */
  method SetMainConditions(conditions: Conditions, n: Inputs, envoyBlocking: bool, ssoBlocking: bool)
    returns (phase: Phase, latest: Conditions)
    requires n.deployment.Some?
    ensures phase == PhaseFor(n, envoyBlocking, ssoBlocking)
    ensures latest == conditions[Available := AvailableFor(n, envoyBlocking, ssoBlocking)]
                      [Progressing := ProgressingFor(n, envoyBlocking, ssoBlocking)][Degraded := Condition(False, OK)]
  {
    latest := conditions;
    var desired := if n.deployment.value.replicas.Some? then n.deployment.value.replicas.value else 1;
    var podsReady := n.deployment.value.readyReplicas > 0 && n.deployment.value.readyReplicas == desired;
    var blockedReason, progressingReason := EnvoyRouteNotReady, Deploying;
    if ssoBlocking {
      blockedReason, progressingReason := HostnameMissing, WaitingForConfig;
    }
    phase := Creating;
    if podsReady && !(envoyBlocking || ssoBlocking) {
      phase := Running;
      latest := latest[Available := Condition(True, Ready)];
      latest := latest[Progressing := Condition(False, Complete)];
    } else if podsReady {
      latest := latest[Available := Condition(False, blockedReason)];
      latest := latest[Progressing := Condition(True, progressingReason)];
    } else {
      latest := latest[Available := Condition(False, NotReady)];
      latest := latest[Progressing := Condition(True, Deploying)];
    }
    latest := latest[Degraded := Condition(False, OK)];
  }

  /** Carrying the listed types over is all it takes, because a pass collects nothing else. */
  lemma CarriedIsFinal(stored: Conditions, collected: Conditions, c: Conditions,
                       n: Inputs, envoyBlocks: bool, ssoBlocks: bool)
    requires OnTopOf(stored, collected)
    requires forall t :: t in c <==>
                           || (Kept(n, t) && (t in stored || t.Available? || t.Progressing? || t.Degraded?))
                           || IsCarried(n, collected, t)
    requires forall t :: t in c ==> c[t] == if IsCarried(n, collected, t) then collected[t]
                                            else if t.Available? then AvailableFor(n, envoyBlocks, ssoBlocks)
                                            else if t.Progressing? then ProgressingFor(n, envoyBlocks, ssoBlocks)
                                            else Condition(False, OK)
    ensures c == FinalConditions(stored, collected, n, envoyBlocks, ssoBlocks)
  {
  }
}
