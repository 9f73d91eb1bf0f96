/**
 The provider reconciler as the source runs it (internal/controller/openshellprovider_controller.go),
 with the gateway side of internal/controller/fake_gateway_test.go. Each pass is proved equal to
 the protocol's `Pass`.
 */
module ProviderController {
  import opened Options
  import opened ProviderProtocol

  function Only(m: Table, keys: set<string>): Table {
    map k | k in m && k in keys :: m[k]
  }

  /** Merging one more incoming entry. */
  lemma MergeOneMore(existing: Table, incoming: Table, done: set<string>, k: string)
    requires k in incoming && k !in done
    ensures Merge(existing, Only(incoming, done + {k}))
            == if incoming[k] == "" then Merge(existing, Only(incoming, done)) - {k}
               else Merge(existing, Only(incoming, done))[k := incoming[k]]
  {
    var before, after := Only(incoming, done), Only(incoming, done + {k});
    assert after == before[k := incoming[k]];
  }

  lemma MergeEnds(existing: Table, incoming: Table)
    ensures Merge(existing, Only(incoming, {})) == existing
    ensures Only(incoming, incoming.Keys) == incoming
  {
  }

  /** mergeStringMap: a loop over the incoming entries on a clone of the stored table. */
  method MergeStringMap(existing: Table, incoming: Table) returns (result: Table)
    ensures result == Merge(existing, incoming)
  {
    MergeEnds(existing, incoming);
    result := existing;
    var done: set<string> := {};
    while incoming.Keys - done != {}
      invariant done <= incoming.Keys
      invariant result == Merge(existing, Only(incoming, done))
      decreases incoming.Keys - done
    {
      var k :| k in incoming.Keys - done;
      MergeOneMore(existing, incoming, done, k);
      if incoming[k] == "" {
        result := result - {k};
      } else {
        result := result[k := incoming[k]];
      }
      done := done + {k};
    }
    assert done == incoming.Keys by {
      assert forall k :: k in incoming.Keys ==> k !in incoming.Keys - done;
    }
  }

  /** The retraction loop: every recorded key that is no longer desired is sent with an empty value. */
  method BuildPayload(desired: Table, recorded: set<string>) returns (payload: Table)
    ensures payload == Payload(desired, recorded)
  {
    payload := desired;
    var keys := recorded;
    while keys != {}
      invariant keys <= recorded
      invariant forall k :: k in payload <==> k in desired || (k in recorded && k !in keys)
      invariant forall k :: k in payload ==> payload[k] == if k in desired then desired[k] else ""
      decreases |keys|
    {
      var key :| key in keys;
      if key !in desired {
        payload := payload[key := ""];
      }
      keys := keys - {key};
    }
  }

  class ProviderReconciler {
    var providers: map<Name, Provider>
    var secrets: map<Name, Table>
    var gateway: map<string, Remote>

    ghost function View(): State
      reads this
    {
      State(providers, secrets, gateway)
    }

    constructor ()
      ensures View() == State(map[], map[], map[])
    {
      providers, secrets, gateway := map[], map[], map[];
    }

    /** Reads the Secret references in order and stops at the first one that does not resolve. */
    method ResolveCredentials(n: Name, env: Env) returns (credentials: Table, failure: Lookup)
      requires n in providers && Enumerates(env.order, providers[n].spec.credentials.Keys)
      ensures failure.Value? <==> FirstFailure(View(), n, env, 0).Value?
      ensures !failure.Value? ==> failure == FirstFailure(View(), n, env, 0)
      ensures failure.Value? ==> credentials == DesiredCredentials(View(), n)
    {
      credentials := map[];
      ghost var s := View();
      for i := 0 to |env.order|
        invariant FirstFailure(s, n, env, 0) == FirstFailure(s, n, env, i)
        invariant credentials.Keys == set j | 0 <= j < i :: env.order[j]
        invariant forall e :: e in credentials ==>
                    e in DesiredCredentials(s, n) && credentials[e] == DesiredCredentials(s, n)[e]
      {
        var envVar := env.order[i];
        var found := LookUp(secrets, n.namespace, providers[n].spec.credentials[envVar], envVar !in env.unreadable);
        if !found.Value? {
          return credentials, found;
        }
        credentials := credentials[envVar := found.value];
      }
      failure := Value("");
      assert forall e :: e in s.providers[n].spec.credentials ==> e in env.order;
      assert credentials == DesiredCredentials(s, n);
    }

    method CreateProvider(name: string, wanted: Remote, rpc: Rpc) returns (present: bool, error: Option<string>)
      modifies this`gateway
      ensures present <==> rpc.Delivered? && name in old(gateway)
      ensures error == if rpc.Refused? then Some("InvalidProviderSpec")
                       else if rpc.Broken? then Some("GatewayUnreachable") else None
      ensures gateway == if name !in old(gateway) && (rpc.Delivered? || (rpc.Broken? && rpc.tookEffect))
                         then old(gateway)[name := wanted] else old(gateway)
    {
      present, error := false, None;
      match rpc {
        case Refused => error := Some("InvalidProviderSpec");
        case Broken(hit) =>
          if hit && name !in gateway {
            gateway := gateway[name := wanted];
          }
          error := Some("GatewayUnreachable");
        case Delivered =>
          if name in gateway {
            present := true;
          } else {
            gateway := gateway[name := wanted];
          }
      }
    }

    method UpdateProvider(name: string, wanted: Remote, rpc: Rpc) returns (error: Option<string>)
      modifies this`gateway
      ensures Push(gateway, error) == UpdateRemote(old(gateway), name, wanted, rpc)
    {
      if rpc.Refused? {
        return Some("InvalidProviderSpec");
      }
      if name !in gateway {
        return Some("GatewayUnreachable");
      }
      var stored := gateway[name];
      var accepted := wanted.providerType == "" || wanted.providerType == stored.providerType;
      if rpc.Delivered? && !accepted {
        return Some("InvalidProviderSpec");
      }
      if accepted && (rpc.Delivered? || rpc.tookEffect) {
        var credentials := MergeStringMap(stored.credentials, wanted.credentials);
        var config := MergeStringMap(stored.config, wanted.config);
        gateway := gateway[name := Remote(stored.providerType, credentials, config)];
      }
      return if rpc.Broken? then Some("GatewayUnreachable") else None;
    }

    method SetNotReady(n: Name, p: Provider, reason: string, statusWritten: bool)
      modifies this`providers
      ensures View() == Store(old(View()), n, NotReady(p, reason), statusWritten)
    {
      var status := p.status;
      status := status.(synced := Some(Condition(false, reason)));
      status := status.(phase := Failed);
      status := status.(observedGeneration := p.generation);
      if statusWritten {
        providers := providers[n := p.(status := status)];
      }
    }

    method ReconcileSync(n: Name, env: Env)
      requires n in providers && Enumerates(env.order, providers[n].spec.credentials.Keys)
      modifies this
      ensures View() == SyncPass(old(View()), n, env)
    {
      var p := providers[n];
      if !env.gatewayFound {
        SetNotReady(n, p, "GatewayNotFound", env.statusWritten);
        return;
      }
      var desiredCredentials, failure := ResolveCredentials(n, env);
      if failure.ReadError? {
        return;
      }
      if failure.SecretNotFound? {
        SetNotReady(n, p, "SecretNotFound", env.statusWritten);
        return;
      }
      if failure.KeyNotFound? {
        SetNotReady(n, p, "KeyNotFound", env.statusWritten);
        return;
      }
      var desiredConfig := p.spec.config;
      var payloadCredentials := BuildPayload(desiredCredentials, p.status.credentialKeys);
      var payloadConfig := BuildPayload(desiredConfig, p.status.configKeys);
      if !env.connected {
        SetNotReady(n, p, "GatewayUnreachable", env.statusWritten);
        return;
      }
      var name := GatewayName(n);
      var wanted := Remote(p.spec.providerType, payloadCredentials, payloadConfig);
      assert wanted == Wanted(View(), n);
      var alreadyExists, error := CreateProvider(name, wanted, env.create);
      if alreadyExists {
        error := UpdateProvider(name, wanted, env.update);
      }
      assert PushRemote(old(gateway), name, wanted, env) == Push(gateway, error);
      if error.Some? {
        SetNotReady(n, p, error.value, env.statusWritten);
        return;
      }
      var status := p.status;
      status := status.(credentialKeys := desiredCredentials.Keys);
      status := status.(configKeys := desiredConfig.Keys);
      status := status.(phase := Synced);
      status := status.(observedGeneration := p.generation);
      status := status.(synced := Some(Condition(true, "Ready")));
      if env.statusWritten {
        providers := providers[n := p.(status := status)];
      }
    }

    method ReconcileDelete(n: Name, env: Env)
      requires n in providers
      modifies this
      ensures View() == DeletePass(old(View()), n, env)
    {
      var p := providers[n];
      if !p.finalizer {
        return;
      }
      if !env.gatewayFound {
        return;
      }
      if !env.connected {
        return;
      }
      if env.delete.Deleted? || (env.delete.DeleteBroken? && env.delete.tookEffect) {
        gateway := gateway - {GatewayName(n)};
      }
      if env.delete.Blocked? {
        var status := p.status;
        status := status.(synced := Some(Condition(false, "DeletionBlocked")));
        status := status.(phase := Failed);
        if env.statusWritten {
          providers := providers[n := p.(status := status)];
        }
        return;
      }
      if env.delete.DeleteBroken? {
        return;
      }
      if env.objectWritten {
        providers := providers - {n};
      }
    }

    method Reconcile(n: Name, env: Env)
      requires n in providers ==> Enumerates(env.order, providers[n].spec.credentials.Keys)
      modifies this
      ensures View() == Pass(old(View()), n, env)
    {
      if n !in providers {
        return;
      }
      var p := providers[n];
      if p.deleting {
        ReconcileDelete(n, env);
      } else if !p.finalizer {
        if env.objectWritten {
          providers := providers[n := p.(finalizer := true)];
        }
      } else {
        ReconcileSync(n, env);
      }
    }
  }
}
