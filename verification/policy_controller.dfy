/**
 The policy reconciler as the source runs it: passes that read an object, call the gateway
 and write the object back (internal/controller/openshellpolicy_controller.go). Each pass is
 proved equal to the protocol's `Pass`, on which the run theorems stand.
 */
module PolicyController {
  import opened Options
  import opened SandboxPolicies
  import opened PolicyProtocol
  import Singleton

  class PolicyReconciler {
    var policies: map<string, Policy>
    var globalPolicy: Option<SandboxPolicy>

    ghost function View(): State
      reads this
    {
      State(policies, globalPolicy)
    }

    constructor ()
      ensures View() == State(map[], None)
    {
      policies, globalPolicy := map[], None;
    }

    /** None stands for the error the source returns when the list is empty. */
    method ResolveActivePolicy(order: seq<string>) returns (active: Option<string>)
      requires Lists(order, policies)
      ensures active.None? <==> policies == map[]
      ensures active.Some? ==> active.value in policies
      ensures forall u :: u in policies ==> (Active(policies, order, u) <==> active == Some(u))
    {
      if order == [] {
        assert forall u :: u in policies ==> u in order;
        return None;
      }
      var times := CreationTimes(order, policies);
      var k := Singleton.OldestByCreationTimestamp(times);
      active := Some(order[k]);
      assert order[k] in policies;
      forall u | u in policies && Active(policies, order, u) ensures u == order[k] {
        var j :| 0 <= j < |order| && order[j] == u && Singleton.FirstOldest(times, j);
        Singleton.FirstOldestIsUnique(times, j, k);
      }
    }

    method HasSuccessorPolicy(order: seq<string>, excludeUID: string) returns (found: bool)
      requires Lists(order, policies)
      ensures found <==> exists u :: u in policies && u != excludeUID
    {
      for i := 0 to |order|
        invariant forall j :: 0 <= j < i ==> order[j] == excludeUID
      {
        if order[i] != excludeUID {
          assert order[i] in policies;
          return true;
        }
      }
      assert forall u :: u in policies ==> u in order;
      return false;
    }

    method SetNotReady(uid: string, p: Policy, reason: string, statusWritten: bool)
      modifies this`policies
      ensures View() == Store(old(View()), uid, NotReady(p, reason), statusWritten)
    {
      var status := p.status;
      status := status.(synced := Some(Condition(false, reason)));
      status := status.(phase := Failed);
      status := status.(observedGeneration := p.generation);
      if statusWritten {
        policies := policies[uid := p.(status := status)];
      }
    }

    /** The gateway's UpdateConfig with a policy: a full replacement. */
    method SetGlobalPolicy(p: SandboxPolicy, rpc: Rpc)
      modifies this`globalPolicy
      ensures globalPolicy == if rpc.Accepted? || (rpc.Broken? && rpc.tookEffect) then Some(p) else old(globalPolicy)
    {
      if rpc.Accepted? || (rpc.Broken? && rpc.tookEffect) {
        globalPolicy := Some(p);
      }
    }

    /** The gateway's UpdateConfig with deleteSetting. */
    method DeleteGlobalPolicy(rpc: Rpc)
      modifies this`globalPolicy
      ensures globalPolicy == if rpc.Accepted? || (rpc.Broken? && rpc.tookEffect) then None else old(globalPolicy)
    {
      if rpc.Accepted? || (rpc.Broken? && rpc.tookEffect) {
        globalPolicy := None;
      }
    }

    method ReconcileSync(uid: string, env: Env)
      requires uid in policies && Lists(env.order, policies)
      modifies this
      ensures View() == SyncPass(old(View()), uid, env)
    {
      var p := policies[uid];
      if !env.listed {
        SetNotReady(uid, p, "PolicyListFailed", env.statusWritten);
        return;
      }
      var active := ResolveActivePolicy(env.order);
      if active != Some(uid) {
        var status := p.status;
        status := status.(synced := Some(Condition(false, "AnotherPolicyActive")));
        status := status.(phase := Superseded);
        status := status.(applied := false);
        status := status.(observedGeneration := p.generation);
        if env.statusWritten {
          policies := policies[uid := p.(status := status)];
        }
        return;
      }
      if !env.gatewayFound {
        SetNotReady(uid, p, "GatewayNotFound", env.statusWritten);
        return;
      }
      if !env.connected {
        SetNotReady(uid, p, "GatewayUnreachable", env.statusWritten);
        return;
      }
      var desired := BuildSandboxPolicy(p.spec);
      SetGlobalPolicy(desired, env.rpc);
      if env.rpc.Rejected? {
        SetNotReady(uid, p, "InvalidPolicySpec", env.statusWritten);
        return;
      }
      if env.rpc.Broken? {
        SetNotReady(uid, p, "GatewayUnreachable", env.statusWritten);
        return;
      }
      var status := p.status;
      status := status.(applied := true);
      status := status.(phase := Synced);
      status := status.(observedGeneration := p.generation);
      status := status.(synced := Some(Condition(true, "Ready")));
      if env.statusWritten {
        policies := policies[uid := p.(status := status)];
      }
    }

    method ReconcileDelete(uid: string, env: Env)
      requires uid in policies && Lists(env.order, policies)
      modifies this
      ensures View() == DeletePass(old(View()), uid, env)
    {
      var p := policies[uid];
      if !p.finalizer {
        return;
      }
      if p.status.applied {
        if !env.listed {
          return;
        }
        var hasSuccessor := HasSuccessorPolicy(env.order, uid);
        assert hasSuccessor <==> policies.Keys != {uid};
        if !hasSuccessor {
          if !env.gatewayFound {
            return;
          }
          if !env.connected {
            return;
          }
          DeleteGlobalPolicy(env.rpc);
          if !env.rpc.Accepted? {
            return;
          }
        }
      }
      if env.objectWritten {
        policies := policies - {uid};
      }
    }

    /** One pass for the object named `uid`, which may be gone already. */
    method Reconcile(uid: string, env: Env)
      requires Lists(env.order, policies)
      modifies this
      ensures View() == Pass(old(View()), uid, env)
    {
      if uid !in policies {
        return;
      }
      var p := policies[uid];
      if p.deleting {
        ReconcileDelete(uid, env);
      } else if !p.finalizer {
        if env.objectWritten {
          policies := policies[uid := p.(finalizer := true)];
        }
      } else {
        ReconcileSync(uid, env);
      }
    }
  }
}
