/**
 The workspace-member reconciler as the source runs it
 (internal/controller/openshellworkspacemember_controller.go), with the member calls of
 internal/controller/fake_gateway_test.go. `trace` logs the gateway after every call. Each pass
 is proved equal to the protocol's `Pass`, call by call.
 */
module MemberController {
  import opened Options
  import opened MemberProtocol

  class MemberReconciler {
    var member: Option<Member>
    var accounts: map<string, string>
    var members: map<Slot, Role>
    ghost var granted: set<Slot>
    ghost var trace: seq<Gateway>

    ghost function Remote(): Gateway
      reads this
    {
      Gateway(members, granted)
    }

    ghost function View(): State
      reads this
    {
      State(member, accounts, Remote())
    }

    constructor ()
      ensures View() == State(None, map[], Gateway(map[], {})) && trace == []
    {
      member, accounts, members := None, map[], map[];
      granted, trace := {}, [];
    }

    method AddWorkspaceMember(slot: Slot, role: Role, rpc: Rpc) returns (failed: bool, alreadyExists: bool)
      modifies this`members, this`granted, this`trace
      ensures failed == rpc.Broken? && alreadyExists == (rpc.Delivered? && slot in old(members))
      ensures Remote() == AddRpc(old(Remote()), slot, role, rpc) && trace == old(trace) + [Remote()]
    {
      failed, alreadyExists := rpc.Broken?, rpc.Delivered? && slot in members;
      if (rpc.Delivered? || rpc.tookEffect) && slot !in members {
        members := members[slot := role];
        granted := granted + {slot};
      }
      trace := trace + [Remote()];
    }

    method RemoveWorkspaceMember(slot: Slot, rpc: Rpc) returns (failed: bool)
      modifies this`members, this`granted, this`trace
      ensures failed == rpc.Broken?
      ensures Remote() == RemoveRpc(old(Remote()), slot, rpc) && trace == old(trace) + [Remote()]
    {
      failed := rpc.Broken?;
      if rpc.Delivered? || rpc.tookEffect {
        members := members - {slot};
        granted := granted - {slot};
      }
      trace := trace + [Remote()];
    }

    /** Scans the listing; an account in it that is no member of the workspace has no entry. */
    method FindMemberRole(slot: Slot, listed: Option<seq<string>>) returns (role: Option<Role>)
      ensures role == FindRole(Remote(), slot, listed)
    {
      if listed.None? {
        return None;
      }
      for i := 0 to |listed.value|
        invariant slot.subject in listed.value[..i] ==> slot !in members
      {
        if listed.value[i] == slot.subject && slot in members {
          return Some(members[slot]);
        }
      }
      assert listed.value[..|listed.value|] == listed.value;
      return None;
    }

    method AddMemberWithClient(slot: Slot, role: Role, env: Env) returns (result: AddResult)
      modifies this`members, this`granted, this`trace
      ensures var e := AddMember(old(Remote()), slot, role, env);
              result == e.result && Remote() == e.gateway && trace == old(trace) + e.trace
    {
      var failed, alreadyExists := AddWorkspaceMember(slot, role, env.add);
      if failed {
        return OtherError;
      }
      if !alreadyExists {
        return Added;
      }
      var existing := FindMemberRole(slot, env.listed);
      if existing.None? {
        return OtherError;
      }
      if existing.value == role {
        return Added;
      }
      failed := RemoveWorkspaceMember(slot, env.removeOld);
      if failed {
        return OtherError;
      }
      failed, alreadyExists := AddWorkspaceMember(slot, role, env.readd);
      if failed {
        return MembershipRemoved;
      }
      return Added;
    }

    method SetNotReady(m: Member, reason: string, statusWritten: bool)
      modifies this`member
      ensures View() == Store(old(View()), NotReady(m, reason), statusWritten)
    {
      var status := m.status;
      status := status.(ready := Some(Condition(false, reason)));
      status := status.(phase := Failed);
      status := status.(observedGeneration := m.generation);
      if statusWritten {
        member := Some(m.(status := status));
      }
    }

    /** The branch for a ServiceAccount that does not exist. */
    method RetractMissingIdentity(m: Member, env: Env)
      modifies this`member, this`members, this`granted, this`trace
      ensures var o := IdentityMissing(old(View()), m, env);
              View() == o.state && trace == old(trace) + o.trace
    {
      var m' := m;
      if m.status.subject != "" {
        if !env.connected {
          SetNotReady(m, "GatewayUnreachable", env.statusWritten);
          return;
        }
        var failed := RemoveWorkspaceMember(Slot(m.spec.workspace, m.status.subject), env.removeStale);
        if failed {
          SetNotReady(m, "GatewayUnreachable", env.statusWritten);
          return;
        }
        m' := m.(status := m.status.(subject := ""));
      }
      SetNotReady(m', "IdentityNotFound", env.statusWritten);
    }

    /** The tail of reconcileSync: grant the role and record who got it. */
    method GrantCurrent(m: Member, current: string, env: Env)
      modifies this`member, this`members, this`granted, this`trace
      ensures var o := Grant(old(View()), old(Remote()), m, current, env, []);
              View() == o.state && trace == old(trace) + o.trace
    {
      var result := AddMemberWithClient(Slot(m.spec.workspace, current), RoleFromSpec(m.spec.role), env);
      var m' := m;
      if !result.Added? {
        if result.MembershipRemoved? {
          m' := m.(status := m.status.(subject := ""));
        }
        SetNotReady(m', "GatewayUnreachable", env.statusWritten);
        return;
      }
      var status := m.status;
      status := status.(subject := current);
      status := status.(phase := Synced);
      status := status.(observedGeneration := m.generation);
      status := status.(ready := Some(Condition(true, "Synced")));
      if env.statusWritten {
        member := Some(m.(status := status));
      }
    }

    /** The part of reconcileSync after the connection is made. */
    method SyncCurrentIdentity(stored: Member, current: string, env: Env)
      requires member == Some(stored)
      modifies this`member, this`members, this`granted, this`trace
      ensures var o := SyncIdentity(old(View()), stored, current, env);
              View() == o.state && trace == old(trace) + o.trace
    {
      var m := stored;
      if m.status.subject != "" && m.status.subject != current {
        var failed := RemoveWorkspaceMember(Slot(m.spec.workspace, m.status.subject), env.removeStale);
        if failed {
          SetNotReady(m, "GatewayUnreachable", env.statusWritten);
          return;
        }
        m := m.(status := m.status.(subject := ""));
        GrantContinues(old(View()), Remote(), m, current, env, [Remote()]);
      }
      GrantCurrent(m, current, env);
    }

    method ReconcileSync(env: Env)
      requires member.Some?
      modifies this`member, this`members, this`granted, this`trace
      ensures var o := SyncPass(old(View()), old(member).value, env);
              View() == o.state && trace == old(trace) + o.trace
    {
      var m := member.value;
      if !env.gatewayFound {
        SetNotReady(m, "GatewayNotFound", env.statusWritten);
        return;
      }
      if !env.accountReadable {
        return;
      }
      if m.spec.serviceAccount !in accounts {
        RetractMissingIdentity(m, env);
        return;
      }
      var current := accounts[m.spec.serviceAccount];
      if current == "" {
        SetNotReady(m, "IdentityNotFound", env.statusWritten);
        return;
      }
      if !env.connected {
        SetNotReady(m, "GatewayUnreachable", env.statusWritten);
        return;
      }
      SyncCurrentIdentity(m, current, env);
    }

    method ReconcileDelete(env: Env)
      requires member.Some?
      modifies this`member, this`members, this`granted, this`trace
      ensures var o := DeletePass(old(View()), old(member).value, env);
              View() == o.state && trace == old(trace) + o.trace
    {
      var m := member.value;
      if !m.finalizer {
        return;
      }
      if m.status.subject != "" {
        if !env.gatewayFound {
          return;
        }
        if !env.connected {
          return;
        }
        var failed := RemoveWorkspaceMember(Slot(m.spec.workspace, m.status.subject), env.removeStale);
        if failed {
          return;
        }
      }
      if env.objectWritten {
        member := None;
      }
    }

    method Reconcile(env: Env)
      modifies this`member, this`members, this`granted, this`trace
      ensures var o := Pass(old(View()), env);
              View() == o.state && trace == old(trace) + o.trace
    {
      if member.None? {
        return;
      }
      var m := member.value;
      if m.deleting {
        ReconcileDelete(env);
      } else if !m.finalizer {
        if env.objectWritten {
          member := Some(m.(finalizer := true));
        }
      } else {
        ReconcileSync(env);
      }
    }
  }
}
