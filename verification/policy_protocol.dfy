/**
 The policy singleton protocol (internal/controller/openshellpolicy_controller.go): the
 oldest OpenShellPolicy owns the gateway's one global policy, the others are superseded,
 and a deleted owner hands over to a successor.

 The state is the set of policy objects and the gateway's policy. Users create, edit and
 delete objects; the controller runs passes. A pass is atomic, every remote call in it may
 fail with or without effect, and every write to the cluster may be lost.
 */
module PolicyProtocol {
  import opened Options
  import opened SandboxPolicies
  import Singleton

  datatype Phase = Pending | Synced | Failed | Superseded
  datatype Condition = Condition(isTrue: bool, reason: string)
  datatype Status = Status(phase: Phase, observedGeneration: nat, applied: bool, synced: Option<Condition>)
  datatype Policy = Policy(created: nat, generation: nat, spec: PolicySpec, deleting: bool,
                           finalizer: bool, status: Status)
  datatype State = State(policies: map<string, Policy>, gateway: Option<SandboxPolicy>)

  const NO_STATUS := Status(Pending, 0, false, None)

  // ---------------------------------------------------------------- one controller pass

  /** What an UpdateConfig call did: a failure other than InvalidArgument may hide an effect. */
  datatype Rpc = Accepted | Rejected | Broken(tookEffect: bool)

  /** Everything a pass does not decide itself: the order List returns, and the fate of each call. */
  datatype Env = Env(order: seq<string>, listed: bool, gatewayFound: bool, connected: bool, rpc: Rpc,
                     statusWritten: bool, objectWritten: bool)

  /** `order` names every policy once: what a List returns. */
  ghost predicate Lists(order: seq<string>, policies: map<string, Policy>) {
    && (forall i :: 0 <= i < |order| ==> order[i] in policies)
    && (forall u :: u in policies ==> u in order)
    && (forall i, j :: 0 <= i < j < |order| ==> order[i] != order[j])
  }

  function CreationTimes(order: seq<string>, policies: map<string, Policy>): (r: seq<nat>)
    requires forall i :: 0 <= i < |order| ==> order[i] in policies
    ensures |r| == |order|
  {
    seq(|order|, i requires 0 <= i < |order| => policies[order[i]].created)
  }

  /** The policy that an oldest-wins pass over this listing picks. */
  ghost predicate Active(policies: map<string, Policy>, order: seq<string>, uid: string)
    requires Lists(order, policies)
  {
    exists k :: 0 <= k < |order| && order[k] == uid && Singleton.FirstOldest(CreationTimes(order, policies), k)
  }

  function Store(s: State, uid: string, p: Policy, written: bool): State {
    if written then s.(policies := s.policies[uid := p]) else s
  }

  function NotReady(p: Policy, reason: string): Policy {
    p.(status := p.status.(phase := Failed, observedGeneration := p.generation,
                           synced := Some(Condition(false, reason))))
  }

  function SupersededBy(p: Policy): Policy {
    p.(status := Status(Superseded, p.generation, false, Some(Condition(false, "AnotherPolicyActive"))))
  }

  function InSync(p: Policy): Policy {
    p.(status := Status(Synced, p.generation, true, Some(Condition(true, "Ready"))))
  }

  ghost function SyncPass(s: State, uid: string, env: Env): State
    requires uid in s.policies && Lists(env.order, s.policies)
  {
    var p := s.policies[uid];
    var pushed := s.(gateway := Some(Build(p.spec)));
    if !env.listed then Store(s, uid, NotReady(p, "PolicyListFailed"), env.statusWritten)
    else if !Active(s.policies, env.order, uid) then Store(s, uid, SupersededBy(p), env.statusWritten)
    else if !env.gatewayFound then Store(s, uid, NotReady(p, "GatewayNotFound"), env.statusWritten)
    else if !env.connected then Store(s, uid, NotReady(p, "GatewayUnreachable"), env.statusWritten)
    else match env.rpc
      case Accepted => Store(pushed, uid, InSync(p), env.statusWritten)
      case Rejected => Store(s, uid, NotReady(p, "InvalidPolicySpec"), env.statusWritten)
      case Broken(hit) => Store(if hit then pushed else s, uid, NotReady(p, "GatewayUnreachable"), env.statusWritten)
  }

  function Remove(s: State, uid: string, written: bool): State {
    if written then s.(policies := s.policies - {uid}) else s
  }

  ghost function DeletePass(s: State, uid: string, env: Env): State
    requires uid in s.policies
  {
    var p := s.policies[uid];
    if !p.finalizer then s
    else if !p.status.applied then Remove(s, uid, env.objectWritten)
    else if !env.listed then s
    else if s.policies.Keys != {uid} then Remove(s, uid, env.objectWritten)
    else if !env.gatewayFound || !env.connected then s
    else match env.rpc
      case Accepted => Remove(s.(gateway := None), uid, env.objectWritten)
      case Rejected => s
      case Broken(hit) => if hit then s.(gateway := None) else s
  }

  ghost function Pass(s: State, uid: string, env: Env): State
    requires Lists(env.order, s.policies)
  {
    if uid !in s.policies then s
    else
      var p := s.policies[uid];
      if p.deleting then DeletePass(s, uid, env)
      else if !p.finalizer then Store(s, uid, p.(finalizer := true), env.objectWritten)
      else SyncPass(s, uid, env)
  }

  // ------------------------------------------------------------------------------- runs

  datatype Step =
    | Create(uid: string, spec: PolicySpec, created: nat)
    | Edit(uid: string, spec: PolicySpec)
    | Delete(uid: string)
    | Reconcile(uid: string, env: Env)

  ghost predicate Next(s: State, step: Step, t: State) {
    match step
    case Create(uid, spec, created) =>
      uid !in s.policies &&
      t == s.(policies := s.policies[uid := Policy(created, 1, spec, false, false, NO_STATUS)])
    case Edit(uid, spec) =>
      uid in s.policies &&
      var p := s.policies[uid];
      t == s.(policies := s.policies[uid := if spec == p.spec then p
                                     else p.(spec := spec, generation := p.generation + 1)])
    case Delete(uid) =>
      uid in s.policies &&
      var p := s.policies[uid];
      t == if p.finalizer then s.(policies := s.policies[uid := p.(deleting := true)]) else Remove(s, uid, true)
    case Reconcile(uid, env) =>
      Lists(env.order, s.policies) && t == Pass(s, uid, env)
  }

  /** Every finite behaviour that starts with no policy objects and no gateway policy. */
  ghost predicate Run(ss: seq<State>, steps: seq<Step>) {
    && |ss| == |steps| + 1
    && ss[0] == State(map[], None)
    && forall i :: 0 <= i < |steps| ==> Next(ss[i], steps[i], ss[i + 1])
  }

  /** Creation times are strictly increasing: a new policy is younger than every existing one. */
  ghost predicate Strict(s: State, step: Step) {
    step.Create? ==> forall u :: u in s.policies ==> s.policies[u].created < step.created
  }

  ghost predicate StrictRun(ss: seq<State>, steps: seq<Step>) {
    Run(ss, steps) && forall i {:trigger steps[i]} :: 0 <= i < |steps| ==> Strict(ss[i], steps[i])
  }

  /** "definite": a push that reports an error had no effect; a retraction may have. */
  ghost predicate Definite(s: State, step: Step) {
    step.Reconcile? && step.uid in s.policies && !s.policies[step.uid].deleting ==>
      !(step.env.rpc.Broken? && step.env.rpc.tookEffect)
  }

  /** A pass that pushes a policy and is told it was accepted. */
  ghost predicate SyncSucceeds(s: State, step: Step) {
    && step.Reconcile? && step.uid in s.policies && Lists(step.env.order, s.policies)
    && !s.policies[step.uid].deleting && s.policies[step.uid].finalizer
    && step.env.listed && Active(s.policies, step.env.order, step.uid)
    && step.env.gatewayFound && step.env.connected && step.env.rpc.Accepted?
  }

  /** "recorded": the status write after a successful push lands. */
  ghost predicate Recorded(s: State, step: Step) {
    SyncSucceeds(s, step) ==> step.env.statusWritten
  }

  ghost predicate CarefulRun(ss: seq<State>, steps: seq<Step>) {
    && StrictRun(ss, steps)
    && forall i {:trigger steps[i]} :: 0 <= i < |steps| ==> Definite(ss[i], steps[i]) && Recorded(ss[i], steps[i])
  }

  // ------------------------------------------------- what a pass comes to, on its inputs

  /** Another policy object exists. */
  ghost predicate HasOther(s: State, uid: string) {
    exists v :: v in s.policies && v != uid
  }

  /** Everything but the object named `uid` and the gateway is as it was. */
  ghost predicate OnlyTouches(s: State, t: State, uid: string) {
    forall v :: v != uid ==>
                  && (v in t.policies <==> v in s.policies)
                  && (v in s.policies ==> t.policies[v] == s.policies[v])
  }

  /** Exactly when a deletion pass lets its object go, and exactly when it retracts the policy. */
  lemma DeletionEndsIff(s: State, step: Step, t: State)
    requires Next(s, step, t) && step.Reconcile? && step.uid in s.policies && s.policies[step.uid].deleting
    ensures var p, env := s.policies[step.uid], step.env;
            && OnlyTouches(s, t, step.uid)
            && (step.uid in t.policies ==> t.policies[step.uid] == p)
            && (step.uid !in t.policies <==>
                && p.finalizer && env.objectWritten
                && (|| !p.status.applied
                    || (env.listed && (|| HasOther(s, step.uid)
                                       || (env.gatewayFound && env.connected && env.rpc.Accepted?)))))
            && t.gateway == if && p.finalizer && p.status.applied && env.listed && !HasOther(s, step.uid)
                               && env.gatewayFound && env.connected
                               && (env.rpc.Accepted? || (env.rpc.Broken? && env.rpc.tookEffect))
                            then None else s.gateway
  {
    assert HasOther(s, step.uid) <==> s.policies.Keys != {step.uid};
  }

  /** The first pass of an object adds the finalizer and does nothing else. */
  lemma FinalizerComesFirst(s: State, step: Step, t: State)
    requires Next(s, step, t) && step.Reconcile? && step.uid in s.policies
    requires !s.policies[step.uid].deleting && !s.policies[step.uid].finalizer
    ensures OnlyTouches(s, t, step.uid) && t.gateway == s.gateway && step.uid in t.policies
    ensures t.policies[step.uid] == s.policies[step.uid].(finalizer := step.env.objectWritten)
  {
  }

  /** The outcome of a sync pass: why the object is not in sync, or that it is. */
  function SyncReason(listed: bool, active: bool, env: Env): string {
    if !listed then "PolicyListFailed"
    else if !active then "AnotherPolicyActive"
    else if !env.gatewayFound then "GatewayNotFound"
    else if !env.connected then "GatewayUnreachable"
    else match env.rpc
      case Accepted => "Ready"
      case Rejected => "InvalidPolicySpec"
      case Broken(_) => "GatewayUnreachable"
  }

  /**
   What a sync pass reports and what it does to the gateway. A policy that is not active reports
   Superseded and loses its mark; Synced is reported exactly after an accepted push; any other
   failure keeps the mark. Only a push of an active policy changes the gateway.
   */
  lemma SyncReports(s: State, step: Step, t: State)
    requires Next(s, step, t) && step.Reconcile? && step.uid in s.policies
    requires !s.policies[step.uid].deleting && s.policies[step.uid].finalizer
    ensures OnlyTouches(s, t, step.uid) && step.uid in t.policies
    ensures var p, q, env := s.policies[step.uid], t.policies[step.uid], step.env;
            var active := Active(s.policies, env.order, step.uid);
            var reason := SyncReason(env.listed, active, env);
            && q == p.(status := q.status)
            && (if env.statusWritten then
                  && q.status.observedGeneration == p.generation
                  && q.status.synced == Some(Condition(reason == "Ready", reason))
                  && (q.status.phase.Superseded? <==> env.listed && !active)
                  && (q.status.phase.Synced? <==> reason == "Ready")
                  && (q.status.phase.Failed? <==> !q.status.phase.Superseded? && !q.status.phase.Synced?)
                  && q.status.applied == (q.status.phase.Synced? || (q.status.phase.Failed? && p.status.applied))
                else q == p)
            && t.gateway == if && env.listed && active && env.gatewayFound && env.connected
                               && (env.rpc.Accepted? || (env.rpc.Broken? && env.rpc.tookEffect))
                            then Some(Build(p.spec)) else s.gateway
  {
  }

  // ------------------------------------------- a policy that reports Synced is the live one

  ghost predicate Oldest(s: State, uid: string)
    requires uid in s.policies
  {
    forall v :: v in s.policies && v != uid ==> s.policies[uid].created < s.policies[v].created
  }

  /** The object claims that its current spec is what the gateway enforces. */
  ghost predicate ReportsSynced(p: Policy) {
    !p.deleting && p.status.phase.Synced? && p.status.observedGeneration == p.generation
  }

  ghost predicate PolicyInv(s: State, uid: string)
    requires uid in s.policies
  {
    var p := s.policies[uid];
    && p.status.observedGeneration <= p.generation
    && (p.status.phase.Synced? <==> p.status.synced.Some? && p.status.synced.value.isTrue)
    && (p.status.phase.Synced? || p.status.applied ==> Oldest(s, uid))
    && (ReportsSynced(p) ==> s.gateway == Some(Build(p.spec)))
  }

  ghost predicate Inv(s: State) {
    && (forall u, v :: u in s.policies && v in s.policies && u != v ==> s.policies[u].created != s.policies[v].created)
    && forall u :: u in s.policies ==> PolicyInv(s, u)
  }

  /** With distinct creation times the pass picks the oldest policy, whatever order List returns. */
  lemma ActiveIsOldest(s: State, order: seq<string>, uid: string)
    requires Inv(s) && Lists(order, s.policies) && uid in s.policies
    ensures Active(s.policies, order, uid) <==> Oldest(s, uid)
  {
    var times := CreationTimes(order, s.policies);
    if Active(s.policies, order, uid) {
      var k :| 0 <= k < |order| && order[k] == uid && Singleton.FirstOldest(times, k);
      forall v | v in s.policies && v != uid ensures s.policies[uid].created < s.policies[v].created {
        var j :| 0 <= j < |order| && order[j] == v;
        assert times[k] <= times[j];
      }
    }
    if Oldest(s, uid) {
      var k :| 0 <= k < |order| && order[k] == uid;
      assert Singleton.FirstOldest(times, k);
    }
  }

  /** Only the oldest policy may change what the gateway enforces or claim to be in sync. */
  lemma StoreKeepsInv(s: State, gateway: Option<SandboxPolicy>, uid: string, p: Policy, written: bool)
    requires Inv(s) && uid in s.policies && p.created == s.policies[uid].created
    requires p.status.observedGeneration <= p.generation
    requires p.status.phase.Synced? <==> p.status.synced.Some? && p.status.synced.value.isTrue
    requires p.status.phase.Synced? || p.status.applied || gateway != s.gateway ==> Oldest(s, uid)
    requires ReportsSynced(p) || (!written && ReportsSynced(s.policies[uid])) ==> gateway == Some(Build(p.spec))
    requires p.spec == s.policies[uid].spec
    ensures Inv(Store(s.(gateway := gateway), uid, p, written))
  {
    var t := Store(s.(gateway := gateway), uid, p, written);
    forall u | u in t.policies ensures PolicyInv(t, u) {
      assert PolicyInv(s, u) && PolicyInv(s, uid);
    }
  }

  lemma SyncPassKeepsInv(s: State, uid: string, env: Env)
    requires Inv(s) && uid in s.policies && !s.policies[uid].deleting && Lists(env.order, s.policies)
    ensures Inv(SyncPass(s, uid, env))
  {
    ActiveIsOldest(s, env.order, uid);
    var p := s.policies[uid];
    var t := SyncPass(s, uid, env);
    assert PolicyInv(s, uid);
    var pushes := env.listed && Oldest(s, uid) && env.gatewayFound && env.connected;
    if pushes && env.rpc.Accepted? {
      StoreKeepsInv(s, t.gateway, uid, InSync(p), env.statusWritten);
    } else if env.listed && !Oldest(s, uid) {
      StoreKeepsInv(s, s.gateway, uid, SupersededBy(p), env.statusWritten);
    } else {
      var reason :| t == Store(s.(gateway := t.gateway), uid, NotReady(p, reason), env.statusWritten);
      StoreKeepsInv(s, t.gateway, uid, NotReady(p, reason), env.statusWritten);
    }
  }

  lemma DeletePassKeepsInv(s: State, uid: string, env: Env)
    requires Inv(s) && uid in s.policies && s.policies[uid].deleting
    ensures Inv(DeletePass(s, uid, env))
  {
    var t := DeletePass(s, uid, env);
    forall u | u in t.policies ensures PolicyInv(t, u) {
      assert PolicyInv(s, u);
    }
  }

  lemma PassKeepsInv(s: State, step: Step, t: State)
    requires Inv(s) && step.Reconcile? && Next(s, step, t)
    ensures Inv(t)
  {
    if step.uid in s.policies {
      var p := s.policies[step.uid];
      if p.deleting {
        DeletePassKeepsInv(s, step.uid, step.env);
      } else if !p.finalizer {
        assert PolicyInv(s, step.uid);
        StoreKeepsInv(s, s.gateway, step.uid, p.(finalizer := true), step.env.objectWritten);
      } else {
        SyncPassKeepsInv(s, step.uid, step.env);
      }
    }
  }

  lemma StepKeepsInv(s: State, step: Step, t: State)
    requires Inv(s) && Next(s, step, t) && Strict(s, step)
    ensures Inv(t)
  {
    if step.Reconcile? {
      PassKeepsInv(s, step, t);
    } else {
      forall u | u in t.policies ensures PolicyInv(t, u) {
        assert u in s.policies ==> PolicyInv(s, u);
      }
    }
  }

  lemma {:induction false} RunKeepsInv(ss: seq<State>, steps: seq<Step>, n: nat)
    requires StrictRun(ss, steps) && n < |ss|
    ensures Inv(ss[n])
  {
    if n > 0 {
      RunKeepsInv(ss, steps, n - 1);
      StepKeepsInv(ss[n - 1], steps[n - 1], ss[n]);
    }
  }

  /**
   In every run with strictly increasing creation times, lost status writes and ambiguous RPC
   errors included, an object that reports Synced for its current generation is the one whose
   spec the gateway enforces.
   */
  lemma SyncedPolicyIsLive(ss: seq<State>, steps: seq<Step>, n: nat, uid: string)
    requires StrictRun(ss, steps) && n < |ss|
    requires uid in ss[n].policies && ReportsSynced(ss[n].policies[uid])
    ensures ss[n].gateway == Some(Build(ss[n].policies[uid].spec))
  {
    RunKeepsInv(ss, steps, n);
  }

  /** In the same runs an object marked applied is the oldest, so at most one is marked. */
  lemma AtMostOneApplied(ss: seq<State>, steps: seq<Step>, n: nat, uid: string)
    requires StrictRun(ss, steps) && n < |ss|
    requires uid in ss[n].policies && ss[n].policies[uid].status.applied
    ensures Oldest(ss[n], uid)
    ensures forall v :: v in ss[n].policies && ss[n].policies[v].status.applied ==> v == uid
  {
    RunKeepsInv(ss, steps, n);
    forall v | v in ss[n].policies && ss[n].policies[v].status.applied ensures v == uid {
      assert PolicyInv(ss[n], v) && PolicyInv(ss[n], uid);
    }
  }

  // --------------------------------------------------------------- handoff leaves no gap

  /** The deletion pass of an applied policy that has no other policy beside it. */
  ghost predicate RetractingPass(s: State, step: Step) {
    && step.Reconcile? && s.policies.Keys == {step.uid}
    && s.policies[step.uid].deleting && s.policies[step.uid].status.applied
  }

  /**
   For any creation times, any list order and any fate of the calls: between a moment with a
   global policy and a later moment without one lies a retracting pass. A chain of handoffs
   of any length therefore never has a gap.
   */
  lemma {:induction false} GapNeedsRetraction(ss: seq<State>, steps: seq<Step>, i: nat, j: nat)
    requires Run(ss, steps) && i <= j < |ss|
    requires ss[i].gateway.Some? && ss[j].gateway.None?
    ensures exists k :: i <= k < j && RetractingPass(ss[k], steps[k])
    decreases j
  {
    if ss[j - 1].gateway.None? {
      GapNeedsRetraction(ss, steps, i, j - 1);
    } else {
      assert Next(ss[j - 1], steps[j - 1], ss[j]);
      assert RetractingPass(ss[j - 1], steps[j - 1]);
    }
  }

  // ------------------------------------------- exactly when the last policy is cleaned up

  ghost predicate AppliedKeepsFinalizer(s: State) {
    forall u :: u in s.policies && s.policies[u].status.applied ==> s.policies[u].finalizer
  }

  lemma {:induction false} FinalizerGuardsApplied(ss: seq<State>, steps: seq<Step>, n: nat)
    requires Run(ss, steps) && n < |ss|
    ensures AppliedKeepsFinalizer(ss[n])
  {
    if n > 0 {
      FinalizerGuardsApplied(ss, steps, n - 1);
      assert Next(ss[n - 1], steps[n - 1], ss[n]);
    }
  }

  ghost predicate Leaves(s: State, step: Step, t: State) {
    Next(s, step, t) && exists u :: u in s.policies && u !in t.policies
  }

  /** The guard that decides: the policy that leaves last is marked applied, or there is nothing to clean up. */
  ghost predicate CleanExit(s: State) {
    s.gateway.None? || exists u :: u in s.policies && s.policies[u].status.applied
  }

  /** One step: when the last object leaves, the gateway is clean afterwards iff the guard held before. */
  lemma LastExitIsCleanIff(s: State, step: Step, t: State)
    requires AppliedKeepsFinalizer(s) && Next(s, step, t)
    requires s.policies != map[] && t.policies == map[]
    ensures t.gateway.None? <==> CleanExit(s)
  {
    var u :| u in s.policies;
    assert u !in t.policies;
    assert step.uid == u;
    forall v | v in s.policies ensures v == u {
      assert v !in t.policies;
    }
    assert s.policies.Keys == {u};
  }

  /**
   Over every run, with no assumption on creation times or on the fate of calls: whenever no
   policy object exists, the gateway policy is unset iff the guard held when the last one left.
   */
  lemma {:induction false} CleanIffLastExitClean(ss: seq<State>, steps: seq<Step>, k: nat, n: nat)
    requires Run(ss, steps) && k < n < |ss|
    requires ss[k].policies != map[] && forall m :: k < m <= n ==> ss[m].policies == map[]
    ensures ss[n].gateway.None? <==> CleanExit(ss[k])
  {
    assert Next(ss[n - 1], steps[n - 1], ss[n]);
    if n == k + 1 {
      FinalizerGuardsApplied(ss, steps, k);
      LastExitIsCleanIff(ss[k], steps[k], ss[n]);
    } else {
      CleanIffLastExitClean(ss, steps, k, n - 1);
    }
  }

  /** The gateway enforces a policy that no object owns up to. */
  ghost predicate HandoffPending(s: State) {
    s.gateway.Some? && forall u :: u in s.policies ==> !s.policies[u].status.applied
  }

  /** If nothing leaves while a handoff is pending, an empty cluster means an unset policy. */
  lemma {:induction false} NoOrphanedPolicy(ss: seq<State>, steps: seq<Step>, n: nat)
    requires Run(ss, steps) && n < |ss|
    requires forall k :: 0 <= k < n && Leaves(ss[k], steps[k], ss[k + 1]) ==> !HandoffPending(ss[k])
    ensures ss[n].policies == map[] ==> ss[n].gateway.None?
  {
    if n > 0 && ss[n].policies == map[] {
      var s, step, t := ss[n - 1], steps[n - 1], ss[n];
      assert Next(s, step, t);
      NoOrphanedPolicy(ss, steps, n - 1);
      if s.policies != map[] {
        var u :| u in s.policies;
        assert u !in t.policies;
        assert Leaves(s, step, t);
        FinalizerGuardsApplied(ss, steps, n - 1);
        LastExitIsCleanIff(s, step, t);
      }
    }
  }

  /** A deletion pass lets an applied policy go and leaves the gateway policy to a successor. */
  ghost predicate HandsOver(s: State, step: Step, t: State) {
    && step.Reconcile? && s.gateway.Some? && t.gateway.Some?
    && step.uid in s.policies && s.policies[step.uid].status.applied && step.uid !in t.policies
  }

  lemma SyncKeepsMark(s: State, uid: string, env: Env, w: string)
    requires Inv(s) && uid in s.policies && Lists(env.order, s.policies)
    requires w in s.policies && s.policies[w].status.applied
    ensures w in SyncPass(s, uid, env).policies && SyncPass(s, uid, env).policies[w].status.applied
  {
    assert PolicyInv(s, w);
    ActiveIsOldest(s, env.order, uid);
  }

  /** A mark stays until its owner hands over or the policy is retracted. */
  lemma MarkStays(s: State, step: Step, t: State, w: string)
    requires Inv(s) && AppliedKeepsFinalizer(s) && Next(s, step, t)
    requires w in s.policies && s.policies[w].status.applied && s.gateway.Some?
    ensures HandsOver(s, step, t) || t.gateway.None? || (w in t.policies && t.policies[w].status.applied)
  {
    if step.Reconcile? && step.uid in s.policies {
      SyncKeepsMark(s, step.uid, step.env, w);
    }
  }

  lemma SyncMarksApplied(s: State, step: Step, t: State)
    requires Next(s, step, t) && SyncSucceeds(s, step) && Recorded(s, step)
    ensures !HandoffPending(t)
  {
    assert step.uid in t.policies && t.policies[step.uid].status.applied;
  }

  lemma OnlySyncSetsPolicy(s: State, step: Step, t: State)
    requires Next(s, step, t) && Definite(s, step) && s.gateway.None? && t.gateway.Some?
    ensures SyncSucceeds(s, step)
  {
  }

  /** With strict times, definite calls and recorded successes, only a handover starts a pending handoff. */
  lemma OnlyHandoverStartsPending(s: State, step: Step, t: State)
    requires Inv(s) && AppliedKeepsFinalizer(s) && Next(s, step, t)
    requires Definite(s, step) && Recorded(s, step)
    requires !HandoffPending(s) && HandoffPending(t)
    ensures HandsOver(s, step, t)
  {
    if s.gateway.Some? {
      var w :| w in s.policies && s.policies[w].status.applied;
      MarkStays(s, step, t, w);
    } else {
      OnlySyncSetsPolicy(s, step, t);
      SyncMarksApplied(s, step, t);
    }
  }

  /** A handover leaves nobody marked, because the mark was the only one. */
  lemma HandoverIsPending(s: State, step: Step, t: State)
    requires Inv(s) && Next(s, step, t) && HandsOver(s, step, t)
    ensures HandoffPending(t) && !SyncSucceeds(s, step)
  {
    forall u | u in t.policies ensures !t.policies[u].status.applied {
      assert PolicyInv(s, u) && PolicyInv(s, step.uid);
    }
  }

  /** Only a successful sync ends a pending handoff: with no mark there is no retraction. */
  lemma PendingStays(s: State, step: Step, t: State)
    requires Next(s, step, t) && HandoffPending(s) && !SyncSucceeds(s, step)
    ensures HandoffPending(t)
  {
  }

  /** One step decides anew: pending after it iff it hands over, or it was pending and nothing synced. */
  lemma PendingStep(ss: seq<State>, steps: seq<Step>, n: nat)
    requires CarefulRun(ss, steps) && 0 < n < |ss|
    ensures HandoffPending(ss[n]) <==>
            || HandsOver(ss[n - 1], steps[n - 1], ss[n])
            || (HandoffPending(ss[n - 1]) && !SyncSucceeds(ss[n - 1], steps[n - 1]))
  {
    var s, step, t := ss[n - 1], steps[n - 1], ss[n];
    RunKeepsInv(ss, steps, n - 1);
    FinalizerGuardsApplied(ss, steps, n - 1);
    assert Next(s, step, t) && Definite(s, step) && Recorded(s, step);
    if HandsOver(s, step, t) {
      HandoverIsPending(s, step, t);
    } else if SyncSucceeds(s, step) {
      SyncMarksApplied(s, step, t);
    } else if HandoffPending(s) {
      PendingStays(s, step, t);
    } else if HandoffPending(t) {
      OnlyHandoverStartsPending(s, step, t);
    }
  }

  /** A handover at `k` and no successful sync between it and `n`. */
  ghost predicate UnfinishedHandover(ss: seq<State>, steps: seq<Step>, k: nat, n: nat)
    requires |ss| == |steps| + 1 && n < |ss|
  {
    && k < n && HandsOver(ss[k], steps[k], ss[k + 1])
    && forall m {:trigger steps[m]} :: k < m < n ==> !SyncSucceeds(ss[m], steps[m])
  }

  ghost predicate Unfinished(ss: seq<State>, steps: seq<Step>, n: nat)
    requires |ss| == |steps| + 1 && n < |ss|
  {
    exists k :: UnfinishedHandover(ss, steps, k, n)
  }

  /** A handover is unfinished after a step iff the step hands over, or one was unfinished and nothing synced. */
  lemma UnfinishedStep(ss: seq<State>, steps: seq<Step>, n: nat)
    requires |ss| == |steps| + 1 && 0 < n < |ss|
    ensures Unfinished(ss, steps, n) <==>
            || HandsOver(ss[n - 1], steps[n - 1], ss[n])
            || (Unfinished(ss, steps, n - 1) && !SyncSucceeds(ss[n - 1], steps[n - 1]))
  {
    var before := n - 1;
    if HandsOver(ss[before], steps[before], ss[n]) {
      assert UnfinishedHandover(ss, steps, before, n);
    } else {
      if k :| UnfinishedHandover(ss, steps, k, n) {
        assert UnfinishedHandover(ss, steps, k, before);
      }
      if k :| UnfinishedHandover(ss, steps, k, before) {
        assert !SyncSucceeds(ss[before], steps[before]) ==> UnfinishedHandover(ss, steps, k, n);
      }
    }
  }

  /** Both sides start out false and each step decides both alike. */
  lemma PendingAndUnfinishedStep(ss: seq<State>, steps: seq<Step>, n: nat)
    requires CarefulRun(ss, steps) && n < |ss|
    requires n > 0 ==> (HandoffPending(ss[n - 1]) <==> Unfinished(ss, steps, n - 1))
    ensures HandoffPending(ss[n]) <==> Unfinished(ss, steps, n)
  {
    if n > 0 {
      PendingStep(ss, steps, n);
      UnfinishedStep(ss, steps, n);
    }
  }

  /** Under those assumptions a handoff is pending exactly while a handover waits for its first successful sync. */
  lemma {:induction false} PendingIffUnfinishedHandover(ss: seq<State>, steps: seq<Step>, n: nat)
    requires CarefulRun(ss, steps) && n < |ss|
    ensures HandoffPending(ss[n]) <==> Unfinished(ss, steps, n)
  {
    if n > 0 {
      PendingIffUnfinishedHandover(ss, steps, n - 1);
    }
    PendingAndUnfinishedStep(ss, steps, n);
  }

  /** So the policy outlives every object iff the successors of some handover all left before one of them synced. */
  lemma OrphanIffUnfinishedHandover(ss: seq<State>, steps: seq<Step>, n: nat)
    requires CarefulRun(ss, steps) && n < |ss| && ss[n].policies == map[]
    ensures ss[n].gateway.Some? <==> Unfinished(ss, steps, n)
  {
    PendingIffUnfinishedHandover(ss, steps, n);
    assert HandoffPending(ss[n]) <==> ss[n].gateway.Some?;
  }

  // -------------------------------------------- the provisos and assumptions are needed

  /** What a run promises: strict creation times, definite calls, recorded successes, no handover. */
  datatype Terms = Terms(strict: bool, definite: bool, recorded: bool, noHandover: bool)

  const CAREFUL := Terms(true, true, true, false)

  ghost predicate Keeps(terms: Terms, s: State, step: Step, t: State) {
    && (terms.strict ==> Strict(s, step)) && (terms.definite ==> Definite(s, step))
    && (terms.recorded ==> Recorded(s, step)) && (terms.noHandover ==> !HandsOver(s, step, t))
  }

  /** Some run on these terms ends in `s`. */
  ghost predicate Reachable(terms: Terms, s: State) {
    exists ss: seq<State>, steps: seq<Step> ::
      && Run(ss, steps) && ss[|steps|] == s
      && forall i {:trigger steps[i]} :: 0 <= i < |steps| ==> Keeps(terms, ss[i], steps[i], ss[i + 1])
  }

  lemma Extend(terms: Terms, s: State, step: Step, t: State)
    requires Reachable(terms, s) && Next(s, step, t) && Keeps(terms, s, step, t)
    ensures Reachable(terms, t)
  {
    var ss: seq<State>, steps: seq<Step> :|
      && Run(ss, steps) && ss[|steps|] == s
      && forall i {:trigger steps[i]} :: 0 <= i < |steps| ==> Keeps(terms, ss[i], steps[i], ss[i + 1]);
    var longer, more := ss + [t], steps + [step];
    forall i | 0 <= i < |more| ensures Next(longer[i], more[i], longer[i + 1]) {
      assert i < |steps| ==> longer[i + 1] == ss[i + 1] && more[i] == steps[i];
    }
    assert Run(longer, more) && longer[|more|] == t;
  }

  function Fine(order: seq<string>): Env {
    Env(order, true, true, true, Accepted, true, true)
  }

  lemma FinePassAddsFinalizer(s: State, uid: string, order: seq<string>)
    requires uid in s.policies && Lists(order, s.policies)
    requires !s.policies[uid].deleting && !s.policies[uid].finalizer
    ensures Next(s, Reconcile(uid, Fine(order)), s.(policies := s.policies[uid := s.policies[uid].(finalizer := true)]))
  {
  }

  lemma FinePassDropsPolicy(s: State, uid: string, order: seq<string>)
    requires uid in s.policies && Lists(order, s.policies)
    requires s.policies[uid].deleting && s.policies[uid].finalizer
    requires s.policies[uid].status.applied ==> s.policies.Keys != {uid}
    ensures Next(s, Reconcile(uid, Fine(order)), s.(policies := s.policies - {uid}))
  {
  }

  /** The policy that a listing names first and no other one is older than is active. */
  lemma FirstListedIsActive(policies: map<string, Policy>, order: seq<string>)
    requires Lists(order, policies) && order != []
    requires forall u :: u in policies ==> policies[order[0]].created <= policies[u].created
    ensures Active(policies, order, order[0])
  {
    assert Singleton.FirstOldest(CreationTimes(order, policies), 0);
  }

  /** The policy "a", just created and with its finalizer. */
  function NewPolicy(spec: PolicySpec): Policy {
    Policy(1, 1, spec, false, true, NO_STATUS)
  }

  lemma FirstPolicyIsReady(terms: Terms, spec: PolicySpec)
    ensures Reachable(terms, State(map["a" := NewPolicy(spec)], None))
  {
    var s0, s1 := State(map[], None), State(map["a" := NewPolicy(spec).(finalizer := false)], None);
    var s2 := State(map["a" := NewPolicy(spec)], None);
    var none: seq<Step> := [];
    assert Run([s0], none) && [s0][|none|] == s0;
    Extend(terms, s0, Create("a", spec, 1), s1);
    FinePassAddsFinalizer(s1, "a", ["a"]);
    Extend(terms, s1, Reconcile("a", Fine(["a"])), s2);
  }

  lemma FirstPolicySyncs(terms: Terms, spec: PolicySpec)
    ensures Reachable(terms, State(map["a" := InSync(NewPolicy(spec))], Some(Build(spec))))
  {
    FirstPolicyIsReady(terms, spec);
    var s := State(map["a" := NewPolicy(spec)], None);
    FirstListedIsActive(s.policies, ["a"]);
    Extend(terms, s, Reconcile("a", Fine(["a"])), State(map["a" := InSync(NewPolicy(spec))], Some(Build(spec))));
  }

  /** Without "recorded" a handoff can be pending that no handover started. */
  lemma LostWriteStartsPending(spec: PolicySpec)
    ensures exists s :: Reachable(Terms(true, true, false, true), s) && HandoffPending(s)
  {
    var terms := Terms(true, true, false, true);
    FirstPolicyIsReady(terms, spec);
    var s := State(map["a" := NewPolicy(spec)], None);
    FirstListedIsActive(s.policies, ["a"]);
    var t := s.(gateway := Some(Build(spec)));
    Extend(terms, s, Reconcile("a", Fine(["a"]).(statusWritten := false)), t);
    assert HandoffPending(t);
  }

  /** So it can without "definite". */
  lemma AmbiguousErrorStartsPending(spec: PolicySpec)
    ensures exists s :: Reachable(Terms(true, false, true, true), s) && HandoffPending(s)
  {
    var terms := Terms(true, false, true, true);
    FirstPolicyIsReady(terms, spec);
    var s := State(map["a" := NewPolicy(spec)], None);
    FirstListedIsActive(s.policies, ["a"]);
    var t := State(map["a" := NotReady(NewPolicy(spec), "GatewayUnreachable")], Some(Build(spec)));
    Extend(terms, s, Reconcile("a", Fine(["a"]).(rpc := Broken(true))), t);
    assert HandoffPending(t);
  }

  /** A second policy "b" joins, created at `created`. */
  lemma SuccessorJoins(terms: Terms, a: PolicySpec, b: PolicySpec, created: nat)
    requires terms.strict ==> 1 < created
    ensures Reachable(terms, State(map["a" := InSync(NewPolicy(a)), "b" := NewPolicy(b).(created := created)],
                                   Some(Build(a))))
  {
    FirstPolicySyncs(terms, a);
    var p := NewPolicy(b).(created := created);
    var s := State(map["a" := InSync(NewPolicy(a))], Some(Build(a)));
    var s' := s.(policies := s.policies["b" := p.(finalizer := false)]);
    Extend(terms, s, Create("b", b, created), s');
    FinePassAddsFinalizer(s', "b", ["a", "b"]);
    var t := s'.(policies := s'.policies["b" := p]);
    Extend(terms, s', Reconcile("b", Fine(["a", "b"])), t);
    assert t.policies == map["a" := InSync(NewPolicy(a)), "b" := p];
  }

  /** Every call succeeds, every write lands, times are strict, and yet the policy outlives every object. */
  lemma OrphanWitness(spec: PolicySpec)
    ensures Reachable(CAREFUL, State(map[], Some(Build(spec))))
  {
    var a, b := InSync(NewPolicy(spec)), NewPolicy(spec).(created := 2);
    SuccessorJoins(CAREFUL, spec, spec, 2);
    var s5 := State(map["a" := a, "b" := b], Some(Build(spec)));
    var s6 := s5.(policies := s5.policies["a" := a.(deleting := true)]);
    Extend(CAREFUL, s5, Delete("a"), s6);
    assert "b" in s6.policies;
    FinePassDropsPolicy(s6, "a", ["a", "b"]);
    var s7 := State(map["b" := b], Some(Build(spec)));
    assert s7.policies == s6.policies - {"a"};
    Extend(CAREFUL, s6, Reconcile("a", Fine(["a", "b"])), s7);
    var s8 := s7.(policies := map["b" := b.(deleting := true)]);
    Extend(CAREFUL, s7, Delete("b"), s8);
    FinePassDropsPolicy(s8, "b", ["b"]);
    var s9 := State(map[], Some(Build(spec)));
    assert s9.policies == s8.policies - {"b"};
    Extend(CAREFUL, s8, Reconcile("b", Fine(["b"])), s9);
  }

  /** With equal creation times two policies can report Synced while the gateway enforces one of them. */
  lemma TieBreaksTruth(a: PolicySpec, b: PolicySpec)
    requires Build(a) != Build(b)
    ensures exists s :: && Reachable(CAREFUL.(strict := false), s) && "a" in s.policies
                        && ReportsSynced(s.policies["a"]) && s.gateway != Some(Build(s.policies["a"].spec))
  {
    var terms := CAREFUL.(strict := false);
    SuccessorJoins(terms, a, b, 1);
    var s := State(map["a" := InSync(NewPolicy(a)), "b" := NewPolicy(b)], Some(Build(a)));
    assert NewPolicy(b).(created := 1) == NewPolicy(b);
    FirstListedIsActive(s.policies, ["b", "a"]);
    var t := State(s.policies["b" := InSync(NewPolicy(b))], Some(Build(b)));
    Extend(terms, s, Reconcile("b", Fine(["b", "a"])), t);
    assert ReportsSynced(t.policies["a"]);
  }
}
