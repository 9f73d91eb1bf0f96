/**
 The workspace-member protocol (internal/controller/openshellworkspacemember_controller.go).
 Adding a member is not idempotent, a role change is a removal and an addition, an identity
 that was recreated is told apart by its UID, and `status.reconciledSubject` is all the
 controller remembers between passes.

 One OpenShellWorkspaceMember object is followed; everybody else who uses the gateway's member
 table is part of the environment. `granted` is the history of what this object added and
 nobody removed since.
 */
module MemberProtocol {
  import opened Options

  const MAX_WORKSPACE_MEMBERS := 1000

  datatype Role = Unspecified | User | Admin
  datatype Slot = Slot(workspace: string, subject: string)
  datatype Gateway = Gateway(members: map<Slot, Role>, granted: set<Slot>)

  datatype Spec = Spec(workspace: string, serviceAccount: string, role: string)
  datatype Phase = Pending | Synced | Failed
  datatype Condition = Condition(isTrue: bool, reason: string)
  datatype Status = Status(phase: Phase, observedGeneration: nat, ready: Option<Condition>, subject: string)
  datatype Member = Member(spec: Spec, generation: nat, deleting: bool, finalizer: bool, status: Status)

  /** The object, the UIDs of the ServiceAccounts in its namespace, and the gateway. */
  datatype State = State(member: Option<Member>, accounts: map<string, string>, gateway: Gateway)

  const NO_STATUS := Status(Pending, 0, None, "")

  function RoleFromSpec(role: string): Role {
    if role == "admin" then Admin else User
  }

  // -------------------------------------------------------------------- the remote calls

  datatype Rpc = Delivered | Broken(tookEffect: bool)

  /** The order of accounts in a listing (none if the call failed) and the fate of every call. */
  datatype Env = Env(gatewayFound: bool, accountReadable: bool, connected: bool, removeStale: Rpc, add: Rpc,
                     listed: Option<seq<string>>, removeOld: Rpc, readd: Rpc, statusWritten: bool, objectWritten: bool)

  predicate Hits(rpc: Rpc) {
    rpc.Delivered? || rpc.tookEffect
  }

  function RemoveRpc(g: Gateway, slot: Slot, rpc: Rpc): Gateway {
    if Hits(rpc) then Gateway(g.members - {slot}, g.granted - {slot}) else g
  }

  function AddRpc(g: Gateway, slot: Slot, role: Role, rpc: Rpc): Gateway {
    if Hits(rpc) && slot !in g.members then Gateway(g.members[slot := role], g.granted + {slot}) else g
  }

  function FindRole(g: Gateway, slot: Slot, listed: Option<seq<string>>): Option<Role> {
    if listed.Some? && slot.subject in listed.value && slot in g.members then Some(g.members[slot]) else None
  }

  datatype AddResult = Added | MembershipRemoved | OtherError

  /** How an exchange ended, and the gateway after each of its calls. */
  datatype Exchange = Exchange(result: AddResult, gateway: Gateway, trace: seq<Gateway>)

  function AddMember(g: Gateway, slot: Slot, role: Role, env: Env): Exchange {
    var g1 := AddRpc(g, slot, role, env.add);
    if env.add.Broken? then Exchange(OtherError, g1, [g1])
    else if slot !in g.members then Exchange(Added, g1, [g1])
    else match FindRole(g, slot, env.listed)
      case None => Exchange(OtherError, g, [g1])
      case Some(existing) =>
        if existing == role then Exchange(Added, g, [g1])
        else
          var g2 := RemoveRpc(g, slot, env.removeOld);
          if env.removeOld.Broken? then Exchange(OtherError, g2, [g1, g2])
          else
            var g3 := AddRpc(g2, slot, role, env.readd);
            Exchange(if env.readd.Delivered? then Added else MembershipRemoved, g3, [g1, g2, g3])
  }

  /** An error that this call reports means that it had no effect. */
  predicate Clear(rpc: Rpc) {
    rpc.Broken? ==> !rpc.tookEffect
  }

  /** "definite": an add that reports an error had no effect; a removal may have. */
  predicate Definite(env: Env) {
    Clear(env.add) && Clear(env.readd)
  }

  function Slots(g: Gateway, workspace: string): set<Slot> {
    set slot | slot in g.members && slot.workspace == workspace
  }

  /** A listing of up to 1000 entries is complete for every workspace within the cap. */
  ghost predicate HonestListing(g: Gateway, workspace: string, listed: seq<string>) {
    |Slots(g, workspace)| <= MAX_WORKSPACE_MEMBERS ==>
      forall slot :: slot in Slots(g, workspace) ==> slot.subject in listed
  }

  /**
   The three exact outcomes of an exchange, for every member table within the cap. The result
   tells which one happened, and it is `Added` whenever no call fails.
   */
  lemma AddMemberOutcomes(g: Gateway, slot: Slot, role: Role, env: Env)
    requires Definite(env) && Clear(env.removeOld) && |Slots(g, slot.workspace)| <= 1000
    requires env.listed.Some? ==> HonestListing(g, slot.workspace, env.listed.value)
    ensures var e := AddMember(g, slot, role, env);
            match e.result
            case Added => e.gateway.members == g.members[slot := role]
            case MembershipRemoved =>
              slot in g.members && g.members[slot] != role && e.gateway.members == g.members - {slot}
            case OtherError => e.gateway == g
    ensures env.add.Delivered? && env.listed.Some? && env.removeOld.Delivered? && env.readd.Delivered?
            ==> AddMember(g, slot, role, env).result.Added?
  {
    assert slot in g.members ==> slot in Slots(g, slot.workspace);
    if slot in g.members && g.members[slot] == role {
      assert g.members[slot := role] == g.members;
    }
    assert (g.members - {slot})[slot := role] == g.members[slot := role];
  }

  /** A repeat after a success changes nothing, whatever its calls report, and succeeds when none of them fails. */
  lemma RepeatIsNoOp(g: Gateway, slot: Slot, role: Role, env: Env, again: Env)
    requires AddMember(g, slot, role, env).result.Added?
    ensures var h := AddMember(g, slot, role, env).gateway;
            && AddMember(h, slot, role, again).gateway == h
            && (|Slots(h, slot.workspace)| <= MAX_WORKSPACE_MEMBERS && again.add.Delivered? && again.listed.Some?
                && HonestListing(h, slot.workspace, again.listed.value)
                ==> AddMember(h, slot, role, again).result.Added?)
  {
    var h := AddMember(g, slot, role, env).gateway;
    assert slot in h.members && h.members[slot] == role;
    assert slot in Slots(h, slot.workspace);
  }

  // ---------------------------------------------------------------- one controller pass

  datatype Outcome = Outcome(state: State, trace: seq<Gateway>)

  function Store(s: State, m: Member, written: bool): State {
    if written then s.(member := Some(m)) else s
  }

  function NotReady(m: Member, reason: string): Member {
    m.(status := m.status.(phase := Failed, observedGeneration := m.generation,
                           ready := Some(Condition(false, reason))))
  }

  function Forget(m: Member): Member {
    m.(status := m.status.(subject := ""))
  }

  function InSync(m: Member, subject: string): Member {
    m.(status := Status(Synced, m.generation, Some(Condition(true, "Synced")), subject))
  }

  function Fails(s: State, g: Gateway, m: Member, reason: string, env: Env, trace: seq<Gateway>): Outcome {
    Outcome(Store(s.(gateway := g), NotReady(m, reason), env.statusWritten), trace)
  }

  /** The ServiceAccount is gone: take back the membership it had. */
  function IdentityMissing(s: State, m: Member, env: Env): Outcome {
    if m.status.subject == "" then Fails(s, s.gateway, m, "IdentityNotFound", env, [])
    else if !env.connected then Fails(s, s.gateway, m, "GatewayUnreachable", env, [])
    else
      var g := RemoveRpc(s.gateway, Slot(m.spec.workspace, m.status.subject), env.removeStale);
      if env.removeStale.Broken? then Fails(s, g, m, "GatewayUnreachable", env, [g])
      else Fails(s, g, Forget(m), "IdentityNotFound", env, [g])
  }

  /** Grant `current` what the spec says, on the gateway `g` that the pass has reached. */
  function Grant(s: State, g: Gateway, m: Member, current: string, env: Env, trace: seq<Gateway>): Outcome {
    var e := AddMember(g, Slot(m.spec.workspace, current), RoleFromSpec(m.spec.role), env);
    match e.result
    case Added => Outcome(Store(s.(gateway := e.gateway), InSync(m, current), env.statusWritten), trace + e.trace)
    case MembershipRemoved => Fails(s, e.gateway, Forget(m), "GatewayUnreachable", env, trace + e.trace)
    case OtherError => Fails(s, e.gateway, m, "GatewayUnreachable", env, trace + e.trace)
  }

  /** What happened before a grant is in its trace and nowhere else. */
  lemma GrantContinues(s: State, g: Gateway, m: Member, current: string, env: Env, trace: seq<Gateway>)
    ensures var here, whole := Grant(s.(gateway := g), g, m, current, env, []), Grant(s, g, m, current, env, trace);
            here.state == whole.state && trace + here.trace == whole.trace
  {
  }

  predicate Stale(m: Member, current: string) {
    m.status.subject != "" && m.status.subject != current
  }

  /** Connected: first take back what a replaced identity had, then grant the current one. */
  function SyncIdentity(s: State, m: Member, current: string, env: Env): Outcome {
    if !Stale(m, current) then Grant(s, s.gateway, m, current, env, [])
    else
      var g := RemoveRpc(s.gateway, Slot(m.spec.workspace, m.status.subject), env.removeStale);
      if env.removeStale.Broken? then Fails(s, g, m, "GatewayUnreachable", env, [g])
      else Grant(s, g, Forget(m), current, env, [g])
  }

  function SyncPass(s: State, m: Member, env: Env): Outcome {
    if !env.gatewayFound then Fails(s, s.gateway, m, "GatewayNotFound", env, [])
    else if !env.accountReadable then Outcome(s, [])
    else if m.spec.serviceAccount !in s.accounts then IdentityMissing(s, m, env)
    else
      var current := s.accounts[m.spec.serviceAccount];
      if current == "" then Fails(s, s.gateway, m, "IdentityNotFound", env, [])
      else if !env.connected then Fails(s, s.gateway, m, "GatewayUnreachable", env, [])
      else SyncIdentity(s, m, current, env)
  }

  function Leave(s: State, written: bool): State {
    if written then s.(member := None) else s
  }

  function DeletePass(s: State, m: Member, env: Env): Outcome {
    if !m.finalizer then Outcome(s, [])
    else if m.status.subject == "" then Outcome(Leave(s, env.objectWritten), [])
    else if !env.gatewayFound || !env.connected then Outcome(s, [])
    else
      var g := RemoveRpc(s.gateway, Slot(m.spec.workspace, m.status.subject), env.removeStale);
      if env.removeStale.Broken? then Outcome(s.(gateway := g), [g])
      else Outcome(Leave(s.(gateway := g), env.objectWritten), [g])
  }

  function Pass(s: State, env: Env): Outcome {
    match s.member
    case None => Outcome(s, [])
    case Some(m) =>
      if m.deleting then DeletePass(s, m, env)
      else if !m.finalizer then Outcome(Store(s, m.(finalizer := true), env.objectWritten), [])
      else SyncPass(s, m, env)
  }

  // ------------------------------------------------------------------------------- runs

  datatype Step =
    | Create(spec: Spec)
    | Edit(spec: Spec)
    | Delete
    | SetAccount(name: string, uid: string)
    | DropAccount(name: string)
    | OthersAdd(slot: Slot, role: Role)
    | OthersRemove(slot: Slot)
    | Reconcile(env: Env)

  function Edited(m: Member, spec: Spec): Member {
    m.(spec := spec, generation := m.generation + 1)
  }

  ghost predicate Next(s: State, step: Step, t: State) {
    match step
    case Create(spec) => s.member.None? && t == s.(member := Some(Member(spec, 1, false, false, NO_STATUS)))
    case Edit(spec) => s.member.Some? && t == s.(member := Some(Edited(s.member.value, spec)))
    case Delete =>
      s.member.Some? &&
      t == if s.member.value.finalizer then s.(member := Some(s.member.value.(deleting := true)))
           else Leave(s, true)
    case SetAccount(name, uid) => t == s.(accounts := s.accounts[name := uid])
    case DropAccount(name) => t == s.(accounts := s.accounts - {name})
    case OthersAdd(slot, role) =>
      slot !in s.gateway.members && t == s.(gateway := s.gateway.(members := s.gateway.members[slot := role]))
    case OthersRemove(slot) => t == s.(gateway := RemoveRpc(s.gateway, slot, Delivered))
    case Reconcile(env) => t == Pass(s, env).state
  }

  ghost predicate Run(ss: seq<State>, steps: seq<Step>) {
    && |ss| == |steps| + 1
    && ss[0].member.None? && ss[0].gateway.granted == {}
    && forall i :: 0 <= i < |steps| ==> Next(ss[i], steps[i], ss[i + 1])
  }

  /** "recorded": the status write after a pass that granted something lands. */
  ghost predicate Recorded(s: State, step: Step) {
    step.Reconcile? && !(Pass(s, step.env).state.gateway.granted <= s.gateway.granted) ==> step.env.statusWritten
  }

  ghost predicate CarefulRun(ss: seq<State>, steps: seq<Step>) {
    && Run(ss, steps)
    && (forall i :: 0 <= i < |steps| && steps[i].Reconcile? ==> Definite(steps[i].env))
    && (forall i {:trigger steps[i]} :: 0 <= i < |steps| ==> Recorded(ss[i], steps[i]))
  }

  // ---------------------------------------------------- what the object granted, it records

  /** The one membership the object's status accounts for. */
  function Recall(m: Member): set<Slot> {
    if m.status.subject == "" then {} else {Slot(m.spec.workspace, m.status.subject)}
  }

  /** The edit moves the object to another workspace. */
  predicate Moves(s: State, step: Step) {
    step.Edit? && s.member.Some? && step.spec.workspace != s.member.value.spec.workspace
  }

  /** The memberships that moves have taken out of the object's sight so far. */
  ghost function Abandoned(ss: seq<State>, steps: seq<Step>, n: nat): set<Slot>
    requires |ss| == |steps| + 1 && n < |ss|
  {
    if n == 0 then {}
    else Abandoned(ss, steps, n - 1) + if Moves(ss[n - 1], steps[n - 1]) then Recall(ss[n - 1].member.value) else {}
  }

  /** Apart from what was abandoned, the object has granted no more than its status names. */
  ghost predicate Inv(s: State, abandoned: set<Slot>) {
    match s.member
    case None => s.gateway.granted <= abandoned
    case Some(m) => s.gateway.granted <= Recall(m) + abandoned && (!m.finalizer ==> m.status.subject == "")
  }

  ghost predicate AtMostOneGrant(g: Gateway, abandoned: set<Slot>) {
    forall a, b :: a in g.granted - abandoned && b in g.granted - abandoned ==> a == b
  }

  /** The exchange touches its own slot only, and a lost grant never hides behind an error. */
  lemma ExchangeGrants(g: Gateway, slot: Slot, role: Role, env: Env)
    requires Definite(env)
    ensures var e := AddMember(g, slot, role, env);
            && (e.result.Added? ==> e.gateway.granted <= g.granted + {slot})
            && (e.result.MembershipRemoved? ==> e.gateway.granted == g.granted - {slot})
            && (e.result.OtherError? ==> e.gateway.granted <= g.granted)
            && (forall i :: 0 <= i < |e.trace| ==> e.trace[i].granted <= g.granted + {slot})
            && (slot in g.granted && slot in g.members && e.result.Added? ==> e.gateway.granted <= g.granted)
  {
    assert Hits(env.add) ==> env.add.Delivered?;
    assert Hits(env.readd) ==> env.readd.Delivered?;
  }

  lemma GrantKeepsInv(s: State, g: Gateway, m: Member, current: string, env: Env, trace: seq<Gateway>, left: set<Slot>)
    requires s.member.Some? && s.member.value.finalizer && m.finalizer && current != ""
    requires m.spec == s.member.value.spec && Definite(env)
    requires g.granted <= Recall(m) + left && g.granted <= s.gateway.granted
    requires m.status.subject == "" || m.status.subject == current
    requires s.gateway.granted <= Recall(s.member.value) + left
    requires s.member.value.status.subject == m.status.subject || g.granted <= left
    requires forall h :: h in trace ==> AtMostOneGrant(h, left)
    requires !(Grant(s, g, m, current, env, trace).state.gateway.granted <= s.gateway.granted) ==> env.statusWritten
    ensures Inv(Grant(s, g, m, current, env, trace).state, left)
    ensures forall h :: h in Grant(s, g, m, current, env, trace).trace ==> AtMostOneGrant(h, left)
  {
    var slot := Slot(m.spec.workspace, current);
    var e := AddMember(g, slot, RoleFromSpec(m.spec.role), env);
    ExchangeGrants(g, slot, RoleFromSpec(m.spec.role), env);
    assert g.granted <= {slot} + left;
    forall h | h in trace + e.trace ensures AtMostOneGrant(h, left) {
      assert h in trace || h in e.trace;
    }
  }

  lemma SyncKeepsInv(s: State, m: Member, env: Env, left: set<Slot>)
    requires Inv(s, left) && s.member == Some(m) && m.finalizer && Definite(env)
    requires Recorded(s, Reconcile(env)) && !m.deleting
    ensures Inv(SyncPass(s, m, env).state, left)
    ensures forall h :: h in SyncPass(s, m, env).trace ==> AtMostOneGrant(h, left)
  {
    if env.gatewayFound && env.accountReadable && m.spec.serviceAccount in s.accounts && env.connected {
      var current := s.accounts[m.spec.serviceAccount];
      if current != "" {
        if Stale(m, current) {
          var g := RemoveRpc(s.gateway, Slot(m.spec.workspace, m.status.subject), env.removeStale);
          if env.removeStale.Delivered? {
            assert g.granted <= left;
            GrantKeepsInv(s, g, Forget(m), current, env, [g], left);
          }
        } else {
          GrantKeepsInv(s, s.gateway, m, current, env, [], left);
        }
      }
    }
  }

  lemma PassKeepsInv(s: State, env: Env, left: set<Slot>)
    requires Inv(s, left) && Definite(env) && Recorded(s, Reconcile(env))
    ensures Inv(Pass(s, env).state, left)
    ensures forall h :: h in Pass(s, env).trace ==> AtMostOneGrant(h, left)
  {
    if s.member.Some? && !s.member.value.deleting && s.member.value.finalizer {
      SyncKeepsInv(s, s.member.value, env, left);
    }
  }

  lemma {:induction false} RunKeepsInv(ss: seq<State>, steps: seq<Step>, n: nat)
    requires CarefulRun(ss, steps) && n < |ss|
    ensures Inv(ss[n], Abandoned(ss, steps, n))
  {
    if n > 0 {
      RunKeepsInv(ss, steps, n - 1);
      assert Next(ss[n - 1], steps[n - 1], ss[n]) && Recorded(ss[n - 1], steps[n - 1]);
      if steps[n - 1].Reconcile? {
        PassKeepsInv(ss[n - 1], steps[n - 1].env, Abandoned(ss, steps, n - 1));
      }
    }
  }

  /**
   In every careful run, moves included, what the object granted and nobody removed is at most
   the one membership its status names and those its moves abandoned.
   */
  lemma GrantsAreRecordedOrAbandoned(ss: seq<State>, steps: seq<Step>, n: nat)
    requires CarefulRun(ss, steps) && n < |ss|
    ensures ss[n].member.Some? ==> ss[n].gateway.granted <= Recall(ss[n].member.value) + Abandoned(ss, steps, n)
    ensures ss[n].member.None? ==> ss[n].gateway.granted <= Abandoned(ss, steps, n)
  {
    RunKeepsInv(ss, steps, n);
  }

  /** Not even between two calls of one pass do an old and a recreated identity hold a grant together. */
  lemma NeverTwoGrants(ss: seq<State>, steps: seq<Step>, n: nat, i: nat)
    requires CarefulRun(ss, steps) && n < |steps| && steps[n].Reconcile?
    requires i < |Pass(ss[n], steps[n].env).trace|
    ensures AtMostOneGrant(Pass(ss[n], steps[n].env).trace[i], Abandoned(ss, steps, n))
    ensures MovesUnrecorded(ss, steps, n) ==> AtMostOneGrant(Pass(ss[n], steps[n].env).trace[i], {})
  {
    RunKeepsInv(ss, steps, n);
    if MovesUnrecorded(ss, steps, n) {
      NothingAbandoned(ss, steps, n);
    }
    assert Recorded(ss[n], steps[n]);
    PassKeepsInv(ss[n], steps[n].env, Abandoned(ss, steps, n));
  }

  /** Every move so far happened while `status.reconciledSubject` was empty. */
  predicate MovesUnrecorded(ss: seq<State>, steps: seq<Step>, n: nat)
    requires |ss| == |steps| + 1 && n < |ss|
  {
    forall k {:trigger steps[k]} :: 0 <= k < n && Moves(ss[k], steps[k]) ==> ss[k].member.value.status.subject == ""
  }

  lemma {:induction false} NothingAbandoned(ss: seq<State>, steps: seq<Step>, n: nat)
    requires |ss| == |steps| + 1 && n < |ss| && MovesUnrecorded(ss, steps, n)
    ensures Abandoned(ss, steps, n) == {}
  {
    if n > 0 {
      NothingAbandoned(ss, steps, n - 1);
    }
  }

  /**
   If the object moves only while its status names nobody, what it granted is at most the one
   membership its status names, and once the object is gone nothing of it remains.
   */
  lemma GrantsAreRecorded(ss: seq<State>, steps: seq<Step>, n: nat)
    requires CarefulRun(ss, steps) && n < |ss| && MovesUnrecorded(ss, steps, n)
    ensures ss[n].member.Some? ==> ss[n].gateway.granted <= Recall(ss[n].member.value)
    ensures ss[n].member.None? ==> ss[n].gateway.granted == {}
  {
    NothingAbandoned(ss, steps, n);
    GrantsAreRecordedOrAbandoned(ss, steps, n);
  }

  // ----------------------------------------------------------- what a move leaves behind

  /** The calls of an exchange or a removal leave every other slot's grant alone. */
  lemma ExchangeKeepsOtherGrants(g: Gateway, slot: Slot, role: Role, env: Env, other: Slot)
    requires other != slot && other in g.granted
    ensures other in AddMember(g, slot, role, env).gateway.granted
  {
  }

  /** A pass works in the workspace that the spec names, and in no other. */
  lemma PassKeepsOtherWorkspaces(s: State, env: Env, slot: Slot)
    requires slot in s.gateway.granted && (s.member.Some? ==> s.member.value.spec.workspace != slot.workspace)
    ensures slot in Pass(s, env).state.gateway.granted
  {
    if s.member.Some? && s.member.value.spec.serviceAccount in s.accounts {
      var m, current := s.member.value, s.accounts[s.member.value.spec.serviceAccount];
      var g := RemoveRpc(s.gateway, Slot(m.spec.workspace, m.status.subject), env.removeStale);
      ExchangeKeepsOtherGrants(s.gateway, Slot(m.spec.workspace, current), RoleFromSpec(m.spec.role), env, slot);
      ExchangeKeepsOtherGrants(g, Slot(m.spec.workspace, current), RoleFromSpec(m.spec.role), env, slot);
    }
  }

  /** Nobody else removes `slot`, and if the controller works it does so in another workspace. */
  predicate Elsewhere(s: State, step: Step, slot: Slot) {
    && step != OthersRemove(slot)
    && (step.Reconcile? && s.member.Some? ==> s.member.value.spec.workspace != slot.workspace)
  }

  /** The grant is still there in `t` if it was there in `s`. */
  predicate Carries(s: State, t: State, slot: Slot) {
    slot in s.gateway.granted ==> slot in t.gateway.granted
  }

  lemma StepKeepsOtherWorkspaces(s: State, step: Step, t: State, slot: Slot)
    requires Next(s, step, t) && Elsewhere(s, step, slot)
    ensures Carries(s, t, slot)
  {
    if step.Reconcile? && slot in s.gateway.granted {
      PassKeepsOtherWorkspaces(s, step.env, slot);
    }
  }

  lemma {:induction false} CarriedAlong(ss: seq<State>, i: nat, j: nat, slot: Slot)
    requires i <= j < |ss| && slot in ss[i].gateway.granted
    requires forall k :: i < k <= j ==> Carries(ss[k - 1], ss[k], slot)
    ensures slot in ss[j].gateway.granted
    decreases j
  {
    if i < j {
      CarriedAlong(ss, i, j - 1, slot);
      assert Carries(ss[j - 1], ss[j], slot);
    }
  }

  /**
   A grant in a workspace that the object has moved away from stays, whatever the object does
   elsewhere, deletion included, until somebody else removes it.
   */
  lemma MovedGrantStays(ss: seq<State>, steps: seq<Step>, i: nat, j: nat, slot: Slot)
    requires Run(ss, steps) && i <= j < |ss| && slot in ss[i].gateway.granted
    requires forall k {:trigger steps[k]} :: i <= k < j ==> Elsewhere(ss[k], steps[k], slot)
    ensures slot in ss[j].gateway.granted
  {
    forall k | i < k <= j ensures Carries(ss[k - 1], ss[k], slot) {
      StepKeepsOtherWorkspaces(ss[k - 1], steps[k - 1], ss[k], slot);
    }
    CarriedAlong(ss, i, j, slot);
  }

  /** What a caller can tell from the object: an edit is safe, whatever the gateway holds, iff it
      stays in the workspace or `status.reconciledSubject` is empty. */
  lemma WorkspaceEditSafeIff(m: Member, spec: Spec)
    requires !m.finalizer ==> m.status.subject == ""
    ensures (forall s: State :: s.member == Some(m) && Inv(s, {}) ==> Inv(s.(member := Some(Edited(m, spec))), {}))
            <==> spec.workspace == m.spec.workspace || m.status.subject == ""
  {
    if spec.workspace != m.spec.workspace && m.status.subject != "" {
      var slot := Slot(m.spec.workspace, m.status.subject);
      var s := State(Some(m), map[], Gateway(map[], {slot}));
      assert Inv(s, {});
      assert slot !in Recall(Edited(m, spec));
      assert !Inv(s.(member := Some(Edited(m, spec))), {});
    }
  }

  /** A pass that reads its ServiceAccount and reports Synced: the current identity has the wanted role,
      the replaced one is out, nobody else is touched. */
  lemma SyncedMeansMember(s: State, m: Member, env: Env)
    requires s.member == Some(m) && !m.deleting && m.finalizer && env.accountReadable && env.statusWritten
    requires Pass(s, env).state.member.Some? && Pass(s, env).state.member.value.status.phase.Synced?
    ensures m.spec.serviceAccount in s.accounts
    ensures var current := s.accounts[m.spec.serviceAccount];
            var kept := if Stale(m, current) then s.gateway.members - {Slot(m.spec.workspace, m.status.subject)}
                        else s.gateway.members;
            var role := if m.spec.role == "admin" then Admin else User;
            && Pass(s, env).state.gateway.members == kept[Slot(m.spec.workspace, current) := role]
            && Pass(s, env).state.member.value.status.subject == current
  {
    var current := s.accounts[m.spec.serviceAccount];
    var slot, role := Slot(m.spec.workspace, current), RoleFromSpec(m.spec.role);
    var g := if Stale(m, current) then RemoveRpc(s.gateway, Slot(m.spec.workspace, m.status.subject), env.removeStale)
             else s.gateway;
    AddedIsExact(g, slot, role, env);
  }

  lemma AddedIsExact(g: Gateway, slot: Slot, role: Role, env: Env)
    requires AddMember(g, slot, role, env).result.Added?
    ensures AddMember(g, slot, role, env).gateway.members == g.members[slot := role]
  {
    if slot in g.members {
      assert g.members[slot] == role ==> g.members[slot := role] == g.members;
      assert (g.members - {slot})[slot := role] == g.members[slot := role];
    }
  }

  /** The step leaves the entry of `slot` in the member table alone. */
  predicate LeavesEntry(step: Step, slot: Slot) {
    !step.Reconcile? && (step.OthersAdd? || step.OthersRemove? ==> step.slot != slot)
  }

  lemma EntryKept(s: State, step: Step, t: State, slot: Slot)
    requires Next(s, step, t) && LeavesEntry(step, slot) && slot in s.gateway.members
    ensures slot in t.gateway.members && t.gateway.members[slot] == s.gateway.members[slot]
  {
  }

  lemma {:induction false} EntryStays(ss: seq<State>, steps: seq<Step>, i: nat, j: nat, slot: Slot)
    requires Run(ss, steps) && i <= j < |ss| && slot in ss[i].gateway.members
    requires forall k :: i <= k < j ==> LeavesEntry(steps[k], slot)
    ensures slot in ss[j].gateway.members && ss[j].gateway.members[slot] == ss[i].gateway.members[slot]
    decreases j
  {
    if i < j {
      EntryStays(ss, steps, i, j - 1, slot);
      EntryKept(ss[j - 1], steps[j - 1], ss[j], slot);
    }
  }

  /** The pass at `i` reads its ServiceAccount and reports Synced. */
  ghost predicate ReportsSynced(ss: seq<State>, steps: seq<Step>, i: nat)
    requires |ss| == |steps| + 1
  {
    && i < |steps| && steps[i].Reconcile? && steps[i].env.accountReadable && steps[i].env.statusWritten
    && ss[i].member.Some? && !ss[i].member.value.deleting && ss[i].member.value.finalizer
    && ss[i + 1].member.Some? && ss[i + 1].member.value.status.phase.Synced?
  }

  /** The slot of the identity that the object names now. */
  function CurrentSlot(s: State, m: Member): Slot {
    Slot(m.spec.workspace, if m.spec.serviceAccount in s.accounts then s.accounts[m.spec.serviceAccount] else "")
  }

  /**
   From a pass that reports Synced until the next pass or somebody else's change, the identity is
   an Admin of the workspace if the spec says "admin", and a User if it says anything else.
   */
  lemma SyncedRoleStays(ss: seq<State>, steps: seq<Step>, i: nat, j: nat)
    requires Run(ss, steps) && i < j < |ss| && ReportsSynced(ss, steps, i)
    requires forall k :: i < k < j ==> LeavesEntry(steps[k], CurrentSlot(ss[i], ss[i].member.value))
    ensures var m := ss[i].member.value;
            && m.spec.serviceAccount in ss[i].accounts
            && CurrentSlot(ss[i], m) in ss[j].gateway.members
            && ss[j].gateway.members[CurrentSlot(ss[i], m)] == if m.spec.role == "admin" then Admin else User
  {
    var m := ss[i].member.value;
    assert Next(ss[i], steps[i], ss[i + 1]);
    SyncedMeansMember(ss[i], m, steps[i].env);
    EntryStays(ss, steps, i + 1, j, CurrentSlot(ss[i], m));
  }

  // ------------------------------------------------- what a pass comes to, on its inputs

  /** A vanished ServiceAccount loses its membership, and the status forgets it, once the removal is delivered. */
  lemma VanishedIdentityIsRemoved(s: State, m: Member, env: Env)
    requires s.member == Some(m) && !m.deleting && m.finalizer && m.spec.serviceAccount !in s.accounts
    requires env.gatewayFound && env.accountReadable && m.status.subject != ""
    ensures var t, slot := Pass(s, env).state, Slot(m.spec.workspace, m.status.subject);
            var removed := env.connected && (env.removeStale.Delivered? || env.removeStale.tookEffect);
            && t.member.Some?
            && t.gateway.members == (if removed then s.gateway.members - {slot} else s.gateway.members)
            && (env.statusWritten ==>
                  && t.member.value.status.phase.Failed?
                  && t.member.value.status.observedGeneration == m.generation
                  && (if env.connected && env.removeStale.Delivered? then
                        && t.member.value.status.subject == ""
                        && t.member.value.status.ready == Some(Condition(false, "IdentityNotFound"))
                      else
                        && t.member.value.status.subject == m.status.subject
                        && t.member.value.status.ready == Some(Condition(false, "GatewayUnreachable"))))
  {
  }

  /** A pass that stops before it reaches the gateway changes nothing there and says why. */
  lemma EarlyStopReports(s: State, m: Member, env: Env)
    requires s.member == Some(m) && !m.deleting && m.finalizer
    requires || !env.gatewayFound || !env.accountReadable
             || (m.spec.serviceAccount in s.accounts && (s.accounts[m.spec.serviceAccount] == "" || !env.connected))
             || (m.spec.serviceAccount !in s.accounts && m.status.subject == "")
    ensures var t := Pass(s, env).state;
            && t.gateway == s.gateway && t.accounts == s.accounts && t.member.Some?
            && if (env.gatewayFound && !env.accountReadable) || !env.statusWritten then t == s
               else
                 && t.member.value == m.(status := t.member.value.status)
                 && t.member.value.status.phase.Failed? && t.member.value.status.subject == m.status.subject
                 && t.member.value.status.observedGeneration == m.generation
                 && t.member.value.status.ready == Some(Condition(false,
                      if !env.gatewayFound then "GatewayNotFound"
                      else if m.spec.serviceAccount !in s.accounts then "IdentityNotFound"
                      else if s.accounts[m.spec.serviceAccount] == "" then "IdentityNotFound"
                      else "GatewayUnreachable"))
  {
  }

  /** The pass has an identity and a connection, and any replaced identity is out. */
  ghost predicate ReachesGrant(s: State, m: Member, env: Env) {
    && s.member == Some(m) && !m.deleting && m.finalizer && env.gatewayFound && env.accountReadable
    && m.spec.serviceAccount in s.accounts && s.accounts[m.spec.serviceAccount] != "" && env.connected
    && (m.status.subject != "" && m.status.subject != s.accounts[m.spec.serviceAccount] ==> env.removeStale.Delivered?)
  }

  /** A replaced identity that cannot be removed is still remembered, and the new one is not granted anything. */
  lemma FailedRemovalReports(s: State, m: Member, env: Env)
    requires s.member == Some(m) && !m.deleting && m.finalizer && env.gatewayFound && env.accountReadable
    requires m.spec.serviceAccount in s.accounts && s.accounts[m.spec.serviceAccount] != "" && env.connected
    requires m.status.subject != "" && m.status.subject != s.accounts[m.spec.serviceAccount]
    requires env.removeStale.Broken?
    ensures var t, stale := Pass(s, env).state, Slot(m.spec.workspace, m.status.subject);
            var status := Status(Failed, m.generation, Some(Condition(false, "GatewayUnreachable")), m.status.subject);
            && t.member == Some(if env.statusWritten then m.(status := status) else m)
            && t.gateway.members == if env.removeStale.tookEffect then s.gateway.members - {stale}
                                    else s.gateway.members
  {
  }

  /** A pass whose calls are all delivered, in a workspace within the listing cap, reports Synced for this identity. */
  lemma CleanPassSyncs(s: State, m: Member, env: Env)
    requires ReachesGrant(s, m, env) && env.statusWritten
    requires env.add.Delivered? && env.removeOld.Delivered? && env.readd.Delivered? && env.listed.Some?
    requires |Slots(s.gateway, m.spec.workspace)| <= MAX_WORKSPACE_MEMBERS
    requires HonestListing(s.gateway, m.spec.workspace, env.listed.value)
    ensures Pass(s, env).state.member
         == Some(m.(status := Status(Synced, m.generation, Some(Condition(true, "Synced")),
                                     s.accounts[m.spec.serviceAccount])))
  {
    var slot := CurrentSlot(s, m);
    assert slot in s.gateway.members ==> slot in Slots(s.gateway, m.spec.workspace);
  }

  /** The exchange took the old role away: the subject was listed with another role and its removal was delivered. */
  predicate OldRoleRemoved(s: State, m: Member, env: Env) {
    var slot := CurrentSlot(s, m);
    && slot in s.gateway.members && s.gateway.members[slot] != (if m.spec.role == "admin" then Admin else User)
    && env.add.Delivered? && env.listed.Some? && slot.subject in env.listed.value && env.removeOld.Delivered?
  }

  /**
   A pass that gets as far as the exchange and fails there reports GatewayUnreachable; it goes on
   remembering the identity exactly if it did so before and its old role was not taken away.
   */
  lemma FailedGrantReports(s: State, m: Member, env: Env)
    requires ReachesGrant(s, m, env) && env.statusWritten
    requires Pass(s, env).state.member.Some? && !Pass(s, env).state.member.value.status.phase.Synced?
    ensures var current := s.accounts[m.spec.serviceAccount];
            var remembers := m.status.subject == current && !OldRoleRemoved(s, m, env);
            var status := Status(Failed, m.generation, Some(Condition(false, "GatewayUnreachable")),
                                 if remembers then current else "");
            Pass(s, env).state.member == Some(m.(status := status))
  {
  }

  /** The first pass of an object adds the finalizer and does nothing else. */
  lemma FinalizerComesFirst(s: State, m: Member, env: Env)
    requires s.member == Some(m) && !m.deleting && !m.finalizer
    ensures Pass(s, env).state == s.(member := Some(m.(finalizer := env.objectWritten)))
  {
  }

  /** Exactly when a deletion pass lets its object go, and what it removes. */
  lemma DeletionEndsIff(s: State, m: Member, env: Env)
    requires s.member == Some(m) && m.deleting
    ensures var t, slot := Pass(s, env).state, Slot(m.spec.workspace, m.status.subject);
            var reached := m.finalizer && m.status.subject != "" && env.gatewayFound && env.connected;
            && (t.member.None? <==>
                && m.finalizer && env.objectWritten
                && (m.status.subject == "" || (reached && env.removeStale.Delivered?)))
            && (t.member.Some? ==> t.member == s.member)
            && t.gateway.members == (if reached && (env.removeStale.Delivered? || env.removeStale.tookEffect)
                                     then s.gateway.members - {slot} else s.gateway.members)
  {
  }

  // ------------------------------------------------- the assumptions are really needed

  /** What a run promises: definite calls, recorded grants, no move. */
  datatype Terms = Terms(definite: bool, recorded: bool, fixed: bool)

  ghost predicate Keeps(terms: Terms, s: State, step: Step) {
    && (terms.definite && step.Reconcile? ==> Definite(step.env))
    && (terms.recorded ==> Recorded(s, step)) && (terms.fixed ==> !Moves(s, step))
  }

  /** Some run on these terms ends in `s`. */
  ghost predicate Reachable(terms: Terms, s: State) {
    exists ss: seq<State>, steps: seq<Step> ::
      && Run(ss, steps) && ss[|steps|] == s
      && forall i {:trigger steps[i]} :: 0 <= i < |steps| ==> Keeps(terms, ss[i], steps[i])
  }

  lemma Extend(terms: Terms, s: State, step: Step, t: State)
    requires Reachable(terms, s) && Next(s, step, t) && Keeps(terms, s, step)
    ensures Reachable(terms, t)
  {
    var ss: seq<State>, steps: seq<Step> :|
      && Run(ss, steps) && ss[|steps|] == s
      && forall i {:trigger steps[i]} :: 0 <= i < |steps| ==> Keeps(terms, ss[i], steps[i]);
    var longer, more := ss + [t], steps + [step];
    forall i | 0 <= i < |more| ensures Next(longer[i], more[i], longer[i + 1]) {
      assert i < |steps| ==> longer[i + 1] == ss[i + 1] && more[i] == steps[i];
    }
    assert Run(longer, more) && longer[|more|] == t;
  }

  const FINE := Env(true, true, true, Delivered, Delivered, Some([]), Delivered, Delivered, true, true)

  /** A new object with its finalizer, and the gateway before and after it grants `uid` its role. */
  function NewMember(spec: Spec): Member {
    Member(spec, 1, false, true, NO_STATUS)
  }

  const EMPTY := Gateway(map[], {})

  function Granted(spec: Spec, uid: string): Gateway {
    Gateway(map[Slot(spec.workspace, uid) := RoleFromSpec(spec.role)], {Slot(spec.workspace, uid)})
  }

  lemma MemberIsReady(terms: Terms, spec: Spec, uid: string)
    ensures Reachable(terms, State(Some(NewMember(spec)), map[spec.serviceAccount := uid], EMPTY))
  {
    var s0 := State(None, map[], EMPTY);
    var none: seq<Step> := [];
    assert Run([s0], none) && [s0][|none|] == s0;
    var s1 := s0.(accounts := map[spec.serviceAccount := uid]);
    Extend(terms, s0, SetAccount(spec.serviceAccount, uid), s1);
    var s2 := s1.(member := Some(NewMember(spec).(finalizer := false)));
    Extend(terms, s1, Create(spec), s2);
    Extend(terms, s2, Reconcile(FINE), s1.(member := Some(NewMember(spec))));
  }

  /** The object is gone and a membership it granted is still there. */
  ghost predicate Leaks(terms: Terms, slot: Slot) {
    exists s :: Reachable(terms, s) && s.member.None? && s.gateway.granted == {slot}
  }

  /** Deleting an object whose status does not name the grant leaves the grant. */
  lemma DeletionLeaks(terms: Terms, m: Member, accounts: map<string, string>, spec: Spec, uid: string)
    requires m.finalizer && Slot(spec.workspace, uid) !in Recall(m)
    requires Reachable(terms, State(Some(m), accounts, Granted(spec, uid)))
    ensures Leaks(terms, Slot(spec.workspace, uid))
  {
    var s := State(Some(m), accounts, Granted(spec, uid));
    var s' := s.(member := Some(m.(deleting := true)));
    Extend(terms, s, Delete, s');
    var t := Pass(s', FINE).state;
    Extend(terms, s', Reconcile(FINE), t);
    assert t.member.None? && t.gateway.granted == {Slot(spec.workspace, uid)};
  }

  /** One lost status write and a deletion leave a membership that no object remembers. */
  lemma LostWriteLeaksGrant(spec: Spec, uid: string)
    requires uid != ""
    ensures Leaks(Terms(true, false, true), Slot(spec.workspace, uid))
  {
    var terms, accounts := Terms(true, false, true), map[spec.serviceAccount := uid];
    MemberIsReady(terms, spec, uid);
    var s := State(Some(NewMember(spec)), accounts, EMPTY);
    Extend(terms, s, Reconcile(FINE.(statusWritten := false)), s.(gateway := Granted(spec, uid)));
    DeletionLeaks(terms, NewMember(spec), accounts, spec, uid);
  }

  /** So do an add that reports an error but took effect, and a deletion. */
  lemma AmbiguousErrorLeaksGrant(spec: Spec, uid: string)
    requires uid != ""
    ensures Leaks(Terms(false, true, true), Slot(spec.workspace, uid))
  {
    var terms, accounts := Terms(false, true, true), map[spec.serviceAccount := uid];
    MemberIsReady(terms, spec, uid);
    var m := NotReady(NewMember(spec), "GatewayUnreachable");
    Extend(terms, State(Some(NewMember(spec)), accounts, EMPTY), Reconcile(FINE.(add := Broken(true))),
           State(Some(m), accounts, Granted(spec, uid)));
    DeletionLeaks(terms, m, accounts, spec, uid);
  }

  /** So do a move and a deletion, although every call succeeds and every write lands. */
  lemma MoveLeaksGrant(spec: Spec, moved: Spec, uid: string)
    requires uid != "" && moved.workspace != spec.workspace
    ensures Leaks(Terms(true, true, false), Slot(spec.workspace, uid))
  {
    var terms, accounts := Terms(true, true, false), map[spec.serviceAccount := uid];
    MemberIsReady(terms, spec, uid);
    var m := InSync(NewMember(spec), uid);
    var s := State(Some(m), accounts, Granted(spec, uid));
    Extend(terms, State(Some(NewMember(spec)), accounts, EMPTY), Reconcile(FINE), s);
    Extend(terms, s, Edit(moved), s.(member := Some(Edited(m, moved))));
    DeletionLeaks(terms, Edited(m, moved), accounts, spec, uid);
  }
}
