/**
 The provider protocol (internal/controller/openshellprovider_controller.go) against a gateway
 that only merges (internal/controller/fake_gateway_test.go, proto/openshell.proto): a key with
 a value is set, a key with the empty value is deleted, a key left out stays. The controller
 gets exact replacement out of it by retracting the keys it recorded and no longer wants.
 */
module ProviderProtocol {
  import opened Options

  type Table = map<string, string>

  datatype Name = Name(namespace: string, name: string)
  datatype SecretRef = SecretRef(name: string, key: string)
  datatype Spec = Spec(providerType: string, credentials: map<string, SecretRef>, config: Table)
  datatype Phase = Pending | Synced | Failed
  datatype Condition = Condition(isTrue: bool, reason: string)
  datatype Status = Status(phase: Phase, observedGeneration: nat, synced: Option<Condition>,
                           credentialKeys: set<string>, configKeys: set<string>)
  datatype Provider = Provider(spec: Spec, generation: nat, deleting: bool, finalizer: bool, status: Status)

  /** What the gateway stores for one provider. */
  datatype Remote = Remote(providerType: string, credentials: Table, config: Table)

  datatype State = State(providers: map<Name, Provider>, secrets: map<Name, Table>, gateway: map<string, Remote>)

  const NO_STATUS := Status(Pending, 0, None, {}, {})

  // --------------------------------------------------------------- the merging gateway

  function Merge(existing: Table, incoming: Table): Table {
    map k | k in existing.Keys + incoming.Keys && !(k in incoming && incoming[k] == "")
          :: if k in incoming then incoming[k] else existing[k]
  }

  /** The entries that count: an empty value means "no such key". */
  function NonEmpty(m: Table): Table {
    map k | k in m && m[k] != "" :: m[k]
  }

  /** The desired entries, plus an empty value for every recorded key that is no longer desired. */
  function Payload(desired: Table, recorded: set<string>): Table {
    map k | k in desired.Keys + recorded :: if k in desired then desired[k] else ""
  }

  /**
   A merge of the payload replaces the gateway's table exactly if and only if every stale entry
   on the gateway is one the controller had recorded.
   */
  lemma MergeReplacesIff(existing: Table, desired: Table, recorded: set<string>)
    ensures NonEmpty(Merge(existing, Payload(desired, recorded))) == NonEmpty(desired)
            <==> forall k :: k in NonEmpty(existing) && k !in desired ==> k in recorded
  {
    var merged := NonEmpty(Merge(existing, Payload(desired, recorded)));
    var wanted := NonEmpty(desired);
    if k :| k in NonEmpty(existing) && k !in desired && k !in recorded {
      assert k in merged && k !in wanted;
    } else {
      forall k ensures k in merged <==> k in wanted
        ensures k in merged ==> merged[k] == wanted[k]
      {
        assert k in Payload(desired, recorded) <==> k in desired || k in recorded;
        assert k in existing && existing[k] != "" ==> k in NonEmpty(existing);
        assert k in existing && existing[k] == "" ==> k !in desired ==> k !in merged;
      }
    }
  }

  // ---------------------------------------------------------------- the gateway's names

  function GatewayName(n: Name): string {
    n.namespace + "." + n.name
  }

  ghost predicate DotFree(s: string) {
    '.' !in s
  }

  /** Distinct objects have distinct gateway names, because a namespace contains no dot. */
  lemma GatewayNameInjective(a: Name, b: Name)
    requires DotFree(a.namespace) && DotFree(b.namespace)
    requires GatewayName(a) == GatewayName(b)
    ensures a == b
  {
    var ga, gb := GatewayName(a), GatewayName(b);
    var m, n := |a.namespace|, |b.namespace|;
    assert ga[m] == '.' && gb[n] == '.';
    assert m == n;
    assert ga[..m] == a.namespace && gb[..m] == b.namespace;
    assert ga[m + 1..] == a.name && gb[m + 1..] == b.name;
  }

  /** Without that rule two objects would share one gateway provider. */
  lemma DottedNamespaceCollides(x: string, y: string, z: string)
    ensures GatewayName(Name(x + "." + y, z)) == GatewayName(Name(x, y + "." + z))
  {
    assert (x + "." + y) + "." + z == x + "." + (y + "." + z);
  }

  // ---------------------------------------------------------------- one controller pass

  /** `Delivered`: the gateway answers by its own rules. `Refused`: InvalidArgument. */
  datatype Rpc = Delivered | Refused | Broken(tookEffect: bool)
  datatype DeleteRpc = Deleted | Blocked | DeleteBroken(tookEffect: bool)

  /** The order in which credential references are read, the reads that fail, and the fate of each call. */
  datatype Env = Env(order: seq<string>, unreadable: set<string>, gatewayFound: bool, connected: bool,
                     create: Rpc, update: Rpc, delete: DeleteRpc, statusWritten: bool, objectWritten: bool)

  ghost predicate Enumerates(order: seq<string>, keys: set<string>) {
    && (forall i :: 0 <= i < |order| ==> order[i] in keys)
    && (forall k :: k in keys ==> k in order)
  }

  datatype Lookup = Value(value: string) | SecretNotFound | KeyNotFound | ReadError

  function LookUp(secrets: map<Name, Table>, namespace: string, ref: SecretRef, readable: bool): Lookup {
    if !readable then ReadError
    else if Name(namespace, ref.name) !in secrets then SecretNotFound
    else if ref.key !in secrets[Name(namespace, ref.name)] then KeyNotFound
    else Value(secrets[Name(namespace, ref.name)][ref.key])
  }

  function LookUpIn(s: State, n: Name, env: Env, envVar: string): Lookup
    requires n in s.providers && envVar in s.providers[n].spec.credentials
  {
    LookUp(s.secrets, n.namespace, s.providers[n].spec.credentials[envVar], envVar !in env.unreadable)
  }

  /** The first reference, from position `i` on, that does not resolve; some `Value` if all do. */
  function FirstFailure(s: State, n: Name, env: Env, i: nat): Lookup
    requires n in s.providers
    requires forall j :: 0 <= j < |env.order| ==> env.order[j] in s.providers[n].spec.credentials
    decreases |env.order| - i
  {
    if i >= |env.order| then Value("")
    else
      var found := LookUpIn(s, n, env, env.order[i]);
      if found.Value? then FirstFailure(s, n, env, i + 1) else found
  }

  /** The credentials the spec and the Secrets ask for right now. */
  function DesiredCredentials(s: State, n: Name): Table
    requires n in s.providers
  {
    var spec := s.providers[n].spec;
    map e | e in spec.credentials && LookUp(s.secrets, n.namespace, spec.credentials[e], true).Value?
          :: LookUp(s.secrets, n.namespace, spec.credentials[e], true).value
  }

  function DesiredConfig(s: State, n: Name): Table
    requires n in s.providers
  {
    s.providers[n].spec.config
  }

  function Store(s: State, n: Name, p: Provider, written: bool): State {
    if written then s.(providers := s.providers[n := p]) else s
  }

  function NotReady(p: Provider, reason: string): Provider {
    p.(status := p.status.(phase := Failed, observedGeneration := p.generation,
                           synced := Some(Condition(false, reason))))
  }

  function InSync(p: Provider, credentials: set<string>, config: set<string>): Provider {
    p.(status := Status(Synced, p.generation, Some(Condition(true, "Ready")), credentials, config))
  }

  /** Outcome of the create-then-update exchange and the gateway's table after it. */
  datatype Push = Push(gateway: map<string, Remote>, error: Option<string>)

  /** The gateway's UpdateProvider: merges into what is stored, and refuses another type. */
  function UpdateRemote(gateway: map<string, Remote>, name: string, wanted: Remote, rpc: Rpc): Push {
    if rpc.Refused? then Push(gateway, Some("InvalidProviderSpec"))
    else if name !in gateway then Push(gateway, Some("GatewayUnreachable"))
    else
      var stored := gateway[name];
      var accepted := wanted.providerType == "" || wanted.providerType == stored.providerType;
      var merged := gateway[name := Remote(stored.providerType, Merge(stored.credentials, wanted.credentials),
                                           Merge(stored.config, wanted.config))];
      match rpc
      case Broken(hit) => Push(if hit && accepted then merged else gateway, Some("GatewayUnreachable"))
      case _ => if accepted then Push(merged, None) else Push(gateway, Some("InvalidProviderSpec"))
  }

  /** Create, and update if that reports the provider as present. */
  function PushRemote(gateway: map<string, Remote>, name: string, wanted: Remote, env: Env): Push {
    match env.create
    case Refused => Push(gateway, Some("InvalidProviderSpec"))
    case Broken(hit) =>
      Push(if hit && name !in gateway then gateway[name := wanted] else gateway, Some("GatewayUnreachable"))
    case Delivered =>
      if name !in gateway then Push(gateway[name := wanted], None) else UpdateRemote(gateway, name, wanted, env.update)
  }

  /** The message the pass sends. */
  function Wanted(s: State, n: Name): Remote
    requires n in s.providers
  {
    var p := s.providers[n];
    Remote(p.spec.providerType, Payload(DesiredCredentials(s, n), p.status.credentialKeys),
           Payload(DesiredConfig(s, n), p.status.configKeys))
  }

  ghost function SyncPass(s: State, n: Name, env: Env): State
    requires n in s.providers && Enumerates(env.order, s.providers[n].spec.credentials.Keys)
  {
    var p := s.providers[n];
    if !env.gatewayFound then Store(s, n, NotReady(p, "GatewayNotFound"), env.statusWritten)
    else if FirstFailure(s, n, env, 0).SecretNotFound? then
      Store(s, n, NotReady(p, "SecretNotFound"), env.statusWritten)
    else if FirstFailure(s, n, env, 0).KeyNotFound? then Store(s, n, NotReady(p, "KeyNotFound"), env.statusWritten)
    else if FirstFailure(s, n, env, 0).ReadError? then s
    else if !env.connected then Store(s, n, NotReady(p, "GatewayUnreachable"), env.statusWritten)
    else
      var push := PushRemote(s.gateway, GatewayName(n), Wanted(s, n), env);
      var p' := match push.error
        case Some(reason) => NotReady(p, reason)
        case None => InSync(p, DesiredCredentials(s, n).Keys, DesiredConfig(s, n).Keys);
      Store(s.(gateway := push.gateway), n, p', env.statusWritten)
  }

  function Remove(s: State, n: Name, written: bool): State {
    if written then s.(providers := s.providers - {n}) else s
  }

  function DeletePass(s: State, n: Name, env: Env): State
    requires n in s.providers
  {
    var p := s.providers[n];
    var gone := s.(gateway := s.gateway - {GatewayName(n)});
    if !p.finalizer || !env.gatewayFound || !env.connected then s
    else match env.delete
      case Deleted => Remove(gone, n, env.objectWritten)
      case Blocked =>
        Store(s, n, p.(status := p.status.(phase := Failed, synced := Some(Condition(false, "DeletionBlocked")))),
              env.statusWritten)
      case DeleteBroken(hit) => if hit then gone else s
  }

  ghost function Pass(s: State, n: Name, env: Env): State
    requires n in s.providers ==> Enumerates(env.order, s.providers[n].spec.credentials.Keys)
  {
    if n !in s.providers then s
    else
      var p := s.providers[n];
      if p.deleting then DeletePass(s, n, env)
      else if !p.finalizer then Store(s, n, p.(finalizer := true), env.objectWritten)
      else SyncPass(s, n, env)
  }

  // ------------------------------------------------------------------------------- runs

  datatype Step =
    | Create(n: Name, spec: Spec)
    | Edit(n: Name, spec: Spec)
    | Delete(n: Name)
    | SetSecret(secret: Name, data: Table)
    | DropSecret(secret: Name)
    | Reconcile(n: Name, env: Env)

  ghost predicate Next(s: State, step: Step, t: State) {
    match step
    case Create(n, spec) =>
      n !in s.providers && DotFree(n.namespace) &&
      t == s.(providers := s.providers[n := Provider(spec, 1, false, false, NO_STATUS)])
    case Edit(n, spec) =>
      n in s.providers &&
      t == s.(providers := s.providers[n := s.providers[n].(spec := spec, generation := s.providers[n].generation + 1)])
    case Delete(n) =>
      n in s.providers &&
      t == if s.providers[n].finalizer then s.(providers := s.providers[n := s.providers[n].(deleting := true)])
           else Remove(s, n, true)
    case SetSecret(secret, data) => t == s.(secrets := s.secrets[secret := data])
    case DropSecret(secret) => t == s.(secrets := s.secrets - {secret})
    case Reconcile(n, env) =>
      (n in s.providers ==> Enumerates(env.order, s.providers[n].spec.credentials.Keys)) && t == Pass(s, n, env)
  }

  /** Every finite behaviour of any number of objects against a gateway that starts empty. */
  ghost predicate Run(ss: seq<State>, steps: seq<Step>) {
    && |ss| == |steps| + 1
    && ss[0].providers == map[] && ss[0].gateway == map[]
    && forall i :: 0 <= i < |steps| ==> Next(ss[i], steps[i], ss[i + 1])
  }

  /** A pass that ends with the gateway having accepted the object's desired state. */
  ghost predicate SyncSucceeds(s: State, step: Step) {
    && step.Reconcile? && step.n in s.providers
    && Enumerates(step.env.order, s.providers[step.n].spec.credentials.Keys)
    && !s.providers[step.n].deleting && s.providers[step.n].finalizer
    && step.env.gatewayFound && step.env.connected && FirstFailure(s, step.n, step.env, 0).Value?
    && PushRemote(s.gateway, GatewayName(step.n), Wanted(s, step.n), step.env).error.None?
  }

  /** "definite": a create or update that reports an error had no effect; a delete may have. */
  ghost predicate DefiniteEnv(env: Env) {
    && !(env.create.Broken? && env.create.tookEffect)
    && !(env.update.Broken? && env.update.tookEffect)
  }

  ghost predicate Definite(step: Step) {
    step.Reconcile? ==> DefiniteEnv(step.env)
  }

  /** "recorded": the status write after a successful push lands. */
  ghost predicate Recorded(s: State, step: Step) {
    SyncSucceeds(s, step) ==> step.env.statusWritten
  }

  ghost predicate CarefulRun(ss: seq<State>, steps: seq<Step>) {
    && Run(ss, steps)
    && forall i {:trigger steps[i]} :: 0 <= i < |steps| ==> Definite(steps[i]) && Recorded(ss[i], steps[i])
  }

  // ------------------------------------------------------------------ provider isolation

  /** The two maps agree on `g`. */
  ghost predicate SameAt(a: map<string, Remote>, b: map<string, Remote>, g: string) {
    (g in a <==> g in b) && (g in a ==> a[g] == b[g])
  }

  lemma PushTouchesOneName(gateway: map<string, Remote>, name: string, wanted: Remote, env: Env, g: string)
    requires g != name
    ensures SameAt(gateway, PushRemote(gateway, name, wanted, env).gateway, g)
  {
  }

  lemma PassTouchesOneName(s: State, n: Name, env: Env, g: string)
    requires n in s.providers ==> Enumerates(env.order, s.providers[n].spec.credentials.Keys)
    requires g != GatewayName(n)
    ensures SameAt(s.gateway, Pass(s, n, env).gateway, g)
  {
    if n in s.providers {
      PushTouchesOneName(s.gateway, GatewayName(n), Wanted(s, n), env, g);
    }
  }

  /** Whatever the fate of its calls, a step for one object leaves every other object's gateway provider alone. */
  lemma StepTouchesOwnProviderOnly(s: State, step: Step, t: State, other: Name)
    requires Next(s, step, t) && DotFree(other.namespace)
    requires step.Reconcile? ==> step.n != other && DotFree(step.n.namespace)
    ensures SameAt(s.gateway, t.gateway, GatewayName(other))
  {
    if step.Reconcile? {
      if GatewayName(step.n) == GatewayName(other) {
        GatewayNameInjective(step.n, other);
      }
      PassTouchesOneName(s, step.n, step.env, GatewayName(other));
    }
  }

  lemma {:induction false} SameAlong(ss: seq<State>, i: nat, j: nat, g: string)
    requires i <= j < |ss| && forall k :: i < k <= j ==> SameAt(ss[k - 1].gateway, ss[k].gateway, g)
    ensures SameAt(ss[i].gateway, ss[j].gateway, g)
    decreases j
  {
    if i < j {
      SameAlong(ss, i, j - 1, g);
      assert SameAt(ss[j - 1].gateway, ss[j].gateway, g);
    }
  }

  /** Over any stretch of a run that has no pass for `n`, its gateway provider does not change. */
  lemma ProviderIsolation(ss: seq<State>, steps: seq<Step>, i: nat, j: nat, n: Name)
    requires Run(ss, steps) && i <= j < |ss| && DotFree(n.namespace)
    requires forall k :: i <= k < j && steps[k].Reconcile? ==> steps[k].n != n
    ensures SameAt(ss[i].gateway, ss[j].gateway, GatewayName(n))
  {
    forall k | i < k <= j ensures SameAt(ss[k - 1].gateway, ss[k].gateway, GatewayName(n)) {
      RunKeepsOwnership(ss, steps, k - 1);
      OtherStepKeeps(ss[k - 1], steps[k - 1], ss[k], n);
    }
    SameAlong(ss, i, j, GatewayName(n));
  }

  lemma OtherStepKeeps(s: State, step: Step, t: State, n: Name)
    requires Ownership(s) && Next(s, step, t) && DotFree(n.namespace) && (step.Reconcile? ==> step.n != n)
    ensures SameAt(s.gateway, t.gateway, GatewayName(n))
  {
    if step.Reconcile? && step.n !in s.providers {
      assert t == s;
    } else {
      StepTouchesOwnProviderOnly(s, step, t, n);
    }
  }

  // ------------------------------------------------- every gateway provider has an owner

  /** An object that carries the finalizer answers for the gateway provider `g`. */
  ghost predicate Owned(s: State, g: string) {
    exists n :: n in s.providers && GatewayName(n) == g && s.providers[n].finalizer
  }

  ghost predicate Ownership(s: State) {
    && (forall n :: n in s.providers ==> DotFree(n.namespace))
    && (forall g :: g in s.gateway ==> Owned(s, g))
  }

  /** The owner of `g` is the one object of that name. */
  lemma OwnerIs(s: State, n: Name)
    requires Ownership(s) && DotFree(n.namespace) && GatewayName(n) in s.gateway
    ensures n in s.providers && s.providers[n].finalizer
  {
    var m :| m in s.providers && GatewayName(m) == GatewayName(n) && s.providers[m].finalizer;
    GatewayNameInjective(m, n);
  }

  lemma PassKeepsOtherObjects(s: State, n: Name, env: Env, m: Name)
    requires n in s.providers && Enumerates(env.order, s.providers[n].spec.credentials.Keys)
    requires m in s.providers && m != n
    ensures m in Pass(s, n, env).providers && Pass(s, n, env).providers[m] == s.providers[m]
  {
  }

  /** Only an object with the finalizer pushes, and it leaves only once its provider is deleted. */
  lemma PassKeepsOwner(s: State, n: Name, env: Env)
    requires n in s.providers && Enumerates(env.order, s.providers[n].spec.credentials.Keys)
    requires GatewayName(n) in s.gateway ==> s.providers[n].finalizer
    ensures GatewayName(n) in Pass(s, n, env).gateway ==>
              n in Pass(s, n, env).providers && Pass(s, n, env).providers[n].finalizer
  {
  }

  lemma PassKeepsOwnership(s: State, n: Name, env: Env)
    requires n in s.providers && Enumerates(env.order, s.providers[n].spec.credentials.Keys)
    requires forall g :: g in s.gateway ==> Owned(s, g)
    requires GatewayName(n) in s.gateway ==> s.providers[n].finalizer
    ensures forall g :: g in Pass(s, n, env).gateway ==> Owned(Pass(s, n, env), g)
  {
    var t := Pass(s, n, env);
    PassKeepsOwner(s, n, env);
    forall g | g in t.gateway && g != GatewayName(n) ensures Owned(t, g) {
      PassTouchesOneName(s, n, env, g);
      var m :| m in s.providers && GatewayName(m) == g && s.providers[m].finalizer;
      PassKeepsOtherObjects(s, n, env, m);
    }
  }

  lemma PassAddsNoObject(s: State, n: Name, env: Env)
    requires n in s.providers && Enumerates(env.order, s.providers[n].spec.credentials.Keys)
    ensures Pass(s, n, env).providers.Keys <= s.providers.Keys
  {
  }

  lemma StepKeepsOwnership(s: State, step: Step, t: State)
    requires Ownership(s) && Next(s, step, t)
    ensures Ownership(t)
  {
    if step.Reconcile? {
      if step.n in s.providers {
        if GatewayName(step.n) in s.gateway {
          OwnerIs(s, step.n);
        }
        PassKeepsOwnership(s, step.n, step.env);
        PassAddsNoObject(s, step.n, step.env);
      }
    } else {
      forall g | g in t.gateway ensures Owned(t, g) {
        var m :| m in s.providers && GatewayName(m) == g && s.providers[m].finalizer;
        assert m in t.providers && t.providers[m].finalizer;
      }
    }
  }

  lemma {:induction false} RunKeepsOwnership(ss: seq<State>, steps: seq<Step>, i: nat)
    requires Run(ss, steps) && i < |ss|
    ensures Ownership(ss[i])
  {
    if i > 0 {
      RunKeepsOwnership(ss, steps, i - 1);
      StepKeepsOwnership(ss[i - 1], steps[i - 1], ss[i]);
    }
  }

  /**
   In every run, with lost writes and ambiguous errors, an object that is not there has nothing
   on the gateway: once its finalizer is removed its provider is gone.
   */
  lemma DeletedProviderIsGone(ss: seq<State>, steps: seq<Step>, i: nat, n: Name)
    requires Run(ss, steps) && i < |ss| && DotFree(n.namespace) && n !in ss[i].providers
    ensures GatewayName(n) !in ss[i].gateway
  {
    RunKeepsOwnership(ss, steps, i);
    if GatewayName(n) in ss[i].gateway {
      OwnerIs(ss[i], n);
    }
  }

  // ------------------------------------------------- the gateway holds what is recorded

  /** Every key the gateway has for this object is recorded in the object's status. */
  ghost predicate Covered(s: State, n: Name)
    requires n in s.providers
  {
    GatewayName(n) in s.gateway ==>
      && NonEmpty(s.gateway[GatewayName(n)].credentials).Keys <= s.providers[n].status.credentialKeys
      && NonEmpty(s.gateway[GatewayName(n)].config).Keys <= s.providers[n].status.configKeys
  }

  ghost predicate Inv(s: State) {
    Ownership(s) && forall n :: n in s.providers ==> Covered(s, n)
  }

  lemma CreatedTableIsDesired(desired: Table, recorded: set<string>)
    ensures NonEmpty(Payload(desired, recorded)) == NonEmpty(desired)
  {
  }

  /** The gateway holds exactly what the object asked for, up to empty values. */
  ghost predicate Exact(remote: Remote, credentials: Table, config: Table) {
    NonEmpty(remote.credentials) == NonEmpty(credentials) && NonEmpty(remote.config) == NonEmpty(config)
  }

  lemma PushIsExact(s: State, step: Step, t: State)
    requires Inv(s) && Next(s, step, t) && SyncSucceeds(s, step)
    ensures GatewayName(step.n) in t.gateway
    ensures Exact(t.gateway[GatewayName(step.n)], DesiredCredentials(s, step.n), DesiredConfig(s, step.n))
    ensures t.gateway == s.gateway[GatewayName(step.n) := t.gateway[GatewayName(step.n)]]
  {
    var p := s.providers[step.n];
    CreatedTableIsDesired(DesiredCredentials(s, step.n), p.status.credentialKeys);
    CreatedTableIsDesired(DesiredConfig(s, step.n), p.status.configKeys);
    if GatewayName(step.n) in s.gateway {
      var stored := s.gateway[GatewayName(step.n)];
      MergeReplacesIff(stored.credentials, DesiredCredentials(s, step.n), p.status.credentialKeys);
      MergeReplacesIff(stored.config, DesiredConfig(s, step.n), p.status.configKeys);
    }
  }

  lemma SyncKeepsCovered(s: State, step: Step, t: State, n: Name)
    requires Inv(s) && Next(s, step, t) && SyncSucceeds(s, step) && step.env.statusWritten && n in t.providers
    ensures Covered(t, n)
  {
    PushIsExact(s, step, t);
    assert n in s.providers && Covered(s, n);
    if n != step.n && GatewayName(n) == GatewayName(step.n) {
      GatewayNameInjective(n, step.n);
    }
  }

  lemma DeletionKeepsCovered(s: State, deleted: Name, env: Env, n: Name)
    requires n in s.providers && Covered(s, n) && deleted in s.providers
    requires n in DeletePass(s, deleted, env).providers
    ensures Covered(DeletePass(s, deleted, env), n)
  {
  }

  lemma FailedPushIsVoid(gateway: map<string, Remote>, name: string, wanted: Remote, env: Env)
    requires DefiniteEnv(env) && PushRemote(gateway, name, wanted, env).error.Some?
    ensures PushRemote(gateway, name, wanted, env).gateway == gateway
  {
  }

  /** A pass that neither pushes nor deletes changes at most the object's condition or finalizer. */
  lemma IdlePass(s: State, step: Step, t: State)
    requires Next(s, step, t) && Definite(step) && !SyncSucceeds(s, step)
    requires step.Reconcile? && step.n in s.providers && !s.providers[step.n].deleting
    ensures t.gateway == s.gateway && t.providers.Keys == s.providers.Keys
    ensures forall n :: n in s.providers ==> KeepsRecord(s.providers[n], t.providers[n])
  {
    var n, env := step.n, step.env;
    var p := s.providers[n];
    if !p.finalizer {
      IdleStore(s, t, n, p.(finalizer := true), env.objectWritten);
    } else if PushRemote(s.gateway, GatewayName(n), Wanted(s, n), env).error.Some? {
      FailedPushIsVoid(s.gateway, GatewayName(n), Wanted(s, n), env);
      assert t == s || exists reason :: t == Store(s, n, NotReady(p, reason), env.statusWritten);
    }
  }

  ghost predicate KeepsRecord(p: Provider, q: Provider) {
    && q.status.credentialKeys == p.status.credentialKeys
    && q.status.configKeys == p.status.configKeys
  }

  lemma IdleStore(s: State, t: State, n: Name, p: Provider, written: bool)
    requires n in s.providers && KeepsRecord(s.providers[n], p) && t == Store(s, n, p, written)
    ensures t.gateway == s.gateway && t.providers.Keys == s.providers.Keys
    ensures forall m :: m in s.providers ==> KeepsRecord(s.providers[m], t.providers[m])
  {
  }

  /** A new object finds nothing on the gateway, and no user step touches a record. */
  lemma UserKeepsCovered(s: State, step: Step, t: State, n: Name)
    requires Inv(s) && Next(s, step, t) && !step.Reconcile? && n in t.providers
    ensures Covered(t, n)
  {
    if n in s.providers {
      assert Covered(s, n);
    } else if GatewayName(n) in s.gateway {
      OwnerIs(s, n);
    }
  }

  lemma StepKeepsInv(s: State, step: Step, t: State)
    requires Inv(s) && Next(s, step, t) && Definite(step) && Recorded(s, step)
    ensures Inv(t)
  {
    StepKeepsOwnership(s, step, t);
    forall n | n in t.providers ensures Covered(t, n) {
      if SyncSucceeds(s, step) {
        SyncKeepsCovered(s, step, t, n);
      } else if !step.Reconcile? {
        UserKeepsCovered(s, step, t, n);
      } else if step.n in s.providers {
        if s.providers[step.n].deleting {
          assert Covered(s, n);
          DeletionKeepsCovered(s, step.n, step.env, n);
        } else {
          IdlePass(s, step, t);
          assert Covered(s, n);
        }
      }
    }
  }

  lemma {:induction false} RunKeepsInv(ss: seq<State>, steps: seq<Step>, i: nat)
    requires CarefulRun(ss, steps) && i < |ss|
    ensures Inv(ss[i])
  {
    if i > 0 {
      RunKeepsInv(ss, steps, i - 1);
      StepKeepsInv(ss[i - 1], steps[i - 1], ss[i]);
    }
  }

  lemma {:induction false} AllResolved(s: State, n: Name, env: Env, i: nat)
    requires n in s.providers && Enumerates(env.order, s.providers[n].spec.credentials.Keys)
    requires FirstFailure(s, n, env, i).Value? && i <= |env.order|
    ensures forall j :: i <= j < |env.order| ==> env.order[j] in DesiredCredentials(s, n)
    decreases |env.order| - i
  {
    if i < |env.order| {
      AllResolved(s, n, env, i + 1);
    }
  }

  /**
   After every successful sync of every run of spec edits, Secret edits, deletions and failed
   passes, and until the object's own next pass, the gateway's credentials and config are
   exactly the desired ones: a key dropped any number of passes ago is gone.
   */
  lemma SyncReplacesExactly(ss: seq<State>, steps: seq<Step>, i: nat, j: nat)
    requires CarefulRun(ss, steps) && i < j < |ss| && SyncSucceeds(ss[i], steps[i])
    requires forall k :: i < k < j && steps[k].Reconcile? ==> steps[k].n != steps[i].n
    ensures GatewayName(steps[i].n) in ss[j].gateway
    ensures Exact(ss[j].gateway[GatewayName(steps[i].n)], DesiredCredentials(ss[i], steps[i].n),
                  DesiredConfig(ss[i], steps[i].n))
    ensures DesiredCredentials(ss[i], steps[i].n).Keys == ss[i].providers[steps[i].n].spec.credentials.Keys
  {
    var n := steps[i].n;
    RunKeepsInv(ss, steps, i);
    PushIsExact(ss[i], steps[i], ss[i + 1]);
    ProviderIsolation(ss, steps, i + 1, j, n);
    AllResolved(ss[i], n, steps[i].env, 0);
  }

  // ------------------------------------------------- what a pass comes to, on its inputs

  /** The credential `e` of the spec can be read: its Secret exists and has the key. */
  ghost predicate Resolves(s: State, n: Name, e: string)
    requires n in s.providers && e in s.providers[n].spec.credentials
  {
    var ref := s.providers[n].spec.credentials[e];
    Name(n.namespace, ref.name) in s.secrets && ref.key in s.secrets[Name(n.namespace, ref.name)]
  }

  /** The value that the Secret holds for the credential `e`. */
  function SecretValue(s: State, n: Name, e: string): string
    requires n in s.providers && e in s.providers[n].spec.credentials && Resolves(s, n, e)
  {
    var ref := s.providers[n].spec.credentials[e];
    s.secrets[Name(n.namespace, ref.name)][ref.key]
  }

  /** Reading the credential at position `j` ends in `f`. */
  ghost predicate ReadsAs(s: State, n: Name, env: Env, j: nat, f: Lookup)
    requires n in s.providers && Enumerates(env.order, s.providers[n].spec.credentials.Keys) && j < |env.order|
  {
    var e := env.order[j];
    var secret := Name(n.namespace, s.providers[n].spec.credentials[e].name);
    && (f.ReadError? <==> e in env.unreadable)
    && (f.SecretNotFound? <==> e !in env.unreadable && secret !in s.secrets)
    && (f.KeyNotFound? <==> e !in env.unreadable && secret in s.secrets && !Resolves(s, n, e))
  }

  /** The references are read in order: all resolve, or the first that does not decides. */
  lemma {:induction false} FailureIsFirst(s: State, n: Name, env: Env, i: nat)
    requires n in s.providers && Enumerates(env.order, s.providers[n].spec.credentials.Keys) && i <= |env.order|
    ensures var f := FirstFailure(s, n, env, i);
            if f.Value? then
              forall j :: i <= j < |env.order| ==> env.order[j] !in env.unreadable && Resolves(s, n, env.order[j])
            else
              exists j :: && i <= j < |env.order| && ReadsAs(s, n, env, j, f)
                          && forall k :: i <= k < j ==> env.order[k] !in env.unreadable && Resolves(s, n, env.order[k])
    decreases |env.order| - i
  {
    if i < |env.order| {
      FailureIsFirst(s, n, env, i + 1);
      var f := LookUpIn(s, n, env, env.order[i]);
      if !f.Value? {
        assert ReadsAs(s, n, env, i, f);
      }
    }
  }

  lemma DesiredIsSecretValue(s: State, n: Name, e: string)
    requires n in s.providers
    ensures e in DesiredCredentials(s, n) <==> e in s.providers[n].spec.credentials && Resolves(s, n, e)
    ensures e in DesiredCredentials(s, n) ==> DesiredCredentials(s, n)[e] == SecretValue(s, n, e)
  {
  }

  /** The table holds exactly the non-empty values of `wanted`. */
  ghost predicate Holds(table: Table, wanted: Table) {
    && (forall k :: k in wanted && wanted[k] != "" ==> k in table && table[k] == wanted[k])
    && (forall k :: k in table && table[k] != "" ==> k in wanted && table[k] == wanted[k])
  }

  lemma SameNonEmptyHolds(table: Table, wanted: Table)
    requires NonEmpty(table) == NonEmpty(wanted)
    ensures Holds(table, wanted)
  {
    forall k | k in wanted && wanted[k] != "" ensures k in table && table[k] == wanted[k] {
      assert k in NonEmpty(wanted) && NonEmpty(wanted)[k] == wanted[k];
    }
    forall k | k in table && table[k] != "" ensures k in wanted && table[k] == wanted[k] {
      assert k in NonEmpty(table) && NonEmpty(table)[k] == table[k];
    }
  }

  /** The type is the one asked for, and an empty value is stored only by a create. */
  lemma PushDetails(gateway: map<string, Remote>, name: string, wanted: Remote, env: Env)
    requires PushRemote(gateway, name, wanted, env).error.None?
    ensures var after := PushRemote(gateway, name, wanted, env).gateway;
            && name in after
            && (wanted.providerType == "" || after[name].providerType == wanted.providerType)
            && forall e :: e in wanted.credentials && wanted.credentials[e] == "" ==>
                             (e in after[name].credentials <==> name !in gateway)
  {
  }

  /** The gateway holds for `e` the value of its Secret; an empty one is there only from a create. */
  ghost predicate HoldsSecret(s: State, n: Name, table: Table, e: string)
    requires n in s.providers && e in s.providers[n].spec.credentials
  {
    && Resolves(s, n, e)
    && var v := SecretValue(s, n, e);
    && (v != "" ==> e in table && table[e] == v)
    && (v == "" ==> (e in table <==> GatewayName(n) !in s.gateway))
  }

  lemma EmptyCredential(s: State, step: Step, t: State, e: string)
    requires Next(s, step, t) && SyncSucceeds(s, step) && e in DesiredCredentials(s, step.n)
    requires DesiredCredentials(s, step.n)[e] == ""
    ensures var g := GatewayName(step.n);
            g in t.gateway && (e in t.gateway[g].credentials <==> g !in s.gateway)
  {
    PushDetails(s.gateway, GatewayName(step.n), Wanted(s, step.n), step.env);
    assert e in Wanted(s, step.n).credentials && Wanted(s, step.n).credentials[e] == "";
  }

  /** One credential, right after the sync. */
  lemma CredentialHolds(s: State, step: Step, t: State, e: string)
    requires Inv(s) && Next(s, step, t) && SyncSucceeds(s, step) && e in s.providers[step.n].spec.credentials
    ensures GatewayName(step.n) in t.gateway
    ensures HoldsSecret(s, step.n, t.gateway[GatewayName(step.n)].credentials, e)
  {
    FailureIsFirst(s, step.n, step.env, 0);
    assert e in step.env.order;
    DesiredIsSecretValue(s, step.n, e);
    PushIsExact(s, step, t);
    SameNonEmptyHolds(t.gateway[GatewayName(step.n)].credentials, DesiredCredentials(s, step.n));
    if DesiredCredentials(s, step.n)[e] == "" {
      EmptyCredential(s, step, t, e);
    }
  }

  /**
   After every successful sync of every careful run, and until the object's own next pass: every
   credential of the spec resolves and the gateway holds the value in its Secret; the gateway
   holds no other non-empty credential; config and type are those of the spec. All of it under
   the namespace and name of the object, joined by a dot.
   */
  lemma SecretsReachGateway(ss: seq<State>, steps: seq<Step>, i: nat, j: nat)
    requires CarefulRun(ss, steps) && i < j < |ss| && SyncSucceeds(ss[i], steps[i])
    requires forall k :: i < k < j && steps[k].Reconcile? ==> steps[k].n != steps[i].n
    ensures var n, s := steps[i].n, ss[i];
            var g, spec := n.namespace + "." + n.name, s.providers[n].spec;
            && g in ss[j].gateway
            && (forall e :: e in spec.credentials ==> HoldsSecret(s, n, ss[j].gateway[g].credentials, e))
            && (forall e :: e in ss[j].gateway[g].credentials && ss[j].gateway[g].credentials[e] != "" ==>
                              e in spec.credentials)
            && Holds(ss[j].gateway[g].config, spec.config)
            && (spec.providerType == "" || ss[j].gateway[g].providerType == spec.providerType)
  {
    var n, s := steps[i].n, ss[i];
    var g := n.namespace + "." + n.name;
    SyncReplacesExactly(ss, steps, i, j);
    RunKeepsInv(ss, steps, i);
    ProviderIsolation(ss, steps, i + 1, j, n);
    PushDetails(s.gateway, g, Wanted(s, n), steps[i].env);
    SameNonEmptyHolds(ss[j].gateway[g].credentials, DesiredCredentials(s, n));
    SameNonEmptyHolds(ss[j].gateway[g].config, DesiredConfig(s, n));
    forall e | e in s.providers[n].spec.credentials
      ensures HoldsSecret(s, n, ss[j].gateway[g].credentials, e)
    {
      CredentialHolds(s, steps[i], ss[i + 1], e);
    }
  }

  /** The first pass of an object adds the finalizer and does nothing else. */
  lemma FinalizerComesFirst(s: State, step: Step, t: State)
    requires Next(s, step, t) && step.Reconcile? && step.n in s.providers
    requires !s.providers[step.n].deleting && !s.providers[step.n].finalizer
    ensures t == s.(providers := s.providers[step.n := s.providers[step.n].(finalizer := step.env.objectWritten)])
  {
    assert s.providers == s.providers[step.n := s.providers[step.n]];
  }

  function Blocked(p: Provider): Provider {
    p.(status := p.status.(phase := Failed, synced := Some(Condition(false, "DeletionBlocked"))))
  }

  /** Exactly when a deletion pass lets its object go, and exactly when it removes the gateway provider. */
  lemma DeletionEndsIff(s: State, step: Step, t: State)
    requires Next(s, step, t) && step.Reconcile? && step.n in s.providers && s.providers[step.n].deleting
    ensures var p, env, g := s.providers[step.n], step.env, step.n.namespace + "." + step.n.name;
            var reached := p.finalizer && env.gatewayFound && env.connected;
            && (step.n !in t.providers <==> reached && env.delete.Deleted? && env.objectWritten)
            && (g in t.gateway <==>
                && g in s.gateway
                && !(reached && (env.delete.Deleted? || (env.delete.DeleteBroken? && env.delete.tookEffect))))
            && (step.n in t.providers ==>
                  t.providers[step.n] == if reached && env.delete.Blocked? && env.statusWritten
                                         then Blocked(p) else p)
  {
  }

  /** Why the push failed, if it did, from the calls and the stored type. */
  ghost function PushReason(s: State, n: Name, env: Env): string
    requires n in s.providers
  {
    var g, wanted := n.namespace + "." + n.name, s.providers[n].spec.providerType;
    if env.create.Refused? then "InvalidProviderSpec"
    else if env.create.Broken? then "GatewayUnreachable"
    else if g !in s.gateway then "Ready"
    else if env.update.Refused? then "InvalidProviderSpec"
    else if env.update.Broken? then "GatewayUnreachable"
    else if wanted == "" || wanted == s.gateway[g].providerType then "Ready"
    else "InvalidProviderSpec"
  }

  lemma PushReasonIs(s: State, n: Name, env: Env)
    requires n in s.providers
    ensures var error := PushRemote(s.gateway, GatewayName(n), Wanted(s, n), env).error;
            error == if PushReason(s, n, env) == "Ready" then None else Some(PushReason(s, n, env))
  {
  }

  /** What a sync pass reports; the keys it records are all those of the spec, and only after a success. */
  lemma SyncReports(s: State, step: Step, t: State)
    requires Next(s, step, t) && step.Reconcile? && step.n in s.providers
    requires !s.providers[step.n].deleting && s.providers[step.n].finalizer
    ensures step.n in t.providers
    ensures var p, q, env := s.providers[step.n], t.providers[step.n], step.env;
            var f := FirstFailure(s, step.n, env, 0);
            var reason := if !env.gatewayFound then "GatewayNotFound"
                          else if f.SecretNotFound? then "SecretNotFound"
                          else if f.KeyNotFound? then "KeyNotFound"
                          else if !env.connected then "GatewayUnreachable"
                          else PushReason(s, step.n, env);
            if !env.statusWritten || (env.gatewayFound && f.ReadError?) then q == p
            else
              && q == p.(status := q.status) && q.status.observedGeneration == p.generation
              && q.status.synced == Some(Condition(reason == "Ready", reason))
              && q.status.phase == (if reason == "Ready" then Synced else Failed)
              && (reason == "Ready" ==> q.status.configKeys == p.spec.config.Keys)
              && (reason == "Ready" ==> q.status.credentialKeys == p.spec.credentials.Keys)
              && (reason != "Ready" ==> KeepsRecord(p, q))
  {
    PushReasonIs(s, step.n, step.env);
    if FirstFailure(s, step.n, step.env, 0).Value? {
      AllResolved(s, step.n, step.env, 0);
      assert DesiredCredentials(s, step.n).Keys == s.providers[step.n].spec.credentials.Keys;
    }
  }

  // ------------------------------------------------- both assumptions are really needed

  /** Some run with definite calls, or with recorded successes, ends in `s`. */
  ghost predicate Reachable(definite: bool, recorded: bool, s: State) {
    exists ss: seq<State>, steps: seq<Step> ::
      && Run(ss, steps) && ss[|steps|] == s
      && forall i {:trigger steps[i]} :: 0 <= i < |steps| ==> Keeps(definite, recorded, ss[i], steps[i])
  }

  ghost predicate Keeps(definite: bool, recorded: bool, s: State, step: Step) {
    (definite ==> Definite(step)) && (recorded ==> Recorded(s, step))
  }

  lemma Extend(definite: bool, recorded: bool, s: State, step: Step, t: State)
    requires Reachable(definite, recorded, s) && Next(s, step, t) && Keeps(definite, recorded, s, step)
    ensures Reachable(definite, recorded, t)
  {
    var ss: seq<State>, steps: seq<Step> :|
      && Run(ss, steps) && ss[|steps|] == s
      && forall i {:trigger steps[i]} :: 0 <= i < |steps| ==> Keeps(definite, recorded, ss[i], steps[i]);
    var longer, more := ss + [t], steps + [step];
    forall i | 0 <= i < |more| ensures Next(longer[i], more[i], longer[i + 1]) {
      assert i < |steps| ==> longer[i + 1] == ss[i + 1] && more[i] == steps[i];
    }
    assert Run(longer, more) && longer[|more|] == t;
  }

  const FINE := Env([], {}, true, true, Delivered, Delivered, Deleted, true, true)

  /** A provider of these settings with its finalizer, and what it looks like on the gateway. */
  function Plain(config: Table): Provider {
    Provider(Spec("t", map[], config), 1, false, true, NO_STATUS)
  }

  function Pushed(n: Name, config: Table): map<string, Remote> {
    map[GatewayName(n) := Remote("t", map[], config)]
  }

  lemma ProviderIsReady(definite: bool, recorded: bool, n: Name, config: Table)
    requires DotFree(n.namespace)
    ensures Reachable(definite, recorded, State(map[n := Plain(config)], map[], map[]))
  {
    var s0 := State(map[], map[], map[]);
    var none: seq<Step> := [];
    assert Run([s0], none) && [s0][|none|] == s0;
    var s1 := s0.(providers := map[n := Plain(config).(finalizer := false)]);
    Extend(definite, recorded, s0, Create(n, Plain(config).spec), s1);
    Extend(definite, recorded, s1, Reconcile(n, FINE), s0.(providers := map[n := Plain(config)]));
  }

  /** The first push of that provider. */
  lemma FirstPush(n: Name, config: Table, env: Env)
    requires env.order == [] && env.gatewayFound && env.connected && env.create != Refused
    ensures var s := State(map[n := Plain(config)], map[], map[]);
            && Wanted(s, n) == Remote("t", map[], config)
            && FirstFailure(s, n, env, 0).Value?
            && (env.create.Delivered? || env.create.tookEffect ==>
                  PushRemote(s.gateway, GatewayName(n), Wanted(s, n), env).gateway == Pushed(n, config))
  {
    var s := State(map[n := Plain(config)], map[], map[]);
    assert DesiredCredentials(s, n) == map[];
    assert Payload(config, {}) == config;
  }

  /** A key on the gateway that is neither wanted nor recorded survives the next sync. */
  lemma StaleKeySurvives(n: Name, p: Provider, key: string, value: string)
    requires value != "" && p.spec == Spec("t", map[], map[]) && !p.deleting && p.finalizer
    requires p.status.credentialKeys == {} && p.status.configKeys == {}
    ensures var s := State(map[n := p], map[], Pushed(n, map[key := value]));
            && SyncSucceeds(s, Reconcile(n, FINE)) && GatewayName(n) in Pass(s, n, FINE).gateway
            && !Exact(Pass(s, n, FINE).gateway[GatewayName(n)], DesiredCredentials(s, n), DesiredConfig(s, n))
  {
    var config := map[key := value];
    var s := State(map[n := p], map[], Pushed(n, config));
    assert SyncSucceeds(s, Reconcile(n, FINE));
    MergeReplacesIff(config, map[], {});
    assert key in NonEmpty(config);
    assert Wanted(s, n).config == Payload(map[], {});
    assert Pass(s, n, FINE).gateway[GatewayName(n)].config == Merge(config, Payload(map[], {}));
  }

  /** A successful sync in a run on these terms leaves more than is desired. */
  ghost predicate SyncCanFail(definite: bool, recorded: bool, n: Name) {
    exists s, t ::
      && Reachable(definite, recorded, s) && Next(s, Reconcile(n, FINE), t)
      && SyncSucceeds(s, Reconcile(n, FINE)) && GatewayName(n) in t.gateway
      && !Exact(t.gateway[GatewayName(n)], DesiredCredentials(s, n), DesiredConfig(s, n))
  }

  /** After an unrecorded push the key is dropped from the spec. */
  lemma DropKey(definite: bool, recorded: bool, n: Name, p: Provider, key: string, value: string)
    requires value != "" && p.spec == Spec("t", map[], map[key := value]) && !p.deleting && p.finalizer
    requires p.status.credentialKeys == {} && p.status.configKeys == {}
    requires Reachable(definite, recorded, State(map[n := p], map[], Pushed(n, map[key := value])))
    ensures SyncCanFail(definite, recorded, n)
  {
    var s := State(map[n := p], map[], Pushed(n, map[key := value]));
    var q := p.(spec := Spec("t", map[], map[]), generation := p.generation + 1);
    var s' := s.(providers := map[n := q]);
    Extend(definite, recorded, s, Edit(n, q.spec), s');
    StaleKeySurvives(n, q, key, value);
    assert Next(s', Reconcile(n, FINE), Pass(s', n, FINE));
  }

  /** One lost status write is enough for a dropped key to survive a later successful sync. */
  lemma LostWriteLeavesStaleKey(n: Name, key: string, value: string)
    requires DotFree(n.namespace) && value != ""
    ensures SyncCanFail(true, false, n)
  {
    var config := map[key := value];
    ProviderIsReady(true, false, n, config);
    var s, env := State(map[n := Plain(config)], map[], map[]), FINE.(statusWritten := false);
    FirstPush(n, config, env);
    Extend(true, false, s, Reconcile(n, env), s.(gateway := Pushed(n, config)));
    DropKey(true, false, n, Plain(config), key, value);
  }

  /** So is one create that reports an error and took effect. */
  lemma AmbiguousErrorLeavesStaleKey(n: Name, key: string, value: string)
    requires DotFree(n.namespace) && value != ""
    ensures SyncCanFail(false, true, n)
  {
    var config := map[key := value];
    ProviderIsReady(false, true, n, config);
    var s, env := State(map[n := Plain(config)], map[], map[]), FINE.(create := Broken(true));
    var p := NotReady(Plain(config), "GatewayUnreachable");
    FirstPush(n, config, env);
    Extend(false, true, s, Reconcile(n, env), State(map[n := p], map[], Pushed(n, config)));
    DropKey(false, true, n, p, key, value);
  }
}
