/**
 Self-signed certificates of a gateway (internal/controller/openshellgateway_controller.go,
 reconcileSelfSignedTLS): a server Secret and a client Secret issued by one CA that is thrown
 away afterwards. The hash of the SANs, kept as an annotation on the server Secret, is all
 that a later pass compares.

 A run mixes passes, whose reads and writes succeed or fail, with spec edits and with Secrets
 or annotations that others remove. A CA is a number; every generation takes a new one.
 */
module PkiProtocol {
  import opened Options
  import opened SanEncoding

  datatype ServerSecret = ServerSecret(hash: Option<string>, sans: seq<string>, ca: nat)

  /** Secrets by namespace; a client Secret is known by its CA. */
  datatype State = State(gw: Gateway, servers: map<string, ServerSecret>, clients: map<string, nat>, generated: nat)

  /** A write that reports an error may still have landed. */
  datatype Write = Done | Refused | DoneWithError

  datatype Outcomes = Outcomes(serverRead: bool, clientRead: bool, generates: bool, server: Write, client: Write)

  datatype Step =
    | Pass(outcomes: Outcomes)
    | Edit(namespace: string, hostname: string)
    | LoseServer(ns: string)
    | LoseClient(ns: string)
    | LoseAnnotation(ns: string)

  datatype Result = Result(state: State, ok: bool)

  function Hash(digest: string -> string, gw: Gateway): string {
    digest(Encode(ServerSANs(gw)))
  }

  predicate UpToDate(digest: string -> string, s: State) {
    var ns := TargetNamespace(s.gw);
    ns in s.servers && ns in s.clients && s.servers[ns].hash == Some(Hash(digest, s.gw))
  }

  function ReconcilePass(digest: string -> string, s: State, o: Outcomes): Result {
    var ns := TargetNamespace(s.gw);
    if !o.serverRead || !o.clientRead then Result(s, false)
    else if UpToDate(digest, s) then Result(s, true)
    else if !o.generates then Result(s, false)
    else
      var g := s.(generated := s.generated + 1);
      if o.server.Refused? then Result(g, false)
      else
        var h := g.(servers := g.servers[ns := ServerSecret(Some(Hash(digest, s.gw)), ServerSANs(s.gw), s.generated)]);
        if o.server.DoneWithError? || o.client.Refused? then Result(h, false)
        else Result(h.(clients := h.clients[ns := s.generated]), o.client.Done?)
  }

  function Next(digest: string -> string, s: State, e: Step): State {
    match e
    case Pass(o) => ReconcilePass(digest, s, o).state
    case Edit(namespace, hostname) => s.(gw := s.gw.(namespace := namespace, hostname := hostname))
    case LoseServer(ns) => s.(servers := s.servers - {ns})
    case LoseClient(ns) => s.(clients := s.clients - {ns})
    case LoseAnnotation(ns) =>
      if ns in s.servers then s.(servers := s.servers[ns := s.servers[ns].(hash := None)]) else s
  }

  function After(digest: string -> string, gw: Gateway, steps: seq<Step>): State {
    if steps == [] then State(gw, map[], map[], 0)
    else Next(digest, After(digest, gw, steps[..|steps| - 1]), steps[|steps| - 1])
  }

  // -------------------------------------------------------------- what every run keeps

  /** The annotation describes the certificate beside it, and no CA comes from the future. */
  ghost predicate Inv(digest: string -> string, s: State) {
    && (forall ns :: ns in s.servers ==> s.servers[ns].ca < s.generated)
    && (forall ns :: ns in s.servers && s.servers[ns].hash.Some? ==>
          s.servers[ns].hash.value == digest(Encode(s.servers[ns].sans)))
    && (forall ns :: ns in s.clients ==> s.clients[ns] < s.generated)
  }

  lemma StepKeepsInv(digest: string -> string, s: State, e: Step)
    requires Inv(digest, s)
    ensures Inv(digest, Next(digest, s, e))
  {
  }

  lemma {:induction false} RunKeepsInv(digest: string -> string, gw: Gateway, steps: seq<Step>)
    ensures Inv(digest, After(digest, gw, steps))
  {
    if steps != [] {
      RunKeepsInv(digest, gw, steps[..|steps| - 1]);
      StepKeepsInv(digest, After(digest, gw, steps[..|steps| - 1]), steps[|steps| - 1]);
    }
  }

  // ------------------------------------------------------------------------ torn pairs

  /** Client and server Secret are there and were issued by different CAs. */
  predicate Mismatched(s: State, ns: string) {
    ns in s.servers && ns in s.clients && s.servers[ns].ca != s.clients[ns]
  }

  /** The pass writes the server Secret. */
  predicate Rewrites(digest: string -> string, s: State, o: Outcomes) {
    o.serverRead && o.clientRead && !UpToDate(digest, s) && o.generates && !o.server.Refused?
  }

  /** The pass stops between the two writes while a client Secret of an older CA is there. */
  predicate Tears(digest: string -> string, s: State, e: Step) {
    && e.Pass? && Rewrites(digest, s, e.outcomes) && TargetNamespace(s.gw) in s.clients
    && (e.outcomes.server.DoneWithError? || e.outcomes.client.Refused?)
  }

  /** Whether the last step that decided about the pair in `ns` tore it, told from the steps alone. */
  predicate Torn(digest: string -> string, gw: Gateway, steps: seq<Step>, ns: string) {
    steps != [] &&
    var before, e := steps[..|steps| - 1], steps[|steps| - 1];
    var s := After(digest, gw, before);
    match e
    case Pass(o) =>
      if Rewrites(digest, s, o) && TargetNamespace(s.gw) == ns then Tears(digest, s, e)
      else Torn(digest, gw, before, ns)
    case LoseServer(n) => n != ns && Torn(digest, gw, before, ns)
    case LoseClient(n) => n != ns && Torn(digest, gw, before, ns)
    case _ => Torn(digest, gw, before, ns)
  }

  /** A pass gives its pair two CAs if and only if it tears it, and leaves the other namespaces alone. */
  lemma PassMismatches(digest: string -> string, s: State, o: Outcomes, ns: string)
    requires Inv(digest, s)
    ensures var t := ReconcilePass(digest, s, o).state;
            Mismatched(t, ns) <==>
              if Rewrites(digest, s, o) && TargetNamespace(s.gw) == ns then Tears(digest, s, Pass(o))
              else Mismatched(s, ns)
  {
  }

  /** Over every run the two Secrets disagree on their CA exactly when the last rewriting pass tore them. */
  lemma {:induction false} MismatchedIffTorn(digest: string -> string, gw: Gateway, steps: seq<Step>, ns: string)
    ensures Mismatched(After(digest, gw, steps), ns) <==> Torn(digest, gw, steps, ns)
  {
    if steps != [] {
      var before, e := steps[..|steps| - 1], steps[|steps| - 1];
      var s := After(digest, gw, before);
      MismatchedIffTorn(digest, gw, before, ns);
      if e.Pass? {
        RunKeepsInv(digest, gw, before);
        PassMismatches(digest, s, e.outcomes, ns);
      }
    }
  }

  // ------------------------------------------------------- what a successful pass means

  /** Exactly when a pass succeeds; with both Secrets there and the hash unchanged it touches nothing. */
  lemma PassSucceedsIff(digest: string -> string, s: State, o: Outcomes)
    ensures var ns := if s.gw.namespace == "" then "ogo" else s.gw.namespace;
            var current := && ns in s.servers && ns in s.clients
                           && s.servers[ns].hash == Some(digest(Encode(ServerSANs(s.gw))));
            && (ReconcilePass(digest, s, o).ok <==>
                && o.serverRead && o.clientRead
                && (current || (o.generates && o.server.Done? && o.client.Done?)))
            && (current ==> ReconcilePass(digest, s, o).state == s)
  {
  }


  /** The hash fails to tell two different byte strings apart. */
  predicate Collides(digest: string -> string, a: string, b: string) {
    a != b && digest(a) == digest(b)
  }

  ghost predicate CleanState(s: State) {
    Clean(s.gw) && forall ns :: ns in s.servers ==> AllNulFree(s.servers[ns].sans)
  }

  predicate CleanSteps(steps: seq<Step>) {
    forall i :: 0 <= i < |steps| && steps[i].Edit? ==> NulFree(steps[i].namespace) && NulFree(steps[i].hostname)
  }

  lemma StepKeepsClean(digest: string -> string, s: State, e: Step)
    requires CleanState(s)
    requires e.Edit? ==> NulFree(e.namespace) && NulFree(e.hostname)
    ensures CleanState(Next(digest, s, e))
  {
    SANsAreNulFree(s.gw);
  }

  lemma {:induction false} RunKeepsClean(digest: string -> string, gw: Gateway, steps: seq<Step>)
    requires Clean(gw) && CleanSteps(steps)
    ensures CleanState(After(digest, gw, steps))
  {
    if steps != [] {
      RunKeepsClean(digest, gw, steps[..|steps| - 1]);
      StepKeepsClean(digest, After(digest, gw, steps[..|steps| - 1]), steps[|steps| - 1]);
    }
  }

  /** Both Secrets are there and the server's certificate was asked for with the bytes the spec stands for,
      as far as the hash can tell. */
  lemma SuccessIsUpToDate(digest: string -> string, s: State, o: Outcomes)
    requires Inv(digest, s) && ReconcilePass(digest, s, o).ok
    ensures var t, ns := ReconcilePass(digest, s, o).state, TargetNamespace(s.gw);
            && ns in t.servers && ns in t.clients
            && (Encode(t.servers[ns].sans) == Encode(ServerSANs(s.gw))
                || Collides(digest, Encode(t.servers[ns].sans), Encode(ServerSANs(s.gw))))
  {
  }

  /**
   After any run of passes, spec edits and losses, a pass that reports success leaves both
   Secrets, with one CA if and only if no tear is outstanding, and with the server certificate
   for the SANs of the spec as it is now, unless the hash collides on the two encodings.
   */
  lemma SuccessfulPass(digest: string -> string, gw: Gateway, steps: seq<Step>, o: Outcomes)
    requires Clean(gw) && CleanSteps(steps)
    requires ReconcilePass(digest, After(digest, gw, steps), o).ok
    ensures var now := After(digest, gw, steps).gw;
            var t, ns := ReconcilePass(digest, After(digest, gw, steps), o).state, TargetNamespace(now);
            && ns in t.servers && ns in t.clients
            && (t.servers[ns].ca == t.clients[ns] <==> !Torn(digest, gw, steps + [Pass(o)], ns))
            && (t.servers[ns].sans == ServerSANs(now)
                || Collides(digest, Encode(t.servers[ns].sans), Encode(ServerSANs(now))))
  {
    var s := After(digest, gw, steps);
    var t, ns := ReconcilePass(digest, s, o).state, TargetNamespace(s.gw);
    RunKeepsInv(digest, gw, steps);
    RunKeepsClean(digest, gw, steps);
    SuccessIsUpToDate(digest, s, o);
    StepKeepsClean(digest, s, Pass(o));
    SANsAreNulFree(s.gw);
    if Encode(t.servers[ns].sans) == Encode(ServerSANs(s.gw)) {
      EncodeInjective(t.servers[ns].sans, ServerSANs(s.gw));
    }
    assert (steps + [Pass(o)])[..|steps|] == steps;
    assert After(digest, gw, steps + [Pass(o)]) == t;
    MismatchedIffTorn(digest, gw, steps + [Pass(o)], ns);
  }

  /** No pass of the run tears its pair. */
  predicate NeverTears(digest: string -> string, gw: Gateway, steps: seq<Step>) {
    steps != [] ==>
      && NeverTears(digest, gw, steps[..|steps| - 1])
      && !Tears(digest, After(digest, gw, steps[..|steps| - 1]), steps[|steps| - 1])
  }

  /** With no tear in the run, the Secrets of every namespace share their CA at every moment. */
  lemma {:induction false} OneSharedCA(digest: string -> string, gw: Gateway, steps: seq<Step>, ns: string)
    requires NeverTears(digest, gw, steps)
    ensures !Mismatched(After(digest, gw, steps), ns)
  {
    NeverTorn(digest, gw, steps, ns);
    MismatchedIffTorn(digest, gw, steps, ns);
  }

  lemma {:induction false} NeverTorn(digest: string -> string, gw: Gateway, steps: seq<Step>, ns: string)
    requires NeverTears(digest, gw, steps)
    ensures !Torn(digest, gw, steps, ns)
  {
    if steps != [] {
      NeverTorn(digest, gw, steps[..|steps| - 1], ns);
    }
  }

  // ------------------------------------------------------------------ a tear is for good

  lemma Extend(digest: string -> string, gw: Gateway, steps: seq<Step>, e: Step)
    ensures After(digest, gw, steps + [e]) == Next(digest, After(digest, gw, steps), e)
  {
    assert (steps + [e])[..|steps|] == steps;
  }

  /** A torn pair carries the hash of the current spec. */
  lemma TearLooksUpToDate(digest: string -> string, s: State, e: Step)
    requires Inv(digest, s) && Tears(digest, s, e)
    ensures UpToDate(digest, Next(digest, s, e)) && Mismatched(Next(digest, s, e), TargetNamespace(s.gw))
  {
  }

  lemma {:induction false} IdlePasses(digest: string -> string, gw: Gateway, steps: seq<Step>, later: seq<Step>)
    requires UpToDate(digest, After(digest, gw, steps))
    requires forall i :: 0 <= i < |later| ==> later[i].Pass?
    ensures After(digest, gw, steps + later) == After(digest, gw, steps)
  {
    if later == [] {
      assert steps + later == steps;
    } else {
      var n := |later| - 1;
      assert steps + later == steps + later[..n] + [later[n]];
      IdlePasses(digest, gw, steps, later[..n]);
      Extend(digest, gw, steps + later[..n], later[n]);
    }
  }

  /** Once torn, always torn until the spec or a Secret is changed: no number of passes mends the pair. */
  lemma TearSticks(digest: string -> string, gw: Gateway, steps: seq<Step>, e: Step, later: seq<Step>)
    requires Tears(digest, After(digest, gw, steps), e)
    requires forall i :: 0 <= i < |later| ==> later[i].Pass?
    ensures Mismatched(After(digest, gw, steps + [e] + later), TargetNamespace(After(digest, gw, steps).gw))
    ensures UpToDate(digest, After(digest, gw, steps + [e] + later))
  {
    RunKeepsInv(digest, gw, steps);
    Extend(digest, gw, steps, e);
    TearLooksUpToDate(digest, After(digest, gw, steps), e);
    IdlePasses(digest, gw, steps + [e], later);
  }

  const FINE := Outcomes(true, true, true, Done, Done)

  /** First pass, a new hostname, a pass whose client write is refused: every later pass then succeeds on two CAs. */
  lemma TearHappens(digest: string -> string, name: string, hostname: string)
    requires Hash(digest, Gateway(name, "", "")) != Hash(digest, Gateway(name, "", hostname))
    ensures var steps := [Pass(FINE), Edit("", hostname), Pass(FINE.(client := Refused))];
            && Mismatched(After(digest, Gateway(name, "", ""), steps), DEFAULT_NAMESPACE)
            && ReconcilePass(digest, After(digest, Gateway(name, "", ""), steps), FINE).ok
  {
    var gw := Gateway(name, "", "");
    var a, b, c := Pass(FINE), Edit("", hostname), Pass(FINE.(client := Refused));
    Extend(digest, gw, [], a);
    Extend(digest, gw, [a], b);
    assert [] + [a] == [a] && [a] + [b] == [a, b] && [a, b] + [c] + [] == [a, b, c];
    var s := After(digest, gw, [a, b]);
    assert s.gw == Gateway(name, "", hostname) && DEFAULT_NAMESPACE in s.clients;
    assert Tears(digest, s, c);
    TearSticks(digest, gw, [a, b], c, []);
  }
}
