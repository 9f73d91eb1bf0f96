/**
 The OpenShellPolicy spec, the gateway's SandboxPolicy message, and the mapping between
 them (buildSandboxPolicy in internal/controller/openshellpolicy_controller.go).
 */
module SandboxPolicies {
  import opened Options

  newtype int32 = x: int | -0x8000_0000 <= x < 0x8000_0000
  newtype uint32 = x: int | 0 <= x < 0x1_0000_0000

  datatype Filesystem = Filesystem(includeWorkdir: bool, readOnly: seq<string>, readWrite: seq<string>)
  datatype Process = Process(runAsUser: string, runAsGroup: string)

  datatype Endpoint = Endpoint(host: string, port: int32, protocol: string, enforcement: string, access: string)
  datatype Binary = Binary(path: string)
  datatype Rule = Rule(name: string, endpoints: seq<Endpoint>, binaries: seq<Binary>)
  datatype PolicySpec = PolicySpec(policyName: string, filesystem: Option<Filesystem>,
                                   network: map<string, Rule>, process: Option<Process>)

  datatype WireEndpoint = WireEndpoint(host: string, port: uint32, protocol: string, enforcement: string,
                                       access: string)
  datatype WireRule = WireRule(name: string, endpoints: seq<WireEndpoint>, binaries: seq<Binary>)
  datatype SandboxPolicy = SandboxPolicy(filesystem: Option<Filesystem>, process: Option<Process>,
                                         networkPolicies: map<string, WireRule>)

  /** Go's uint32(int32) conversion. */
  function ToUint32(p: int32): uint32 {
    if p >= 0 then p as uint32 else (p as int + 0x1_0000_0000) as uint32
  }

  function ToInt32(p: uint32): int32 {
    if p < 0x8000_0000 then p as int32 else (p as int - 0x1_0000_0000) as int32
  }

  function BuildEndpoint(e: Endpoint): WireEndpoint {
    WireEndpoint(e.host, ToUint32(e.port), e.protocol, e.enforcement, e.access)
  }

  function BuildRule(r: Rule): WireRule {
    WireRule(r.name, seq(|r.endpoints|, i requires 0 <= i < |r.endpoints| => BuildEndpoint(r.endpoints[i])), r.binaries)
  }

  function Build(spec: PolicySpec): SandboxPolicy {
    SandboxPolicy(spec.filesystem, spec.process, map k | k in spec.network :: BuildRule(spec.network[k]))
  }

  /** Reads a spec back out of the gateway's message; the message carries no policy name. */
  function ReadEndpoint(e: WireEndpoint): Endpoint {
    Endpoint(e.host, ToInt32(e.port), e.protocol, e.enforcement, e.access)
  }

  function ReadRule(r: WireRule): Rule {
    Rule(r.name, seq(|r.endpoints|, i requires 0 <= i < |r.endpoints| => ReadEndpoint(r.endpoints[i])), r.binaries)
  }

  function ReadSpec(policyName: string, p: SandboxPolicy): PolicySpec {
    PolicySpec(policyName, p.filesystem, map k | k in p.networkPolicies :: ReadRule(p.networkPolicies[k]), p.process)
  }

  /** The loops of buildSandboxPolicy: one over the rule map, one over each endpoint list, one over each binary list. */
  method BuildSandboxPolicy(spec: PolicySpec) returns (desired: SandboxPolicy)
    ensures desired == Build(spec)
  {
    var rules: map<string, WireRule> := map[];
    var keys := spec.network.Keys;
    while keys != {}
      invariant keys <= spec.network.Keys
      invariant rules == map k | k in spec.network.Keys - keys :: BuildRule(spec.network[k])
      decreases |keys|
    {
      var key :| key in keys;
      var rule := spec.network[key];
      var endpoints: seq<WireEndpoint> := [];
      for i := 0 to |rule.endpoints|
        invariant endpoints == BuildRule(rule).endpoints[..i]
      {
        endpoints := endpoints + [BuildEndpoint(rule.endpoints[i])];
      }
      var binaries: seq<Binary> := [];
      for i := 0 to |rule.binaries|
        invariant binaries == rule.binaries[..i]
      {
        binaries := binaries + [Binary(rule.binaries[i].path)];
      }
      assert WireRule(rule.name, endpoints, binaries) == BuildRule(rule);
      rules := rules[key := WireRule(rule.name, endpoints, binaries)];
      keys := keys - {key};
    }
    desired := SandboxPolicy(spec.filesystem, spec.process, rules);
  }

  lemma RuleRoundTrip(r: Rule)
    ensures ReadRule(BuildRule(r)) == r
  {
    forall i | 0 <= i < |r.endpoints| ensures ReadRule(BuildRule(r)).endpoints[i] == r.endpoints[i] {
      assert ReadEndpoint(BuildEndpoint(r.endpoints[i])) == r.endpoints[i];
    }
  }

  /** Nothing of the spec but its name is lost on the way to the gateway, whatever the ports and rules. */
  lemma BuildRoundTrip(spec: PolicySpec)
    ensures ReadSpec(spec.policyName, Build(spec)) == spec
  {
    var back := ReadSpec(spec.policyName, Build(spec)).network;
    forall k | k in spec.network ensures back[k] == spec.network[k] {
      RuleRoundTrip(spec.network[k]);
    }
    assert back == spec.network;
  }

  /** Two specs put the same policy on the gateway exactly when they differ in their name only. */
  lemma BuildSeparates(a: PolicySpec, b: PolicySpec)
    ensures Build(a) == Build(b) <==> a == b.(policyName := a.policyName)
  {
    BuildRoundTrip(a);
    BuildRoundTrip(b);
  }

  /** Field by field: every rule, endpoint and binary arrives in its place, ports modulo 2^32. */
  lemma BuildKeepsFields(spec: PolicySpec, k: string)
    ensures Build(spec).filesystem == spec.filesystem && Build(spec).process == spec.process
    ensures k in Build(spec).networkPolicies <==> k in spec.network
    ensures k in spec.network ==>
              var r, w := spec.network[k], Build(spec).networkPolicies[k];
              && w.name == r.name && w.binaries == r.binaries && |w.endpoints| == |r.endpoints|
              && forall i :: 0 <= i < |r.endpoints| ==>
                               && w.endpoints[i].host == r.endpoints[i].host
                               && w.endpoints[i].port as int == r.endpoints[i].port as int % 0x1_0000_0000
                               && w.endpoints[i].protocol == r.endpoints[i].protocol
                               && w.endpoints[i].enforcement == r.endpoints[i].enforcement
                               && w.endpoints[i].access == r.endpoints[i].access
  {
  }
}
