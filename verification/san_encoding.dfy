/**
 The byte string that HashSANs feeds to its hash (internal/pki/pki.go) and the server SANs of
 a gateway (internal/controller/openshellgateway_controller.go). A Go string is a byte
 sequence, so here a `char` stands for one byte. The hash itself is a parameter.
 */
module SanEncoding {
  import RouteProtocol

  const NUL: char := '\0'

  predicate NulFree(s: string) {
    NUL !in s
  }

  predicate AllNulFree(sans: seq<string>) {
    forall i :: 0 <= i < |sans| ==> NulFree(sans[i])
  }

  /** Every SAN followed by a NUL byte. */
  function Encode(sans: seq<string>): string {
    if sans == [] then [] else sans[0] + [NUL] + Encode(sans[1..])
  }

  lemma {:induction false} EncodeConcat(a: seq<string>, b: seq<string>)
    ensures Encode(a + b) == Encode(a) + Encode(b)
  {
    if a == [] {
      assert a + b == b;
    } else {
      assert (a + b)[1..] == a[1..] + b;
      EncodeConcat(a[1..], b);
    }
  }

  method HashSANs(sans: seq<string>, digest: string -> string) returns (r: string)
    ensures r == digest(Encode(sans))
  {
    var written := "";
    for i := 0 to |sans|
      invariant written == Encode(sans[..i])
    {
      assert sans[..i + 1] == sans[..i] + [sans[i]];
      EncodeConcat(sans[..i], [sans[i]]);
      written := written + sans[i];
      written := written + [NUL];
    }
    assert sans[..|sans|] == sans;
    r := digest(written);
  }

  // ------------------------------------------------------------------------ injectivity

  lemma FirstPiece(x: string, p: string, y: string, q: string)
    requires NulFree(x) && NulFree(y)
    requires x + [NUL] + p == y + [NUL] + q
    ensures x == y && p == q
  {
    var u, v := x + [NUL] + p, y + [NUL] + q;
    assert forall k :: 0 <= k < |x| ==> u[k] == x[k] && u[k] != NUL;
    assert forall k :: 0 <= k < |y| ==> v[k] == y[k] && v[k] != NUL;
    assert u[|x|] == NUL && v[|y|] == NUL;
    assert u[..|x|] == x && v[..|y|] == y;
    assert u[|x| + 1..] == p && v[|y| + 1..] == q;
  }

  /** On NUL-free SANs different lists are hashed as different bytes. */
  lemma {:induction false} EncodeInjective(a: seq<string>, b: seq<string>)
    requires AllNulFree(a) && AllNulFree(b)
    requires Encode(a) == Encode(b)
    ensures a == b
  {
    if a != [] && b != [] {
      FirstPiece(a[0], Encode(a[1..]), b[0], Encode(b[1..]));
      EncodeInjective(a[1..], b[1..]);
      assert a == [a[0]] + a[1..] && b == [b[0]] + b[1..];
    }
  }

  /** `s` cut at its NUL bytes. */
  function Split(s: string): (r: seq<string>)
    ensures r != [] && AllNulFree(r)
  {
    if s == "" then [""]
    else
      var r := Split(s[1..]);
      if s[0] == NUL then [""] + r else [[s[0]] + r[0]] + r[1..]
  }

  lemma {:induction false} SplitEncodes(s: string)
    ensures Encode(Split(s)) == s + [NUL]
  {
    if s == "" {
      assert Split(s)[1..] == [];
    } else {
      var r := Split(s[1..]);
      SplitEncodes(s[1..]);
      assert s == [s[0]] + s[1..];
      if s[0] == NUL {
        assert Split(s)[1..] == r;
        assert Encode(Split(s)) == "" + [NUL] + (s[1..] + [NUL]);
      } else {
        assert Split(s)[1..] == r[1..];
        assert Encode(r) == r[0] + [NUL] + Encode(r[1..]);
        assert Encode(Split(s)) == [s[0]] + r[0] + [NUL] + Encode(r[1..]) == [s[0]] + Encode(r);
      }
    }
  }

  /** The list with every SAN cut at its NUL bytes. */
  function Pieces(sans: seq<string>): (r: seq<string>)
    ensures AllNulFree(r)
  {
    if sans == [] then [] else Split(sans[0]) + Pieces(sans[1..])
  }

  lemma {:induction false} PiecesEncode(sans: seq<string>)
    ensures Encode(Pieces(sans)) == Encode(sans)
  {
    if sans != [] {
      SplitEncodes(sans[0]);
      PiecesEncode(sans[1..]);
      EncodeConcat(Split(sans[0]), Pieces(sans[1..]));
    }
  }

  /** On any lists, exactly the placement of NUL bytes inside SANs is lost. */
  lemma SameEncodingIff(a: seq<string>, b: seq<string>)
    ensures Encode(a) == Encode(b) <==> Pieces(a) == Pieces(b)
  {
    PiecesEncode(a);
    PiecesEncode(b);
    if Encode(a) == Encode(b) {
      EncodeInjective(Pieces(a), Pieces(b));
    }
  }

  /** A SAN with a NUL byte in it is hashed as the two SANs around the byte. */
  lemma NulCollides(x: string, y: string)
    ensures Encode([x + [NUL] + y]) == Encode([x, y]) && [x + [NUL] + y] != [x, y]
  {
    EncodeConcat([x], [y]);
    assert [x] + [y] == [x, y];
    assert x + [NUL] + y + [NUL] == (x + [NUL]) + (y + [NUL]);
  }

  // ------------------------------------------------------------------------ server SANs

  /** A gateway as far as its certificates depend on it; `namespace` is spec.namespace, maybe empty. */
  datatype Gateway = Gateway(name: string, namespace: string, hostname: string)

  const DEFAULT_NAMESPACE := "ogo"

  function TargetNamespace(gw: Gateway): string {
    if gw.namespace != "" then gw.namespace else DEFAULT_NAMESPACE
  }

  function ServerSANs(gw: Gateway): seq<string> {
    var ns := TargetNamespace(gw);
    var always := [
      gw.name,
      gw.name + "." + ns + ".svc",
      gw.name + "." + ns + ".svc.cluster.local",
      "localhost",
      gw.name + ".localhost",
      "*." + gw.name + ".localhost",
      "host.docker.internal",
      "127.0.0.1"];
    if gw.hostname == "" then always
    else always + [gw.hostname, "openshell-auth." + RouteProtocol.DomainSuffix(gw.hostname)]
  }

  predicate Clean(gw: Gateway) {
    NulFree(gw.name) && NulFree(gw.namespace) && NulFree(gw.hostname)
  }

  lemma {:induction false} SuffixIsNulFree(hostname: string)
    requires NulFree(hostname)
    ensures NulFree(RouteProtocol.DomainSuffix(hostname))
  {
    if '.' in hostname && hostname[0] != '.' {
      SuffixIsNulFree(hostname[1..]);
    }
  }

  lemma JoinIsNulFree(a: string, b: string)
    requires NulFree(a) && NulFree(b)
    ensures NulFree(a + b)
  {
  }

  lemma SANsAreNulFree(gw: Gateway)
    requires Clean(gw)
    ensures AllNulFree(ServerSANs(gw))
  {
    var sans, ns := ServerSANs(gw), TargetNamespace(gw);
    JoinIsNulFree(gw.name, ".");
    JoinIsNulFree(gw.name + ".", ns);
    JoinIsNulFree(gw.name + "." + ns, ".svc");
    JoinIsNulFree(gw.name + "." + ns, ".svc.cluster.local");
    JoinIsNulFree(gw.name, ".localhost");
    JoinIsNulFree("*.", gw.name);
    JoinIsNulFree("*." + gw.name, ".localhost");
    SuffixIsNulFree(gw.hostname);
    JoinIsNulFree("openshell-auth.", RouteProtocol.DomainSuffix(gw.hostname));
    assert NulFree("localhost") && NulFree("host.docker.internal") && NulFree("127.0.0.1");
    assert AllNulFree(sans[..8]);
    assert gw.hostname == "" ==> sans == sans[..8];
  }

  /** The SAN list gives away everything it is made from, so every edit that matters changes it. */
  lemma SANsDetermineGateway(a: Gateway, b: Gateway)
    ensures ServerSANs(a) == ServerSANs(b) <==>
            a.name == b.name && TargetNamespace(a) == TargetNamespace(b) && a.hostname == b.hostname
  {
    var s, t := ServerSANs(a), ServerSANs(b);
    if s == t {
      var m, n := TargetNamespace(a), TargetNamespace(b);
      assert s[0] == t[0] && s[1] == t[1];
      assert |m| == |n|;
      assert s[1][|a.name| + 1..|a.name| + 1 + |m|] == m;
      assert t[1][|b.name| + 1..|b.name| + 1 + |n|] == n;
      assert |s| == |t|;
      assert a.hostname != "" ==> s[8] == a.hostname;
      assert b.hostname != "" ==> t[8] == b.hostname;
    }
  }

  /** For specs without NUL bytes, equal bytes under the hash mean the same name, namespace and hostname. */
  lemma DriftIsExact(a: Gateway, b: Gateway)
    requires Clean(a) && Clean(b)
    ensures Encode(ServerSANs(a)) == Encode(ServerSANs(b)) <==>
            a.name == b.name && TargetNamespace(a) == TargetNamespace(b) && a.hostname == b.hostname
  {
    SANsAreNulFree(a);
    SANsAreNulFree(b);
    SANsDetermineGateway(a, b);
    if Encode(ServerSANs(a)) == Encode(ServerSANs(b)) {
      EncodeInjective(ServerSANs(a), ServerSANs(b));
    }
  }

  /** The certificate is good for the names by which the gateway is reached, inside and outside the cluster. */
  lemma SANsCoverNames(gw: Gateway)
    ensures var sans, ns := ServerSANs(gw), if gw.namespace == "" then "ogo" else gw.namespace;
            && gw.name in sans && gw.name + "." + ns + ".svc" in sans
            && gw.name + "." + ns + ".svc.cluster.local" in sans
            && "localhost" in sans && gw.name + ".localhost" in sans && "*." + gw.name + ".localhost" in sans
            && "host.docker.internal" in sans && "127.0.0.1" in sans
            && (gw.hostname != "" ==>
                  gw.hostname in sans && "openshell-auth." + RouteProtocol.DomainSuffix(gw.hostname) in sans)
            && |sans| == if gw.hostname == "" then 8 else 10
  {
    var sans := ServerSANs(gw);
    assert |sans| >= 8 && sans[0] == gw.name && sans[3] == "localhost" && sans[6] == "host.docker.internal";
    assert sans[1] == gw.name + "." + TargetNamespace(gw) + ".svc" && sans[7] == "127.0.0.1";
    assert sans[2] == gw.name + "." + TargetNamespace(gw) + ".svc.cluster.local";
    assert sans[4] == gw.name + ".localhost" && sans[5] == "*." + gw.name + ".localhost";
    if gw.hostname != "" {
      assert sans[8] == gw.hostname && sans[9] == "openshell-auth." + RouteProtocol.DomainSuffix(gw.hostname);
    }
  }

  /** The auth Route's host is among them, so the certificate and the Route agree on it. */
  lemma AuthHostIsCovered(gw: Gateway, route: RouteProtocol.Gateway)
    requires gw.hostname == route.hostname != ""
    ensures RouteProtocol.AuthHost(route) in ServerSANs(gw)
  {
    SANsCoverNames(gw);
  }
}
