/** Which client redirect URIs the auth bridge accepts (isAllowedRedirectURI in internal/authbridge/server.go). */
module RedirectURIs {
  import opened Options
  import opened CodeStore

  datatype Url = Url(scheme: string, host: string, path: string)

  predicate IsLoopback(host: string) {
    host == "localhost" || host == "127.0.0.1" || "localhost:" <= host || "127.0.0.1:" <= host
  }

  predicate IsAllowedRedirectURI(externalIssuer: string, parse: string -> Option<Url>, uri: string) {
    && uri != "" && parse(uri).Some?
    && var u := parse(uri).value;
    && u.host != "" && (u.scheme == "http" || u.scheme == "https")
    && (IsLoopback(u.host)
        || (externalIssuer != "" && parse(externalIssuer).Some?
            && u.host == parse(externalIssuer).value.host && "/callback" <= u.path))
  }

  /** The store's view of a bridge with this issuer; every accepted URI can be redirected to. */
  function BridgeConfig(externalIssuer: string, parse: string -> Option<Url>): (cfg: Config)
    ensures forall uri :: cfg.allowed(uri) <==> IsAllowedRedirectURI(externalIssuer, parse, uri)
    ensures Redirectable(cfg)
  {
    Config(uri => IsAllowedRedirectURI(externalIssuer, parse, uri), uri => parse(uri).Some?)
  }

  /** The host is this one, alone or with a port. */
  predicate HostIs(host: string, name: string) {
    host == name || name + ":" <= host
  }

  /** An http or https URI on the user's own machine, or under /callback on the issuer's host. */
  predicate GoesHome(externalIssuer: string, parse: string -> Option<Url>, uri: string) {
    && uri != "" && parse(uri).Some?
    && var u := parse(uri).value;
    && u.scheme in {"http", "https"} && u.host != ""
    && (|| HostIs(u.host, "localhost") || HostIs(u.host, "127.0.0.1")
        || (&& externalIssuer != "" && parse(externalIssuer).Some? && u.host == parse(externalIssuer).value.host
            && |u.path| >= 9 && u.path[..9] == "/callback"))
  }

  lemma AllowedGoesHome(externalIssuer: string, parse: string -> Option<Url>, uri: string)
    ensures BridgeConfig(externalIssuer, parse).allowed(uri) <==> GoesHome(externalIssuer, parse, uri)
  {
    assert "localhost" + ":" == "localhost:" && "127.0.0.1" + ":" == "127.0.0.1:";
  }

  /** Whatever the interleaving, one-time codes are sent to such URIs only. */
  lemma CodesGoHome(externalIssuer: string, parse: string -> Option<Url>, cap: nat,
                    ss: seq<State>, es: seq<Event>, n: nat)
    requires Execution(BridgeConfig(externalIssuer, parse), cap, ss, es) && n < |es|
    requires Respond(BridgeConfig(externalIssuer, parse), cap, ss[n], es[n]).RedirectTo?
    ensures GoesHome(externalIssuer, parse, Respond(BridgeConfig(externalIssuer, parse), cap, ss[n], es[n]).uri)
  {
    var cfg := BridgeConfig(externalIssuer, parse);
    ResponsesAreSound(cfg, cap, ss, es, n);
    AllowedGoesHome(externalIssuer, parse, Respond(cfg, cap, ss[n], es[n]).uri);
  }

  /** An /authorize request is turned away as a bad redirect iff its URI is no such URI; the store is then as it was. */
  lemma BadRedirectIff(externalIssuer: string, parse: string -> Option<Url>, cap: nat, s: State, e: Event)
    requires e.Authorize? && Enabled(s, e)
    ensures var cfg := BridgeConfig(externalIssuer, parse);
            && (Respond(cfg, cap, s, e).BadRedirect? <==> !GoesHome(externalIssuer, parse, e.uri))
            && (Respond(cfg, cap, s, e).BadRedirect? ==> Apply(cfg, cap, s, e) == s.(clock := e.at))
  {
    AllowedGoesHome(externalIssuer, parse, e.uri);
  }
}
