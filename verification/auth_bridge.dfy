/**
 The auth bridge's handlers and sweeper as they change the shared map
 (internal/authbridge/server.go). A method is one lock section and what the handler decides
 from it; `inflight` holds what each running /callback took out and has not put back. Each
 method is proved equal to the store's `Apply` and `Respond`.
 */
module AuthBridge {
  import opened AuthState
  import opened CodeStore

  class Server {
    const cfg: Config
    var codes: map<string, Pending>
    var inflight: map<nat, Flight>
    var clock: int

    ghost function View(): State
      reads this
    {
      State(codes, inflight, clock)
    }

    constructor (cfg: Config)
      ensures View() == State(map[], map[], 0) && this.cfg == cfg
    {
      this.cfg := cfg;
      codes, inflight, clock := map[], map[], 0;
    }

    method HandleAuthorize(at: int, uri: string, clientState: string, code: string) returns (r: Response)
      requires Enabled(View(), Authorize(at, uri, clientState, code))
      modifies this
      ensures View() == Apply(cfg, MAX_PENDING_CODES, old(View()), Authorize(at, uri, clientState, code))
      ensures r == Respond(cfg, MAX_PENDING_CODES, old(View()), Authorize(at, uri, clientState, code))
    {
      clock := at;
      if !cfg.allowed(uri) {
        return BadRedirect;
      }
      if |codes| >= MAX_PENDING_CODES {
        return Busy;
      }
      codes := codes[code := Pending("", at + STATE_TTL, uri)];
      return SentToProvider(code + ":" + clientState);
    }

    /** The first half of /callback: take the entry out, then look at its expiry. */
    method HandleCallbackTake(at: int, checkedAt: int, request: nat, combined: string) returns (r: Response)
      requires Enabled(View(), CallbackTake(at, checkedAt, request, combined))
      modifies this
      ensures View() == Apply(cfg, MAX_PENDING_CODES, old(View()), CallbackTake(at, checkedAt, request, combined))
      ensures r == Respond(cfg, MAX_PENDING_CODES, old(View()), CallbackTake(at, checkedAt, request, combined))
    {
      var bridgeState, clientState := SplitState(combined);
      clock := at;
      if bridgeState !in codes {
        return InvalidState;
      }
      var pending := codes[bridgeState];
      codes := codes - {bridgeState};
      if checkedAt > pending.expiresAt {
        return InvalidState;
      }
      inflight := inflight[request := Flight(pending, clientState)];
      return Exchanging;
    }

    /** The code exchange, the user lookup, the authorization or the signing failed. */
    method HandleCallbackFail(request: nat) returns (r: Response)
      requires Enabled(View(), CallbackFail(request))
      modifies this
      ensures View() == Apply(cfg, MAX_PENDING_CODES, old(View()), CallbackFail(request))
      ensures r == CallbackFailed
    {
      inflight := inflight - {request};
      return CallbackFailed;
    }

    /** The second half of /callback: store the minted JWT under a one-time code and redirect. */
    method HandleCallbackStore(at: int, request: nat, code: string, jwt: string) returns (r: Response)
      requires Enabled(View(), CallbackStore(at, request, code, jwt))
      modifies this
      ensures View() == Apply(cfg, MAX_PENDING_CODES, old(View()), CallbackStore(at, request, code, jwt))
      ensures r == Respond(cfg, MAX_PENDING_CODES, old(View()), CallbackStore(at, request, code, jwt))
    {
      var flight := inflight[request];
      inflight := inflight - {request};
      clock := at;
      if |codes| >= MAX_PENDING_CODES {
        return Busy;
      }
      codes := codes[code := Pending(jwt, at + CODE_TTL, "")];
      var redirectURL := flight.pending.redirectURI;
      if redirectURL == "" {
        return CallbackFailed;
      }
      if !cfg.parses(redirectURL) {
        return CallbackFailed;
      }
      return RedirectTo(redirectURL, code, flight.clientState);
    }

    method HandleToken(at: int, checkedAt: int, code: string) returns (r: Response)
      requires Enabled(View(), Redeem(at, checkedAt, code))
      modifies this
      ensures View() == Apply(cfg, MAX_PENDING_CODES, old(View()), Redeem(at, checkedAt, code))
      ensures r == Respond(cfg, MAX_PENDING_CODES, old(View()), Redeem(at, checkedAt, code))
    {
      clock := at;
      if code !in codes {
        return InvalidGrant;
      }
      var pending := codes[code];
      codes := codes - {code};
      if checkedAt > pending.expiresAt || pending.jwt == "" {
        return InvalidGrant;
      }
      return Token(pending.jwt);
    }

    /** One tick of the sweeper: a loop over the map that deletes what had expired at `readAt`. */
    method SweepExpiredCodes(at: int, readAt: int)
      requires Enabled(View(), Sweep(at, readAt))
      modifies this
      ensures View() == Apply(cfg, MAX_PENDING_CODES, old(View()), Sweep(at, readAt))
    {
      clock := at;
      codes := DeleteExpired(codes, readAt);
    }
  }

  method DeleteExpired(codes: map<string, Pending>, now: int) returns (kept: map<string, Pending>)
    ensures kept == codes - (set c | c in codes && Expired(codes[c], now))
  {
    kept := codes;
    var left := codes.Keys;
    while left != {}
      invariant left <= kept.Keys && kept.Keys <= codes.Keys
      invariant forall c :: c in kept ==> kept[c] == codes[c]
      invariant forall c :: c in codes && c !in left ==> (c in kept <==> !Expired(codes[c], now))
      decreases |left|
    {
      var k :| k in left;
      if now > kept[k].expiresAt {
        kept := kept - {k};
      }
      left := left - {k};
    }
  }
}
