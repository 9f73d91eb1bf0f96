/**
 The auth bridge's pending-code store (internal/authbridge/server.go): one mutex-guarded map
 that holds both OAuth states and one-time codes, used by concurrent /authorize, /callback and
 /token handlers and a sweeper. It carries the authorization code grant of section 4.1 of
 RFC 6749; section 4.1.2 asks for single use and short expiry.

 Every lock section is one atomic event, so a run is any interleaving of handlers. /callback
 has two lock sections; between them its entry is in flight. A handler that reads the clock
 after its lock section reads some time no earlier than the lock section's own; the sweeper
 reads the clock before it takes the lock.
 */
module CodeStore {
  import opened AuthState

  const MAX_PENDING_CODES: nat := 10000
  const STATE_TTL := 300
  const CODE_TTL := 60

  datatype Pending = Pending(jwt: string, expiresAt: int, redirectURI: string)
  datatype Flight = Flight(pending: Pending, clientState: string)
  datatype State = State(codes: map<string, Pending>, inflight: map<nat, Flight>, clock: int)

  /** The two questions the handlers ask about a redirect URI. */
  datatype Config = Config(allowed: string -> bool, parses: string -> bool)

  ghost predicate Redirectable(cfg: Config) {
    forall uri :: cfg.allowed(uri) ==> uri != "" && cfg.parses(uri)
  }

  predicate Expired(p: Pending, now: int) {
    now > p.expiresAt
  }

  predicate IsState(cfg: Config, p: Pending) {
    p.jwt == "" && cfg.allowed(p.redirectURI)
  }

  predicate IsCode(p: Pending) {
    p.jwt != "" && p.redirectURI == ""
  }

  // ----------------------------------------------------------------------------- events

  datatype Event =
    | Authorize(at: int, uri: string, clientState: string, code: string)
    | CallbackTake(at: int, checkedAt: int, request: nat, combined: string)
    | CallbackFail(request: nat)
    | CallbackStore(at: int, request: nat, code: string, jwt: string)
    | Redeem(at: int, checkedAt: int, code: string)
    | Sweep(at: int, readAt: int)

  /** The clock is monotone, requests are distinct, and a minted JWT is not empty. */
  predicate Enabled(s: State, e: Event) {
    match e
    case Authorize(at, _, _, _) => s.clock <= at
    case CallbackTake(at, checkedAt, request, _) => s.clock <= at <= checkedAt && request !in s.inflight
    case CallbackFail(request) => request in s.inflight
    case CallbackStore(at, request, _, jwt) => s.clock <= at && request in s.inflight && jwt != ""
    case Redeem(at, checkedAt, _) => s.clock <= at <= checkedAt
    case Sweep(at, readAt) => s.clock <= at && readAt <= at
  }

  /** What a lock section does to the map and to the callbacks in flight. */
  datatype Effect =
    | Idle
    | Insert(code: string, pending: Pending)
    | TakeOff(code: string, request: nat, clientState: string)
    | Spend(code: string, answered: bool)
    | Ditch(request: nat)
    | Land(request: nat, code: string, pending: Pending)
    | Clear(codes: set<string>)

  function EffectOf(cfg: Config, cap: nat, s: State, e: Event): Effect
    requires Enabled(s, e)
  {
    match e
    case Authorize(at, uri, _, code) =>
      if cfg.allowed(uri) && |s.codes| < cap then Insert(code, Pending("", at + STATE_TTL, uri)) else Idle
    case CallbackTake(_, checkedAt, request, combined) =>
      var bridge := Split(combined).0;
      if bridge !in s.codes then Idle
      else if Expired(s.codes[bridge], checkedAt) then Spend(bridge, false)
      else TakeOff(bridge, request, Split(combined).1)
    case CallbackFail(request) => Ditch(request)
    case CallbackStore(at, request, code, jwt) =>
      if |s.codes| < cap then Land(request, code, Pending(jwt, at + CODE_TTL, "")) else Ditch(request)
    case Redeem(_, checkedAt, code) =>
      if code !in s.codes then Idle
      else Spend(code, !Expired(s.codes[code], checkedAt) && s.codes[code].jwt != "")
    case Sweep(_, readAt) => Clear(set c | c in s.codes && Expired(s.codes[c], readAt))
  }

  function Perform(s: State, f: Effect): State {
    match f
    case Idle => s
    case Insert(code, p) => s.(codes := s.codes[code := p])
    case TakeOff(code, request, clientState) =>
      if code in s.codes then s.(codes := s.codes - {code},
                                      inflight := s.inflight[request := Flight(s.codes[code], clientState)])
      else s
    case Spend(code, _) => s.(codes := s.codes - {code})
    case Ditch(request) => s.(inflight := s.inflight - {request})
    case Land(request, code, p) => s.(codes := s.codes[code := p], inflight := s.inflight - {request})
    case Clear(codes) => s.(codes := s.codes - codes)
  }

  function Apply(cfg: Config, cap: nat, s: State, e: Event): State
    requires Enabled(s, e)
  {
    Perform(s, EffectOf(cfg, cap, s, e)).(clock := if e.CallbackFail? then s.clock else e.at)
  }

  datatype Response =
    | BadRedirect | Busy | SentToProvider(state: string)
    | InvalidState | Exchanging | CallbackFailed | RedirectTo(uri: string, code: string, clientState: string)
    | InvalidGrant | Token(jwt: string)
    | NoResponse

  function Respond(cfg: Config, cap: nat, s: State, e: Event): Response
    requires Enabled(s, e)
  {
    match e
    case Authorize(_, uri, clientState, code) =>
      if !cfg.allowed(uri) then BadRedirect
      else if |s.codes| >= cap then Busy
      else SentToProvider(code + ":" + clientState)
    case CallbackTake(_, _, _, _) => if EffectOf(cfg, cap, s, e).TakeOff? then Exchanging else InvalidState
    case CallbackFail(_) => CallbackFailed
    case CallbackStore(_, request, code, _) =>
      var uri := s.inflight[request].pending.redirectURI;
      if |s.codes| >= cap then Busy
      else if uri == "" || !cfg.parses(uri) then CallbackFailed
      else RedirectTo(uri, code, s.inflight[request].clientState)
    case Redeem(_, _, code) =>
      if code in s.codes && EffectOf(cfg, cap, s, e).answered then Token(s.codes[code].jwt) else InvalidGrant
    case Sweep(_, _) => NoResponse
  }

  /** Every interleaving of handlers and sweeps from an empty store. */
  ghost predicate Execution(cfg: Config, cap: nat, ss: seq<State>, es: seq<Event>) {
    && |ss| == |es| + 1
    && ss[0].codes == map[] && ss[0].inflight == map[]
    && forall i :: 0 <= i < |es| ==> Enabled(ss[i], es[i]) && ss[i + 1] == Apply(cfg, cap, ss[i], es[i])
  }

  /** What an event may do: insert a state or a code below the cap, move or remove what is there. */
  predicate Legitimate(cfg: Config, cap: nat, s: State, f: Effect) {
    match f
    case Idle => true
    case Insert(_, p) => |s.codes| < cap && IsState(cfg, p)
    case TakeOff(code, request, _) => code in s.codes && request !in s.inflight
    case Spend(code, answered) => code in s.codes && (answered ==> s.codes[code].jwt != "")
    case Ditch(request) => request in s.inflight
    case Land(request, _, p) => request in s.inflight && |s.codes| < cap && IsCode(p)
    case Clear(codes) => codes <= s.codes.Keys
  }

  lemma EffectsAreLegitimate(cfg: Config, cap: nat, s: State, e: Event)
    requires Enabled(s, e)
    ensures Legitimate(cfg, cap, s, EffectOf(cfg, cap, s, e))
  {
  }

  // ----------------------------------------------------------------- the shape of entries

  /** Every entry stored or in flight is a state or a code. */
  ghost predicate Shaped(cfg: Config, s: State) {
    && (forall c :: c in s.codes ==> IsState(cfg, s.codes[c]) || IsCode(s.codes[c]))
    && (forall r :: r in s.inflight ==> IsState(cfg, s.inflight[r].pending) || IsCode(s.inflight[r].pending))
  }

  lemma RemovalShrinks<K, V>(m: map<K, V>, keys: set<K>)
    ensures |m - keys| <= |m|
    ensures keys <= m.Keys ==> |m - keys| == |m| - |keys|
  {
    assert (m - keys).Keys == m.Keys - keys;
    assert m.Keys == (m.Keys - keys) + (m.Keys * keys);
    assert keys <= m.Keys ==> m.Keys * keys == keys;
  }

  lemma InsertGrows<K, V>(m: map<K, V>, key: K, v: V)
    ensures |m[key := v]| == if key in m then |m| else |m| + 1
  {
    assert m[key := v].Keys == m.Keys + {key};
    assert key in m ==> m.Keys + {key} == m.Keys;
  }

  lemma EffectKeepsCap(cfg: Config, cap: nat, s: State, f: Effect)
    requires |s.codes| <= cap && Legitimate(cfg, cap, s, f)
    ensures |Perform(s, f).codes| <= cap
  {
    match f
    case Idle =>
    case Insert(code, p) => InsertGrows(s.codes, code, p);
    case TakeOff(code, _, _) => RemovalShrinks(s.codes, {code});
    case Spend(code, _) => RemovalShrinks(s.codes, {code});
    case Ditch(_) =>
    case Land(_, code, p) => InsertGrows(s.codes, code, p);
    case Clear(codes) => RemovalShrinks(s.codes, codes);
  }

  lemma EffectKeepsShape(cfg: Config, cap: nat, s: State, f: Effect)
    requires Shaped(cfg, s) && Legitimate(cfg, cap, s, f)
    ensures Shaped(cfg, Perform(s, f))
  {
  }

  lemma {:induction false} StoreKeepsShape(cfg: Config, cap: nat, ss: seq<State>, es: seq<Event>, n: nat)
    requires Execution(cfg, cap, ss, es) && n < |ss|
    ensures |ss[n].codes| <= cap && Shaped(cfg, ss[n])
  {
    if n > 0 {
      StoreKeepsShape(cfg, cap, ss, es, n - 1);
      EffectsAreLegitimate(cfg, cap, ss[n - 1], es[n - 1]);
      EffectKeepsCap(cfg, cap, ss[n - 1], EffectOf(cfg, cap, ss[n - 1], es[n - 1]));
      EffectKeepsShape(cfg, cap, ss[n - 1], EffectOf(cfg, cap, ss[n - 1], es[n - 1]));
    }
  }

  /**
   In every interleaving the store stays within its cap, /token answers only with a code's own
   JWT and never for a state, and a callback redirects only to a URI that was allowed.
   */
  lemma ResponsesAreSound(cfg: Config, cap: nat, ss: seq<State>, es: seq<Event>, n: nat)
    requires Execution(cfg, cap, ss, es) && n < |es|
    ensures |ss[n].codes| <= cap
    ensures var r := Respond(cfg, cap, ss[n], es[n]);
            && (r.Token? ==> es[n].Redeem? && es[n].code in ss[n].codes && IsCode(ss[n].codes[es[n].code])
                             && r.jwt == ss[n].codes[es[n].code].jwt)
            && (r.RedirectTo? ==> cfg.allowed(r.uri))
  {
    StoreKeepsShape(cfg, cap, ss, es, n);
  }

  // ------------------------------------------------------------------------- conservation

  /** Where the login attempt that one accepted /authorize started is now. */
  datatype Place = InStore(code: string) | InFlight(request: nat) | Answered | Dropped

  /**
   The books: the place of every accepted /authorize in order of acceptance, which attempt each
   entry and each in-flight callback belongs to, the attempts that got a JWT, and the codes
   issued and consumed so far.
   */
  datatype Audit = Audit(place: seq<Place>, origin: map<string, nat>, flying: map<nat, nat>, answered: seq<nat>,
                         issued: set<string>, consumed: seq<string>)

  const CLEAN_BOOKS := Audit([], map[], map[], [], {}, [])

  function Move(place: seq<Place>, id: nat, to: Place): (r: seq<Place>)
    ensures |r| == |place|
  {
    if id < |place| then place[id := to] else place
  }

  function At<K(==)>(m: map<K, nat>, k: K): nat {
    if k in m then m[k] else 0
  }

  function DropAll(place: seq<Place>, codes: set<string>): (r: seq<Place>)
    ensures |r| == |place|
  {
    seq(|place|, i requires 0 <= i < |place| =>
        if place[i].InStore? && place[i].code in codes then Dropped else place[i])
  }

  function Book(a: Audit, f: Effect): Audit {
    match f
    case Idle => a
    case Insert(code, _) =>
      a.(place := a.place + [InStore(code)], origin := a.origin[code := |a.place|], issued := a.issued + {code})
    case TakeOff(code, request, _) =>
      var id := At(a.origin, code);
      a.(place := Move(a.place, id, InFlight(request)), origin := a.origin - {code}, flying := a.flying[request := id],
         consumed := a.consumed + [code])
    case Spend(code, answered) =>
      var id := At(a.origin, code);
      a.(place := Move(a.place, id, if answered then Answered else Dropped), origin := a.origin - {code},
         answered := if answered then a.answered + [id] else a.answered, consumed := a.consumed + [code])
    case Ditch(request) =>
      a.(place := Move(a.place, At(a.flying, request), Dropped), flying := a.flying - {request})
    case Land(request, code, _) =>
      var id := At(a.flying, request);
      a.(place := Move(a.place, id, InStore(code)), origin := a.origin[code := id], flying := a.flying - {request},
         issued := a.issued + {code})
    case Clear(codes) =>
      a.(origin := a.origin - codes, place := DropAll(a.place, codes))
  }

  /** Random codes do not repeat. */
  predicate Fresh(f: Effect, a: Audit) {
    (f.Insert? || f.Land?) ==> f.code !in a.issued
  }

  ghost predicate AuditedExecution(cfg: Config, cap: nat, ss: seq<State>, es: seq<Event>, books: seq<Audit>) {
    && Execution(cfg, cap, ss, es) && |books| == |ss| && books[0] == CLEAN_BOOKS
    && forall i :: 0 <= i < |es| ==>
                     && Fresh(EffectOf(cfg, cap, ss[i], es[i]), books[i])
                     && books[i + 1] == Book(books[i], EffectOf(cfg, cap, ss[i], es[i]))
  }

  /** `origin` is exactly the inverse of "is in the store under this code". */
  ghost predicate StoreAgrees(origin: map<string, nat>, place: seq<Place>) {
    && (forall c :: c in origin ==> origin[c] < |place| && place[origin[c]] == InStore(c))
    && (forall i :: 0 <= i < |place| && place[i].InStore? ==> place[i].code in origin && origin[place[i].code] == i)
  }

  /** `flying` is exactly the inverse of "is in flight with this request". */
  ghost predicate FlightsAgree(flying: map<nat, nat>, place: seq<Place>) {
    && (forall r :: r in flying ==> flying[r] < |place| && place[flying[r]] == InFlight(r))
    && (forall i :: 0 <= i < |place| && place[i].InFlight?
            ==> place[i].request in flying && flying[place[i].request] == i)
  }

  /** The store and the callbacks in flight agree with the books about who is where. */
  ghost predicate Located(s: State, a: Audit) {
    && a.origin.Keys == s.codes.Keys && a.flying.Keys == s.inflight.Keys
    && StoreAgrees(a.origin, a.place) && FlightsAgree(a.flying, a.place)
  }

  /** No login attempt is answered twice. */
  ghost predicate AnsweredOnce(a: Audit) {
    && (forall j :: 0 <= j < |a.answered| ==> a.answered[j] < |a.place| && a.place[a.answered[j]].Answered?)
    && (forall i, j :: 0 <= i < j < |a.answered| ==> a.answered[i] != a.answered[j])
    && (forall i :: 0 <= i < |a.place| && a.place[i].Answered? ==> i in a.answered)
  }

  /** A consumed code was issued, is not in the store, and is consumed only once. */
  ghost predicate ConsumedOnce(s: State, a: Audit) {
    && s.codes.Keys <= a.issued
    && (forall i :: 0 <= i < |a.consumed| ==> a.consumed[i] in a.issued && a.consumed[i] !in s.codes)
    && (forall i, j :: 0 <= i < j < |a.consumed| ==> a.consumed[i] != a.consumed[j])
  }

  lemma MoveKeepsStore(origin: map<string, nat>, place: seq<Place>, id: nat, to: Place)
    requires StoreAgrees(origin, place) && id < |place|
    requires to.InStore? ==> to.code !in origin
    ensures var left := if place[id].InStore? then origin - {place[id].code} else origin;
            StoreAgrees(if to.InStore? then left[to.code := id] else left, place[id := to])
  {
  }

  lemma MoveKeepsFlights(flying: map<nat, nat>, place: seq<Place>, id: nat, to: Place)
    requires FlightsAgree(flying, place) && id < |place|
    requires to.InFlight? ==> to.request !in flying
    ensures var left := if place[id].InFlight? then flying - {place[id].request} else flying;
            FlightsAgree(if to.InFlight? then left[to.request := id] else left, place[id := to])
  {
  }

  lemma AppendKeepsAgreement(origin: map<string, nat>, flying: map<nat, nat>, place: seq<Place>, code: string)
    requires StoreAgrees(origin, place) && FlightsAgree(flying, place) && code !in origin
    ensures StoreAgrees(origin[code := |place|], place + [InStore(code)])
            && FlightsAgree(flying, place + [InStore(code)])
  {
  }

  lemma ClearKeepsAgreement(origin: map<string, nat>, flying: map<nat, nat>, place: seq<Place>, codes: set<string>)
    requires StoreAgrees(origin, place) && FlightsAgree(flying, place)
    ensures StoreAgrees(origin - codes, DropAll(place, codes)) && FlightsAgree(flying, DropAll(place, codes))
  {
  }

  lemma TakeOffKeepsLocated(s: State, a: Audit, code: string, request: nat, clientState: string)
    requires Located(s, a) && code in s.codes && request !in s.inflight
    ensures Located(Perform(s, TakeOff(code, request, clientState)), Book(a, TakeOff(code, request, clientState)))
  {
    MoveKeepsStore(a.origin, a.place, a.origin[code], InFlight(request));
    MoveKeepsFlights(a.flying, a.place, a.origin[code], InFlight(request));
  }

  lemma SpendKeepsLocated(s: State, a: Audit, code: string, answered: bool)
    requires Located(s, a) && code in s.codes
    ensures Located(Perform(s, Spend(code, answered)), Book(a, Spend(code, answered)))
  {
    MoveKeepsStore(a.origin, a.place, a.origin[code], if answered then Answered else Dropped);
    MoveKeepsFlights(a.flying, a.place, a.origin[code], if answered then Answered else Dropped);
  }

  lemma DitchKeepsLocated(s: State, a: Audit, request: nat)
    requires Located(s, a) && request in s.inflight
    ensures Located(Perform(s, Ditch(request)), Book(a, Ditch(request)))
  {
    MoveKeepsStore(a.origin, a.place, a.flying[request], Dropped);
    MoveKeepsFlights(a.flying, a.place, a.flying[request], Dropped);
  }

  lemma LandKeepsLocated(s: State, a: Audit, request: nat, code: string, p: Pending)
    requires Located(s, a) && request in s.inflight && code !in s.codes
    ensures Located(Perform(s, Land(request, code, p)), Book(a, Land(request, code, p)))
  {
    MoveKeepsStore(a.origin, a.place, a.flying[request], InStore(code));
    MoveKeepsFlights(a.flying, a.place, a.flying[request], InStore(code));
  }

  lemma EffectKeepsLocated(cfg: Config, cap: nat, s: State, f: Effect, a: Audit)
    requires Legitimate(cfg, cap, s, f) && Fresh(f, a) && Located(s, a) && s.codes.Keys <= a.issued
    ensures Located(Perform(s, f), Book(a, f))
  {
    match f
    case Idle =>
    case Insert(code, _) => AppendKeepsAgreement(a.origin, a.flying, a.place, code);
    case TakeOff(code, request, clientState) => TakeOffKeepsLocated(s, a, code, request, clientState);
    case Spend(code, answered) => SpendKeepsLocated(s, a, code, answered);
    case Ditch(request) => DitchKeepsLocated(s, a, request);
    case Land(request, code, p) => LandKeepsLocated(s, a, request, code, p);
    case Clear(codes) => ClearKeepsAgreement(a.origin, a.flying, a.place, codes);
  }

  lemma MoveKeepsAnswers(a: Audit, id: nat, to: Place)
    requires AnsweredOnce(a) && id < |a.place| && !a.place[id].Answered?
    ensures !to.Answered? ==> AnsweredOnce(a.(place := a.place[id := to]))
    ensures to.Answered? ==> AnsweredOnce(a.(place := a.place[id := to], answered := a.answered + [id]))
  {
  }

  lemma AppendKeepsAnswers(a: Audit, code: string)
    requires AnsweredOnce(a)
    ensures AnsweredOnce(a.(place := a.place + [InStore(code)]))
  {
  }

  lemma ClearKeepsAnswers(a: Audit, codes: set<string>)
    requires AnsweredOnce(a)
    ensures AnsweredOnce(a.(place := DropAll(a.place, codes)))
  {
  }

  /** Only the places and the answers matter. */
  lemma SameAnswers(a: Audit, b: Audit)
    requires AnsweredOnce(a) && b.place == a.place && b.answered == a.answered
    ensures AnsweredOnce(b)
  {
  }

  lemma EffectKeepsAnsweredOnce(cfg: Config, cap: nat, s: State, f: Effect, a: Audit)
    requires Legitimate(cfg, cap, s, f) && Located(s, a) && AnsweredOnce(a)
    ensures AnsweredOnce(Book(a, f))
  {
    var b := Book(a, f);
    match f
    case Idle =>
    case Insert(code, _) =>
      AppendKeepsAnswers(a, code);
      SameAnswers(a.(place := b.place), b);
    case TakeOff(code, request, _) =>
      MoveKeepsAnswers(a, a.origin[code], InFlight(request));
      SameAnswers(a.(place := b.place), b);
    case Spend(code, answered) =>
      MoveKeepsAnswers(a, a.origin[code], if answered then Answered else Dropped);
      SameAnswers(a.(place := b.place, answered := b.answered), b);
    case Ditch(request) =>
      MoveKeepsAnswers(a, a.flying[request], Dropped);
      SameAnswers(a.(place := b.place), b);
    case Land(request, code, _) =>
      MoveKeepsAnswers(a, a.flying[request], InStore(code));
      SameAnswers(a.(place := b.place), b);
    case Clear(codes) =>
      ClearKeepsAnswers(a, codes);
      SameAnswers(a.(place := b.place), b);
  }

  lemma EffectKeepsConsumedOnce(cfg: Config, cap: nat, s: State, f: Effect, a: Audit)
    requires Legitimate(cfg, cap, s, f) && Fresh(f, a) && ConsumedOnce(s, a)
    ensures ConsumedOnce(Perform(s, f), Book(a, f))
  {
  }

  ghost predicate Balanced(s: State, a: Audit) {
    Located(s, a) && AnsweredOnce(a) && ConsumedOnce(s, a)
  }

  lemma EventKeepsBalance(cfg: Config, cap: nat, s: State, e: Event, a: Audit)
    requires Enabled(s, e) && Balanced(s, a) && Fresh(EffectOf(cfg, cap, s, e), a)
    ensures Balanced(Apply(cfg, cap, s, e), Book(a, EffectOf(cfg, cap, s, e)))
  {
    var f := EffectOf(cfg, cap, s, e);
    EffectsAreLegitimate(cfg, cap, s, e);
    EffectKeepsLocated(cfg, cap, s, f, a);
    EffectKeepsAnsweredOnce(cfg, cap, s, f, a);
    EffectKeepsConsumedOnce(cfg, cap, s, f, a);
    ClockIsNotBooked(Perform(s, f), Book(a, f), Apply(cfg, cap, s, e).clock);
  }

  lemma {:induction false} BooksBalance(cfg: Config, cap: nat, ss: seq<State>, es: seq<Event>,
                                        books: seq<Audit>, n: nat)
    requires AuditedExecution(cfg, cap, ss, es, books) && n < |ss|
    ensures Balanced(ss[n], books[n])
  {
    if n > 0 {
      BooksBalance(cfg, cap, ss, es, books, n - 1);
      EventKeepsBalance(cfg, cap, ss[n - 1], es[n - 1], books[n - 1]);
    }
  }

  lemma ClockIsNotBooked(s: State, a: Audit, clock: int)
    requires Located(s, a) && ConsumedOnce(s, a)
    ensures Located(s.(clock := clock), a) && ConsumedOnce(s.(clock := clock), a)
  {
  }

  // ----------------------------------------------------------------------------- counting

  /** The login attempts that were dropped: expired, swept, failed or turned away. */
  function DroppedPlaces(place: seq<Place>): set<nat> {
    set i | 0 <= i < |place| && place[i].Dropped?
  }

  lemma {:induction false} ImageSize<K>(m: map<K, nat>)
    requires forall j, k :: j in m && k in m && j != k ==> m[j] != m[k]
    ensures |m.Values| == |m|
  {
    if m.Keys != {} {
      var k :| k in m;
      var rest := m - {k};
      assert m.Keys == rest.Keys + {k};
      assert m.Values == rest.Values + {m[k]};
      assert m[k] !in rest.Values;
      ImageSize(rest);
    }
  }

  function Members(ids: seq<nat>): set<nat> {
    set i | i in ids
  }

  lemma {:induction false} DistinctSize(ids: seq<nat>)
    requires forall i, j :: 0 <= i < j < |ids| ==> ids[i] != ids[j]
    ensures |Members(ids)| == |ids|
  {
    if ids != [] {
      var n := |ids| - 1;
      DistinctSize(ids[..n]);
      assert ids == ids[..n] + [ids[n]];
      assert Members(ids) == Members(ids[..n]) + {ids[n]};
    }
  }

  function Indices(n: nat): (r: set<nat>)
    ensures |r| == n && forall i: nat :: i in r <==> i < n
  {
    if n == 0 then {} else Indices(n - 1) + {n - 1}
  }

  lemma UnionSize(a: set<nat>, b: set<nat>)
    requires a !! b
    ensures |a + b| == |a| + |b|
  {
  }

  lemma StoredPlaces(origin: map<string, nat>, place: seq<Place>)
    requires StoreAgrees(origin, place)
    ensures |origin.Values| == |origin.Keys|
    ensures forall i: nat :: i in origin.Values <==> i < |place| && place[i].InStore?
  {
    ImageSize(origin);
    forall i: nat | i < |place| && place[i].InStore? ensures i in origin.Values {
      assert origin[place[i].code] == i;
    }
  }

  lemma FlyingPlaces(flying: map<nat, nat>, place: seq<Place>)
    requires FlightsAgree(flying, place)
    ensures |flying.Values| == |flying.Keys|
    ensures forall i: nat :: i in flying.Values <==> i < |place| && place[i].InFlight?
  {
    ImageSize(flying);
    forall i: nat | i < |place| && place[i].InFlight? ensures i in flying.Values {
      assert flying[place[i].request] == i;
    }
  }

  lemma AnsweredPlaces(a: Audit)
    requires AnsweredOnce(a)
    ensures |Members(a.answered)| == |a.answered|
    ensures forall i: nat :: i in Members(a.answered) <==> i < |a.place| && a.place[i].Answered?
  {
    DistinctSize(a.answered);
  }

  /** Whether the attempt is over, one way or the other. */
  function Over(place: seq<Place>): set<nat> {
    set i | 0 <= i < |place| && (place[i].Answered? || place[i].Dropped?)
  }

  lemma OverSize(place: seq<Place>, answered: set<nat>)
    requires forall i: nat :: i in answered <==> i < |place| && place[i].Answered?
    ensures |Over(place)| == |answered| + |DroppedPlaces(place)|
  {
    UnionSize(answered, DroppedPlaces(place));
    assert Over(place) == answered + DroppedPlaces(place);
  }

  lemma PlacesSize(place: seq<Place>, stored: set<nat>, flying: set<nat>)
    requires forall i: nat :: i in stored <==> i < |place| && place[i].InStore?
    requires forall i: nat :: i in flying <==> i < |place| && place[i].InFlight?
    ensures |place| == |stored| + |flying| + |Over(place)|
  {
    UnionSize(stored, flying);
    UnionSize(stored + flying, Over(place));
    assert stored + flying + Over(place) == Indices(|place|);
  }

  /** Every accepted request is in exactly one place. */
  lemma Tally(s: State, a: Audit)
    requires Located(s, a) && AnsweredOnce(a)
    ensures |a.place| == |s.codes.Keys| + |s.inflight.Keys| + |a.answered| + |DroppedPlaces(a.place)|
  {
    StoredPlaces(a.origin, a.place);
    FlyingPlaces(a.flying, a.place);
    AnsweredPlaces(a);
    OverSize(a.place, Members(a.answered));
    PlacesSize(a.place, a.origin.Values, a.flying.Values);
  }

  /** The books record what the handlers answer: one accepted request, one delivered JWT at a time. */
  lemma BooksFollowResponses(cfg: Config, cap: nat, s: State, e: Event, a: Audit)
    requires Enabled(s, e)
    ensures var b, r := Book(a, EffectOf(cfg, cap, s, e)), Respond(cfg, cap, s, e);
            && |b.place| == |a.place| + (if r.SentToProvider? then 1 else 0)
            && |b.answered| == |a.answered| + (if r.Token? then 1 else 0)
  {
    var f := EffectOf(cfg, cap, s, e);
    assert f.Insert? <==> Respond(cfg, cap, s, e).SentToProvider?;
  }

  /** How many of the first `n` events were /authorize requests sent on to the identity provider. */
  ghost function Accepted(cfg: Config, cap: nat, ss: seq<State>, es: seq<Event>, n: nat): nat
    requires Execution(cfg, cap, ss, es) && n <= |es|
  {
    if n == 0 then 0
    else Accepted(cfg, cap, ss, es, n - 1) + if Respond(cfg, cap, ss[n - 1], es[n - 1]).SentToProvider? then 1 else 0
  }

  /** How many of them were /token requests answered with a JWT. */
  ghost function Delivered(cfg: Config, cap: nat, ss: seq<State>, es: seq<Event>, n: nat): nat
    requires Execution(cfg, cap, ss, es) && n <= |es|
  {
    if n == 0 then 0
    else Delivered(cfg, cap, ss, es, n - 1) + if Respond(cfg, cap, ss[n - 1], es[n - 1]).Token? then 1 else 0
  }

  lemma {:induction false} BooksCountAnswers(cfg: Config, cap: nat, ss: seq<State>, es: seq<Event>,
                                             books: seq<Audit>, n: nat)
    requires AuditedExecution(cfg, cap, ss, es, books) && n < |ss|
    ensures |books[n].place| == Accepted(cfg, cap, ss, es, n) && |books[n].answered| == Delivered(cfg, cap, ss, es, n)
  {
    if n > 0 {
      BooksCountAnswers(cfg, cap, ss, es, books, n - 1);
      BooksFollowResponses(cfg, cap, ss[n - 1], es[n - 1], books[n - 1]);
    }
  }

  /**
   Conservation over every interleaving, given fresh codes: the /authorize requests accepted so
   far are the entries in the store, the callbacks in flight, the JWTs delivered by /token and
   the attempts dropped; no request is answered twice and no code is consumed twice.
   */
  lemma AuthorizeConservation(cfg: Config, cap: nat, ss: seq<State>, es: seq<Event>, books: seq<Audit>, n: nat)
    requires AuditedExecution(cfg, cap, ss, es, books) && n < |ss|
    ensures Accepted(cfg, cap, ss, es, n)
         == |ss[n].codes| + |ss[n].inflight| + Delivered(cfg, cap, ss, es, n) + |DroppedPlaces(books[n].place)|
    ensures forall i, j :: 0 <= i < j < |books[n].answered| ==> books[n].answered[i] != books[n].answered[j]
    ensures forall i, j :: 0 <= i < j < |books[n].consumed| ==> books[n].consumed[i] != books[n].consumed[j]
  {
    BooksBalance(cfg, cap, ss, es, books, n);
    BooksCountAnswers(cfg, cap, ss, es, books, n);
    Tally(ss[n], books[n]);
    assert |ss[n].codes| == |ss[n].codes.Keys| && |ss[n].inflight| == |ss[n].inflight.Keys|;
  }

  // ------------------------------------------------------------------ sweeps are invisible

  ghost predicate Legal(cfg: Config, cap: nat, s: State, es: seq<Event>)
    decreases |es|
  {
    es == [] || (Enabled(s, es[0]) && Legal(cfg, cap, Apply(cfg, cap, s, es[0]), es[1..]))
  }

  /** What the callers of /authorize, /callback and /token see. */
  ghost function Visible(cfg: Config, cap: nat, s: State, es: seq<Event>): seq<Response>
    requires Legal(cfg, cap, s, es)
    decreases |es|
  {
    if es == [] then []
    else
      var rest := Visible(cfg, cap, Apply(cfg, cap, s, es[0]), es[1..]);
      if es[0].Sweep? then rest else [Respond(cfg, cap, s, es[0])] + rest
  }

  function WithoutSweeps(es: seq<Event>): seq<Event> {
    if es == [] then []
    else if es[0].Sweep? then WithoutSweeps(es[1..])
    else [es[0]] + WithoutSweeps(es[1..])
  }

  /** The size cap is never hit. */
  ghost predicate NeverBusy(cfg: Config, cap: nat, s: State, es: seq<Event>)
    decreases |es|
  {
    es != [] && Enabled(s, es[0]) ==>
      !Respond(cfg, cap, s, es[0]).Busy? && NeverBusy(cfg, cap, Apply(cfg, cap, s, es[0]), es[1..])
  }

  /** `s` is `t` without some entries that have expired. */
  ghost predicate Hides(s: State, t: State) {
    && s.inflight == t.inflight && t.clock <= s.clock
    && (forall c :: c in s.codes ==> c in t.codes && t.codes[c] == s.codes[c])
    && (forall c :: c in t.codes && c !in s.codes ==> Expired(t.codes[c], s.clock))
  }

  lemma SubsetIsNoLarger<T>(a: set<T>, b: set<T>)
    requires a <= b
    ensures |a| <= |b|
  {
    assert b == a + (b - a);
  }

  lemma SameAnswer(cfg: Config, cap: nat, s: State, t: State, e: Event)
    requires Hides(s, t) && Enabled(s, e) && !e.Sweep? && !(Enabled(t, e) && Respond(cfg, cap, t, e).Busy?)
    ensures Enabled(t, e) && Respond(cfg, cap, s, e) == Respond(cfg, cap, t, e)
  {
    SubsetIsNoLarger(s.codes.Keys, t.codes.Keys);
  }

  /** Both stores do the same, or the swept one has nothing to do where the other discards an expired entry. */
  lemma SameEffect(cfg: Config, cap: nat, s: State, t: State, e: Event)
    requires Hides(s, t) && Enabled(s, e) && !e.Sweep? && Enabled(t, e) && !Respond(cfg, cap, t, e).Busy?
    ensures var f, g := EffectOf(cfg, cap, s, e), EffectOf(cfg, cap, t, e);
            f == g || (f.Idle? && g.Spend? && g.code !in s.codes)
  {
    SubsetIsNoLarger(s.codes.Keys, t.codes.Keys);
  }

  lemma EffectStaysHidden(cfg: Config, cap: nat, s: State, t: State, f: Effect, g: Effect)
    requires Hides(s, t) && Legitimate(cfg, cap, s, f) && !f.Clear?
    requires f == g || (f.Idle? && g.Spend? && g.code !in s.codes)
    ensures Hides(Perform(s, f), Perform(t, g))
  {
  }

  lemma StaysHidden(cfg: Config, cap: nat, s: State, t: State, e: Event)
    requires Hides(s, t) && Enabled(s, e) && !e.Sweep? && Enabled(t, e) && !Respond(cfg, cap, t, e).Busy?
    ensures Hides(Apply(cfg, cap, s, e), Apply(cfg, cap, t, e))
  {
    EffectsAreLegitimate(cfg, cap, s, e);
    SameEffect(cfg, cap, s, t, e);
    EffectStaysHidden(cfg, cap, s, t, EffectOf(cfg, cap, s, e), EffectOf(cfg, cap, t, e));
  }

  lemma SweepStaysHidden(cfg: Config, cap: nat, s: State, t: State, e: Event)
    requires Hides(s, t) && Enabled(s, e) && e.Sweep?
    ensures Hides(Apply(cfg, cap, s, e), t)
  {
  }

  /**
   A store that sweeps at arbitrary moments and one that never sweeps give the same answers to
   every sequence of requests, provided the one that never sweeps does not hit the size cap.
   */
  lemma {:induction false} SweeperIsTransparent(cfg: Config, cap: nat, s: State, t: State, es: seq<Event>)
    requires Hides(s, t) && Legal(cfg, cap, s, es) && NeverBusy(cfg, cap, t, WithoutSweeps(es))
    ensures Legal(cfg, cap, t, WithoutSweeps(es))
    ensures Visible(cfg, cap, s, es) == Visible(cfg, cap, t, WithoutSweeps(es))
    decreases |es|
  {
    if es != [] {
      var s' := Apply(cfg, cap, s, es[0]);
      if es[0].Sweep? {
        SweepStaysHidden(cfg, cap, s, t, es[0]);
        SweeperIsTransparent(cfg, cap, s', t, es[1..]);
      } else {
        var rest := WithoutSweeps(es);
        assert rest[0] == es[0] && rest[1..] == WithoutSweeps(es[1..]);
        SameAnswer(cfg, cap, s, t, es[0]);
        StaysHidden(cfg, cap, s, t, es[0]);
        SweeperIsTransparent(cfg, cap, s', Apply(cfg, cap, t, es[0]), es[1..]);
      }
    }
  }

  /** The proviso is needed: from a full store of expired entries a sweep makes room
      for a request that is turned away otherwise. */
  lemma SweepMakesRoom(cfg: Config, cap: nat, full: State, now: int, uri: string, code: string)
    requires cfg.allowed(uri) && 0 < cap == |full.codes| && full.clock <= now
    requires forall c :: c in full.codes ==> Expired(full.codes[c], now)
    ensures var swept, e := Apply(cfg, cap, full, Sweep(now, now)), Authorize(now, uri, "", code);
            && Hides(swept, full)
            && Respond(cfg, cap, swept, e).SentToProvider? && Respond(cfg, cap, full, e).Busy?
  {
    assert Apply(cfg, cap, full, Sweep(now, now)).codes == map[];
  }

  lemma ExtendExecution(cfg: Config, cap: nat, ss: seq<State>, es: seq<Event>, e: Event)
    requires Execution(cfg, cap, ss, es) && Enabled(ss[|es|], e)
    ensures Execution(cfg, cap, ss + [Apply(cfg, cap, ss[|es|], e)], es + [e])
  {
  }

  lemma OneMoreLogin(cfg: Config, cap: nat, s: State, e: Event)
    requires e.Authorize? && e.at == 0 && cfg.allowed(e.uri) && e.code !in s.codes && |s.codes| < cap && s.clock == 0
    ensures Apply(cfg, cap, s, e) == State(s.codes[e.code := Pending("", STATE_TTL, e.uri)], s.inflight, 0)
    ensures |Apply(cfg, cap, s, e).codes| == |s.codes| + 1
  {
    InsertGrows(s.codes, e.code, Pending("", STATE_TTL, e.uri));
  }

  /** Such a store is reached for every cap: that many logins at time 0, none of them finished. */
  lemma {:induction false} StoreFillsUp(cfg: Config, cap: nat, uri: string, n: nat)
    returns (ss: seq<State>, es: seq<Event>)
    requires cfg.allowed(uri) && n <= cap
    ensures Execution(cfg, cap, ss, es) && |es| == n
    ensures |ss[n].codes| == n && ss[n].clock == 0
    ensures forall c :: c in ss[n].codes ==> |c| < n && Expired(ss[n].codes[c], STATE_TTL + 1)
  {
    if n == 0 {
      ss, es := [State(map[], map[], 0)], [];
    } else {
      ss, es := StoreFillsUp(cfg, cap, uri, n - 1);
      var s, e := ss[n - 1], Authorize(0, uri, "", seq(n - 1, _ => 'a'));
      OneMoreLogin(cfg, cap, s, e);
      ExtendExecution(cfg, cap, ss, es, e);
      ss, es := ss + [Apply(cfg, cap, s, e)], es + [e];
    }
  }

  // ---------------------------------------------------- a login that keeps to time succeeds

  predicate Takes(e: Event, code: string) {
    (e.CallbackTake? && Split(e.combined).0 == code) || (e.Redeem? && e.code == code)
  }

  lemma EntrySurvives(cfg: Config, cap: nat, s: State, e: Event, a: Audit, code: string)
    requires Enabled(s, e) && Fresh(EffectOf(cfg, cap, s, e), a) && s.codes.Keys <= a.issued
    requires code in s.codes && !Takes(e, code) && Apply(cfg, cap, s, e).clock <= s.codes[code].expiresAt
    ensures code in Apply(cfg, cap, s, e).codes && Apply(cfg, cap, s, e).codes[code] == s.codes[code]
  {
  }

  lemma EventPreserves(cfg: Config, cap: nat, s: State, e: Event, a: Audit, code: string)
    requires Enabled(s, e) && Fresh(EffectOf(cfg, cap, s, e), a) && s.codes.Keys <= a.issued && !Takes(e, code)
    ensures Preserves(s, Apply(cfg, cap, s, e), code)
  {
    if code in s.codes && Apply(cfg, cap, s, e).clock <= s.codes[code].expiresAt {
      EntrySurvives(cfg, cap, s, e, a, code);
    }
  }

  lemma StoreIsIssued(cfg: Config, cap: nat, ss: seq<State>, es: seq<Event>, books: seq<Audit>, n: nat)
    requires AuditedExecution(cfg, cap, ss, es, books) && n < |ss|
    ensures ss[n].codes.Keys <= books[n].issued
  {
    BooksBalance(cfg, cap, ss, es, books, n);
  }

  /** The clock does not go back, and `code` is kept while it has not expired. */
  predicate Preserves(s: State, t: State, code: string) {
    && s.clock <= t.clock
    && (code in s.codes && t.clock <= s.codes[code].expiresAt ==> code in t.codes && t.codes[code] == s.codes[code])
  }

  lemma {:induction false} PreservedAlong(ss: seq<State>, i: nat, j: nat, code: string)
    requires i <= j < |ss| && code in ss[i].codes && ss[j].clock <= ss[i].codes[code].expiresAt
    requires forall k :: i < k <= j ==> Preserves(ss[k - 1], ss[k], code)
    ensures code in ss[j].codes && ss[j].codes[code] == ss[i].codes[code]
    decreases j
  {
    if i < j {
      assert Preserves(ss[j - 1], ss[j], code);
      PreservedAlong(ss, i, j - 1, code);
    }
  }

  /** Whatever other handlers and the sweeper do, an unexpired entry that nobody takes stays as it is. */
  lemma EntryPersists(cfg: Config, cap: nat, ss: seq<State>, es: seq<Event>, books: seq<Audit>,
                      i: nat, j: nat, code: string)
    requires AuditedExecution(cfg, cap, ss, es, books) && i <= j < |ss| && code in ss[i].codes
    requires ss[j].clock <= ss[i].codes[code].expiresAt
    requires forall k :: i <= k < j ==> !Takes(es[k], code)
    ensures code in ss[j].codes && ss[j].codes[code] == ss[i].codes[code]
  {
    forall k | i < k <= j ensures Preserves(ss[k - 1], ss[k], code) {
      StoreIsIssued(cfg, cap, ss, es, books, k - 1);
      EventPreserves(cfg, cap, ss[k - 1], es[k - 1], books[k - 1], code);
    }
    PreservedAlong(ss, i, j, code);
  }

  /**
   The callback for a state that /authorize handed out finds the entry that /authorize made and
   keeps the client's own state, colons and all.
   */
  lemma CallbackFindsLogin(cfg: Config, cap: nat, ss: seq<State>, es: seq<Event>, books: seq<Audit>, i: nat, j: nat)
    requires AuditedExecution(cfg, cap, ss, es, books) && i < j < |es|
    requires es[i].Authorize? && ':' !in es[i].code && Respond(cfg, cap, ss[i], es[i]).SentToProvider?
    requires es[j].CallbackTake? && es[j].combined == Respond(cfg, cap, ss[i], es[i]).state
    requires es[j].checkedAt <= es[i].at + STATE_TTL
    requires forall k :: i < k < j ==> !Takes(es[k], es[i].code)
    ensures Respond(cfg, cap, ss[j], es[j]) == Exchanging
    ensures es[j].request in ss[j + 1].inflight
    ensures ss[j + 1].inflight[es[j].request] == Flight(Pending("", es[i].at + STATE_TTL, es[i].uri), es[i].clientState)
  {
    SplitRoundTrip(es[i].code, es[i].clientState);
    assert ss[i + 1] == Apply(cfg, cap, ss[i], es[i]);
    assert Enabled(ss[j], es[j]);
    EntryPersists(cfg, cap, ss, es, books, i + 1, j, es[i].code);
    assert ss[j + 1] == Apply(cfg, cap, ss[j], es[j]);
  }

  /** A one-time code presented in time, and not before, is answered with the JWT it was issued for. */
  lemma CodeIsRedeemable(cfg: Config, cap: nat, ss: seq<State>, es: seq<Event>, books: seq<Audit>, i: nat, j: nat)
    requires AuditedExecution(cfg, cap, ss, es, books) && i < j < |es|
    requires es[i].CallbackStore? && !Respond(cfg, cap, ss[i], es[i]).Busy?
    requires es[j].Redeem? && es[j].code == es[i].code && es[j].checkedAt <= es[i].at + CODE_TTL
    requires forall k :: i < k < j ==> !Takes(es[k], es[i].code)
    ensures Respond(cfg, cap, ss[j], es[j]) == Token(es[i].jwt)
  {
    assert ss[i + 1] == Apply(cfg, cap, ss[i], es[i]);
    assert Enabled(ss[i], es[i]) && Enabled(ss[j], es[j]);
    EntryPersists(cfg, cap, ss, es, books, i + 1, j, es[i].code);
  }

  /** The event ends the callback of this request. */
  predicate Ends(e: Event, request: nat) {
    (e.CallbackFail? || e.CallbackStore?) && e.request == request
  }

  lemma FlightSurvives(cfg: Config, cap: nat, s: State, e: Event, request: nat)
    requires Enabled(s, e) && request in s.inflight && !Ends(e, request)
    ensures var t := Apply(cfg, cap, s, e);
            request in t.inflight && t.inflight[request] == s.inflight[request]
  {
    EffectsAreLegitimate(cfg, cap, s, e);
    var f := EffectOf(cfg, cap, s, e);
    assert f.Ditch? || f.Land? ==> f.request != request;
  }

  /** What a callback took out stays with it, whatever other handlers and the sweeper do. */
  lemma {:induction false} FlightPersists(cfg: Config, cap: nat, ss: seq<State>, es: seq<Event>,
                                          i: nat, j: nat, request: nat)
    requires Execution(cfg, cap, ss, es) && i <= j < |ss| && request in ss[i].inflight
    requires forall k :: i <= k < j ==> !Ends(es[k], request)
    ensures request in ss[j].inflight && ss[j].inflight[request] == ss[i].inflight[request]
    decreases j
  {
    if i < j {
      FlightPersists(cfg, cap, ss, es, i, j - 1, request);
      FlightSurvives(cfg, cap, ss[j - 1], es[j - 1], request);
    }
  }

  /**
   The second half of a callback that was in time sends the client back to the URI it gave to
   /authorize, with the one-time code and the client's own state.
   */
  lemma CallbackReturnsToClient(cfg: Config, cap: nat, ss: seq<State>, es: seq<Event>, books: seq<Audit>,
                                i: nat, j: nat, k: nat)
    requires AuditedExecution(cfg, cap, ss, es, books) && Redirectable(cfg) && i < j < k < |es|
    requires es[i].Authorize? && ':' !in es[i].code && Respond(cfg, cap, ss[i], es[i]).SentToProvider?
    requires es[j].CallbackTake? && es[j].combined == Respond(cfg, cap, ss[i], es[i]).state
    requires es[j].checkedAt <= es[i].at + STATE_TTL
    requires forall m :: i < m < j ==> !Takes(es[m], es[i].code)
    requires es[k].CallbackStore? && es[k].request == es[j].request && !Respond(cfg, cap, ss[k], es[k]).Busy?
    requires forall m :: j < m < k ==> !Ends(es[m], es[j].request)
    ensures Respond(cfg, cap, ss[k], es[k]) == RedirectTo(es[i].uri, es[k].code, es[i].clientState)
  {
    CallbackFindsLogin(cfg, cap, ss, es, books, i, j);
    FlightPersists(cfg, cap, ss, es, j + 1, k, es[j].request);
    assert cfg.allowed(es[i].uri);
  }

  /** The events `i`, `j`, `k` and `l` are the steps of one login, each in time and with nobody in between. */
  ghost predicate Login(cfg: Config, cap: nat, ss: seq<State>, es: seq<Event>, i: nat, j: nat, k: nat, l: nat)
    requires Execution(cfg, cap, ss, es)
  {
    && i < j < k < l < |es|
    && es[i].Authorize? && ':' !in es[i].code && Respond(cfg, cap, ss[i], es[i]).SentToProvider?
    && es[j].CallbackTake? && es[j].combined == Respond(cfg, cap, ss[i], es[i]).state
    && es[j].checkedAt <= es[i].at + STATE_TTL
    && (forall m :: i < m < j ==> !Takes(es[m], es[i].code))
    && es[k].CallbackStore? && es[k].request == es[j].request && !Respond(cfg, cap, ss[k], es[k]).Busy?
    && (forall m :: j < m < k ==> !Ends(es[m], es[j].request))
    && es[l].Redeem? && es[l].code == es[k].code && es[l].checkedAt <= es[k].at + CODE_TTL
    && (forall m :: k < m < l ==> !Takes(es[m], es[k].code))
  }

  /**
   A login that keeps to time succeeds under every interleaving, from /authorize to /token: the
   client gets its own state and a code at its own URI, and the code buys the JWT minted for it.
   */
  lemma LoginCompletes(cfg: Config, cap: nat, ss: seq<State>, es: seq<Event>, books: seq<Audit>,
                       i: nat, j: nat, k: nat, l: nat)
    requires AuditedExecution(cfg, cap, ss, es, books) && Redirectable(cfg) && Login(cfg, cap, ss, es, i, j, k, l)
    ensures Respond(cfg, cap, ss[k], es[k]) == RedirectTo(es[i].uri, es[k].code, es[i].clientState)
    ensures Respond(cfg, cap, ss[l], es[l]) == Token(es[k].jwt)
  {
    CallbackReturnsToClient(cfg, cap, ss, es, books, i, j, k);
    CodeIsRedeemable(cfg, cap, ss, es, books, k, l);
  }

  // ------------------------------------------------------------- what comes late is refused

  /** The event puts `p` into the store under `code`: a state for 300 seconds, a one-time code for 60. */
  predicate Makes(e: Event, code: string, p: Pending) {
    || (e.Authorize? && e.code == code && p == Pending("", e.at + 300, e.uri))
    || (e.CallbackStore? && e.code == code && p == Pending(e.jwt, e.at + 60, ""))
  }

  lemma EntryIsMadeOrKept(cfg: Config, cap: nat, s: State, e: Event, code: string)
    requires Enabled(s, e) && code in Apply(cfg, cap, s, e).codes
    ensures var p := Apply(cfg, cap, s, e).codes[code];
            Makes(e, code, p) || (code in s.codes && s.codes[code] == p)
  {
  }

  /** Every entry goes back to the request that made it, with its lifetime. */
  lemma {:induction false} EntryHasMaker(cfg: Config, cap: nat, ss: seq<State>, es: seq<Event>, n: nat, code: string)
    returns (k: nat)
    requires Execution(cfg, cap, ss, es) && n < |ss| && code in ss[n].codes
    ensures k < n && Makes(es[k], code, ss[n].codes[code])
  {
    EntryIsMadeOrKept(cfg, cap, ss[n - 1], es[n - 1], code);
    if Makes(es[n - 1], code, ss[n].codes[code]) {
      k := n - 1;
    } else {
      k := EntryHasMaker(cfg, cap, ss, es, n - 1, code);
    }
  }

  /** A JWT is delivered only for a code that a callback issued for it, no later than 60 seconds after. */
  lemma TokenIsTimely(cfg: Config, cap: nat, ss: seq<State>, es: seq<Event>, l: nat) returns (k: nat)
    requires Execution(cfg, cap, ss, es) && l < |es| && Respond(cfg, cap, ss[l], es[l]).Token?
    ensures es[l].Redeem? && k < l && es[k].CallbackStore? && es[k].code == es[l].code
    ensures es[k].jwt == Respond(cfg, cap, ss[l], es[l]).jwt && es[l].checkedAt <= es[k].at + 60
  {
    k := EntryHasMaker(cfg, cap, ss, es, l, es[l].code);
  }

  /**
   A callback gets to talk to the identity provider only for a state that /authorize handed out,
   no later than 300 seconds after, or for an unexpired one-time code given in its place.
   */
  lemma ExchangeIsTimely(cfg: Config, cap: nat, ss: seq<State>, es: seq<Event>, l: nat) returns (k: nat)
    requires Execution(cfg, cap, ss, es) && l < |es| && Respond(cfg, cap, ss[l], es[l]).Exchanging?
    ensures es[l].CallbackTake? && k < l && Split(es[l].combined).0 in ss[l].codes
    ensures Makes(es[k], Split(es[l].combined).0, ss[l].codes[Split(es[l].combined).0])
    ensures || (es[k].Authorize? && es[l].checkedAt <= es[k].at + 300)
            || (es[k].CallbackStore? && es[l].checkedAt <= es[k].at + 60)
    ensures es[k].Authorize? <==> ss[l].codes[Split(es[l].combined).0].jwt == ""
  {
    k := EntryHasMaker(cfg, cap, ss, es, l, Split(es[l].combined).0);
    assert Enabled(ss[k], es[k]);
  }

  lemma FlightIsTakenOrKept(cfg: Config, cap: nat, s: State, e: Event, request: nat)
    requires Enabled(s, e) && request in Apply(cfg, cap, s, e).inflight
    ensures || (request in s.inflight && s.inflight[request] == Apply(cfg, cap, s, e).inflight[request])
            || (&& e.CallbackTake? && e.request == request && Respond(cfg, cap, s, e).Exchanging?
                && Split(e.combined).0 in s.codes
                && Apply(cfg, cap, s, e).inflight[request] == Flight(s.codes[Split(e.combined).0], Split(e.combined).1))
  {
  }

  /** Every callback in flight goes back to the lock section that took its entry out. */
  lemma {:induction false} FlightHasTaker(cfg: Config, cap: nat, ss: seq<State>, es: seq<Event>, n: nat, request: nat)
    returns (j: nat)
    requires Execution(cfg, cap, ss, es) && n < |ss| && request in ss[n].inflight
    ensures j < n && es[j].CallbackTake? && es[j].request == request && Respond(cfg, cap, ss[j], es[j]).Exchanging?
    ensures Split(es[j].combined).0 in ss[j].codes
    ensures ss[n].inflight[request] == Flight(ss[j].codes[Split(es[j].combined).0], Split(es[j].combined).1)
  {
    FlightIsTakenOrKept(cfg, cap, ss[n - 1], es[n - 1], request);
    if request in ss[n - 1].inflight && ss[n - 1].inflight[request] == ss[n].inflight[request] {
      j := FlightHasTaker(cfg, cap, ss, es, n - 1, request);
    } else {
      j := n - 1;
    }
  }

  /**
   A client is sent back only to a URI that an /authorize request brought, by a callback that
   presented its state no later than 300 seconds after, and with the client state of that callback.
   */
  lemma RedirectIsTimely(cfg: Config, cap: nat, ss: seq<State>, es: seq<Event>, k: nat) returns (i: nat, j: nat)
    requires Execution(cfg, cap, ss, es) && k < |es| && Respond(cfg, cap, ss[k], es[k]).RedirectTo?
    ensures i < j < k && es[i].Authorize? && es[j].CallbackTake? && es[k].CallbackStore?
    ensures es[j].request == es[k].request
    ensures Split(es[j].combined).0 == es[i].code && es[j].checkedAt <= es[i].at + 300
    ensures Respond(cfg, cap, ss[k], es[k]) == RedirectTo(es[i].uri, es[k].code, Split(es[j].combined).1)
  {
    assert Enabled(ss[k], es[k]);
    j := FlightHasTaker(cfg, cap, ss, es, k, es[k].request);
    i := ExchangeIsTimely(cfg, cap, ss, es, j);
  }

  /** Single use: whatever the answer, an entry that was presented is not in the store afterwards. */
  lemma PresentedIsGone(cfg: Config, cap: nat, s: State, e: Event, code: string)
    requires Enabled(s, e) && Takes(e, code)
    ensures code !in Apply(cfg, cap, s, e).codes
  {
  }

  /** The source's own cap: the store never holds more than 10000 entries, and only a full one turns a request away. */
  lemma BusyMeansFull(cfg: Config, ss: seq<State>, es: seq<Event>, n: nat)
    requires Execution(cfg, MAX_PENDING_CODES, ss, es) && n < |es|
    ensures |ss[n].codes| <= 10000
    ensures Respond(cfg, MAX_PENDING_CODES, ss[n], es[n]).Busy? <==>
            && |ss[n].codes| == 10000
            && (es[n].CallbackStore? || (es[n].Authorize? && cfg.allowed(es[n].uri)))
  {
    StoreKeepsShape(cfg, MAX_PENDING_CODES, ss, es, n);
  }

  /** A login up to its one-time code "c", all at time 0. */
  lemma CodeIsIssued(cfg: Config, cap: nat, uri: string) returns (ss: seq<State>, es: seq<Event>)
    requires cfg.allowed(uri) && 0 < cap
    ensures Execution(cfg, cap, ss, es) && |es| == 3 && es[2] == CallbackStore(0, 0, "c", "j")
    ensures ss[3] == State(map["c" := Pending("j", CODE_TTL, "")], map[], 0)
  {
    SplitRoundTrip("a", "");
    var p := Pending("", STATE_TTL, uri);
    var s1, s2 := State(map["a" := p], map[], 0), State(map[], map[0 := Flight(p, "")], 0);
    var s3 := State(map["c" := Pending("j", CODE_TTL, "")], map[], 0);
    ss, es := [State(map[], map[], 0)], [];
    es := AddEvent(cfg, cap, ss, es, Authorize(0, uri, "", "a"), s1);
    es := AddEvent(cfg, cap, ss + [s1], es, CallbackTake(0, 0, 0, "a" + ":" + ""), s2);
    es := AddEvent(cfg, cap, ss + [s1] + [s2], es, CallbackStore(0, 0, "c", "j"), s3);
    ss := ss + [s1] + [s2] + [s3];
  }

  /** A one-time code does pass for a state: the source does not tell the two kinds of entry apart here. */
  lemma CodePassesForState(cfg: Config, cap: nat, uri: string) returns (ss: seq<State>, es: seq<Event>)
    requires cfg.allowed(uri) && 0 < cap
    ensures Execution(cfg, cap, ss, es) && |es| == 4 && Respond(cfg, cap, ss[3], es[3]).Exchanging?
    ensures es[3].CallbackTake? && es[2].CallbackStore? && Split(es[3].combined).0 == es[2].code
  {
    ss, es := CodeIsIssued(cfg, cap, uri);
    SplitRoundTrip("c", "");
    var e := CallbackTake(0, 0, 1, "c" + ":" + "");
    es := AddEvent(cfg, cap, ss, es, e, Apply(cfg, cap, ss[3], e));
    ss := ss + [Apply(cfg, cap, ss[3], e)];
  }

  lemma AddEvent(cfg: Config, cap: nat, ss: seq<State>, es: seq<Event>, e: Event, t: State) returns (longer: seq<Event>)
    requires Execution(cfg, cap, ss, es) && Enabled(ss[|es|], e) && t == Apply(cfg, cap, ss[|es|], e)
    ensures longer == es + [e] && Execution(cfg, cap, ss + [t], longer)
  {
    ExtendExecution(cfg, cap, ss, es, e);
    longer := es + [e];
  }
}
