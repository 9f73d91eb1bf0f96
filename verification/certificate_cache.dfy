/**
 The auth bridge's TLS certificate cache (cmd/auth-bridge/main.go, dynamicTLSConfigWithTTL):
 the key pair is loaded again when it is older than the TTL, and the last good pair serves
 when loading fails.
 */
module CertificateCache {
  import opened Options

  datatype Cache<P> = Cache(cached: Option<P>, cachedAt: int)

  /** A call with its first look at the clock, what loading would give, and its second look. */
  datatype Call<P> = Call(start: int, load: Option<P>, end: int)

  predicate Loads<P>(ttl: int, c: Cache<P>, call: Call<P>) {
    c.cached.None? || call.start - c.cachedAt >= ttl
  }

  function Next<P>(ttl: int, c: Cache<P>, call: Call<P>): Cache<P> {
    if Loads(ttl, c, call) && call.load.Some? then Cache(call.load, call.end) else c
  }

  function After<P>(ttl: int, calls: seq<Call<P>>): Cache<P> {
    if calls == [] then Cache(None, 0) else Next(ttl, After(ttl, calls[..|calls| - 1]), calls[|calls| - 1])
  }

  /** Call `i` went to the files. */
  predicate Attempted<P>(ttl: int, calls: seq<Call<P>>, i: nat)
    requires i < |calls|
  {
    Loads(ttl, After(ttl, calls[..i]), calls[i])
  }

  predicate Loaded<P>(ttl: int, calls: seq<Call<P>>, i: nat)
    requires i < |calls|
  {
    Attempted(ttl, calls, i) && calls[i].load.Some?
  }

  /** What call `i` returns: a pair, or none for an error. */
  function Answer<P>(ttl: int, calls: seq<Call<P>>, i: nat): Option<P>
    requires i < |calls|
  {
    After(ttl, calls[..i + 1]).cached
  }

  lemma {:induction false} FailsIffNothingLoads<P>(ttl: int, calls: seq<Call<P>>, i: nat)
    requires i < |calls|
    ensures Answer(ttl, calls, i).None? <==> forall k :: 0 <= k <= i ==> calls[k].load.None?
  {
    assert calls[..i + 1][..i] == calls[..i];
    assert After(ttl, calls[..i + 1]) == Next(ttl, After(ttl, calls[..i]), calls[i]);
    if i > 0 {
      FailsIffNothingLoads(ttl, calls, i - 1);
      assert After(ttl, calls[..i]).cached == Answer(ttl, calls, i - 1);
    }
  }

  /** After the first call that finds a good pair, no call fails. */
  lemma NoFailureAfterSuccess<P>(ttl: int, calls: seq<Call<P>>, i: nat, j: nat)
    requires i <= j < |calls| && Answer(ttl, calls, i).Some?
    ensures Answer(ttl, calls, j).Some?
  {
    FailsIffNothingLoads(ttl, calls, i);
    FailsIffNothingLoads(ttl, calls, j);
  }

  /** `p` is the last call up to `i` that loaded a pair. */
  ghost predicate LatestLoad<P>(ttl: int, calls: seq<Call<P>>, i: nat, p: nat)
    requires i < |calls|
  {
    p <= i && Loaded(ttl, calls, p) && forall k :: p < k <= i ==> !Loaded(ttl, calls, k)
  }

  lemma {:induction false} CacheHoldsLatest<P>(ttl: int, calls: seq<Call<P>>, i: nat, p: nat)
    requires i < |calls| && LatestLoad(ttl, calls, i, p)
    ensures After(ttl, calls[..i + 1]) == Cache(calls[p].load, calls[p].end)
  {
    assert calls[..i + 1][..i] == calls[..i];
    if p < i {
      CacheHoldsLatest(ttl, calls, i - 1, p);
      assert !Loaded(ttl, calls, i);
    }
  }

  lemma {:induction false} SomeLoadIsLatest<P>(ttl: int, calls: seq<Call<P>>, i: nat) returns (p: nat)
    requires i < |calls| && Answer(ttl, calls, i).Some?
    ensures LatestLoad(ttl, calls, i, p)
  {
    assert calls[..i + 1][..i] == calls[..i];
    if Loaded(ttl, calls, i) {
      p := i;
    } else {
      p := SomeLoadIsLatest(ttl, calls, i - 1);
    }
  }

  /**
   Every call answers with the latest pair loaded. Since then the files were tried at exactly
   the calls that found the pair stale, and every such try failed.
   */
  lemma AnswerIsLatestLoad<P>(ttl: int, calls: seq<Call<P>>, i: nat, p: nat)
    requires i < |calls| && LatestLoad(ttl, calls, i, p)
    ensures Answer(ttl, calls, i) == calls[p].load
    ensures forall k :: p < k <= i ==>
              && (Attempted(ttl, calls, k) <==> calls[k].start - calls[p].end >= ttl)
              && (Attempted(ttl, calls, k) ==> calls[k].load.None?)
  {
    CacheHoldsLatest(ttl, calls, i, p);
    forall k | p < k <= i ensures Attempted(ttl, calls, k) <==> calls[k].start - calls[p].end >= ttl {
      CacheHoldsLatest(ttl, calls, k - 1, p);
    }
    assert forall k :: p < k <= i && Attempted(ttl, calls, k) ==> !Loaded(ttl, calls, k);
  }

  /** A pair past its TTL is handed out only by a call that tried the files itself and failed. */
  lemma StaleOnlyAfterFailure<P>(ttl: int, calls: seq<Call<P>>, i: nat, p: nat)
    requires i < |calls| && LatestLoad(ttl, calls, i, p) && p < i
    requires calls[i].start - calls[p].end >= ttl
    ensures Attempted(ttl, calls, i) && calls[i].load.None?
  {
    AnswerIsLatestLoad(ttl, calls, i, p);
  }

  class DynamicTLSConfig<P> {
    const ttl: int
    var cached: Option<P>
    var cachedAt: int

    ghost function View(): Cache<P>
      reads this
    {
      Cache(cached, cachedAt)
    }

    constructor (ttl: int)
      ensures this.ttl == ttl && View() == After(ttl, [])
    {
      this.ttl := ttl;
      cached, cachedAt := None, 0;
    }

    /** A call after `calls`: its answer is the one that AnswerIsLatestLoad speaks of. */
    method LoadCertificate(start: int, load: Option<P>, end: int, ghost calls: seq<Call<P>>) returns (answer: Option<P>)
      requires View() == After(ttl, calls)
      modifies this
      ensures View() == After(ttl, calls + [Call(start, load, end)])
      ensures answer == Answer(ttl, calls + [Call(start, load, end)], |calls|)
    {
      ghost var all := calls + [Call(start, load, end)];
      assert all[..|calls|] == calls && all[..|calls| + 1] == all;
      if cached.Some? && start - cachedAt < ttl {
        return cached;
      }
      if load.None? {
        if cached.Some? {
          return cached;
        }
        return None;
      }
      cached := load;
      cachedAt := end;
      return cached;
    }
  }
}
