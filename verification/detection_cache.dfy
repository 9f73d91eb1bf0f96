/**
 The API detection cache (internal/openshift/detect.go): one answer and its expiry behind a
 mutex. Time is in nanoseconds on a monotone clock; the zero expiry lies in the past.
 */
module DetectionCache {
  const SECOND := 1_000_000_000
  const POSITIVE_TTL := 300 * SECOND
  const NEGATIVE_TTL := 30 * SECOND

  function TTL(answer: bool): nat {
    if answer then POSITIVE_TTL else NEGATIVE_TTL
  }

  datatype Cache = Cache(result: bool, expiry: nat)

  /** A call with its first and its second look at the clock, and what a probe in between would say. */
  datatype Call = Call(start: nat, probe: bool, end: nat)

  function Next(c: Cache, call: Call): Cache {
    if call.start < c.expiry then c else Cache(call.probe, call.end + TTL(call.probe))
  }

  function After(calls: seq<Call>): Cache {
    if calls == [] then Cache(false, 0) else Next(After(calls[..|calls| - 1]), calls[|calls| - 1])
  }

  /** Calls hold the mutex, so they follow each other. */
  predicate Monotone(calls: seq<Call>) {
    && (forall i :: 0 <= i < |calls| ==> calls[i].start <= calls[i].end)
    && (forall i, j :: 0 <= i < j < |calls| ==> calls[i].end <= calls[j].start)
  }

  /** Call `i` asked the API server. */
  predicate Probed(calls: seq<Call>, i: nat)
    requires i < |calls|
  {
    After(calls[..i]).expiry <= calls[i].start
  }

  function Answer(calls: seq<Call>, i: nat): bool
    requires i < |calls|
  {
    After(calls[..i + 1]).result
  }

  /** `p` is the last call up to `i` that asked the API server. */
  ghost predicate LatestProbe(calls: seq<Call>, i: nat, p: nat)
    requires i < |calls|
  {
    p <= i && Probed(calls, p) && forall k :: p < k <= i ==> !Probed(calls, k)
  }

  lemma {:induction false} FindLatestProbe(calls: seq<Call>, i: nat) returns (p: nat)
    requires i < |calls|
    ensures LatestProbe(calls, i, p)
    ensures After(calls[..i + 1]) == Cache(calls[p].probe, calls[p].end + TTL(calls[p].probe))
  {
    assert calls[..i + 1][..i] == calls[..i];
    if Probed(calls, i) {
      p := i;
    } else {
      p := FindLatestProbe(calls, i - 1);
    }
  }

  lemma LatestProbeIsUnique(calls: seq<Call>, i: nat, p: nat, q: nat)
    requires i < |calls| && LatestProbe(calls, i, p) && LatestProbe(calls, i, q)
    ensures p == q
  {
  }

  /** Every answer is the latest probe's, made by this very call or less than its TTL ago. */
  lemma AnswerIsRecentProbe(calls: seq<Call>, i: nat, p: nat)
    requires i < |calls| && LatestProbe(calls, i, p)
    ensures Answer(calls, i) == calls[p].probe
    ensures p == i || calls[i].start < calls[p].end + TTL(Answer(calls, i))
    ensures p == i || calls[i].start < calls[p].end + 300 * SECOND
    ensures p == i || Answer(calls, i) || calls[i].start < calls[p].end + 30 * SECOND
  {
    var q := FindLatestProbe(calls, i);
    LatestProbeIsUnique(calls, i, p, q);
    if p < i {
      var r := FindLatestProbe(calls, i - 1);
      LatestProbeIsUnique(calls, i - 1, p, r);
      assert !Probed(calls, i);
    }
  }

  /** Between two probes lies the whole TTL of the first one's answer, and a call after that TTL does probe. */
  lemma ProbesAreSpaced(calls: seq<Call>, i: nat, p: nat)
    requires i + 1 < |calls| && LatestProbe(calls, i, p)
    ensures Probed(calls, i + 1) <==> calls[p].end + TTL(calls[p].probe) <= calls[i + 1].start
  {
    var q := FindLatestProbe(calls, i);
    LatestProbeIsUnique(calls, i, p, q);
  }

  /** Once every probe says `b`, a wrong answer survives for no longer than its own TTL. */
  lemma ChangeIsNoticed(calls: seq<Call>, b: bool, since: nat, i: nat)
    requires Monotone(calls) && i < |calls|
    requires forall k :: 0 <= k < |calls| && since < calls[k].end ==> calls[k].probe == b
    requires since + TTL(!b) <= calls[i].start
    ensures Answer(calls, i) == b
  {
    var p := FindLatestProbe(calls, i);
    AnswerIsRecentProbe(calls, i, p);
  }

  class CachedDetection {
    var result: bool
    var expiry: nat

    ghost function View(): Cache
      reads this
    {
      Cache(result, expiry)
    }

    constructor ()
      ensures View() == After([])
    {
      result, expiry := false, 0;
    }

    /** A call after `calls`: its answer is the one that AnswerIsRecentProbe speaks of. */
    method Check(start: nat, probe: bool, end: nat, ghost calls: seq<Call>) returns (answer: bool)
      requires View() == After(calls)
      modifies this
      ensures View() == After(calls + [Call(start, probe, end)])
      ensures answer == Answer(calls + [Call(start, probe, end)], |calls|)
    {
      ghost var all := calls + [Call(start, probe, end)];
      assert all[..|calls|] == calls && all[..|calls| + 1] == all;
      if start < expiry {
        return result;
      }
      result := probe;
      if result {
        expiry := end + POSITIVE_TTL;
      } else {
        expiry := end + NEGATIVE_TTL;
      }
      return result;
    }
  }
}
