/**
 Oldest-wins selection, shared by the gateway singleton and the policy singleton
 (internal/controller/singleton.go).
 */
module Singleton {

  /** `k` is the first position, in list order, that holds the earliest creation time. */
  ghost predicate FirstOldest(created: seq<nat>, k: nat) {
    && k < |created|
    && (forall j :: 0 <= j < k ==> created[k] < created[j])
    && (forall j :: k <= j < |created| ==> created[k] <= created[j])
  }

  /** Keeps the first item unless a later one is strictly earlier. */
  method OldestByCreationTimestamp(created: seq<nat>) returns (oldest: nat)
    requires created != []
    ensures FirstOldest(created, oldest)
  {
    oldest := 0;
    for i := 1 to |created|
      invariant FirstOldest(created[..i], oldest)
    {
      if created[i] < created[oldest] {
        oldest := i;
      }
    }
    assert created[..|created|] == created;
  }

  /** The selection is a function of the list: ties are broken by position alone. */
  lemma FirstOldestIsUnique(created: seq<nat>, a: nat, b: nat)
    requires FirstOldest(created, a) && FirstOldest(created, b)
    ensures a == b
  {
    assert created[a] <= created[b] && created[b] <= created[a];
  }
}
