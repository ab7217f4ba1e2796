/** Searching a numbered list of candidates for an id that is not taken. */
module FreshIds {

  /** No two numbers give the same candidate. */
  ghost predicate Distinct(candidate: nat -> string) {
    forall i, j :: candidate(i) == candidate(j) ==> i == j
  }

  ghost predicate ComesFrom(candidate: nat -> string, n: nat, id: string) {
    exists m: nat :: m >= n && id == candidate(m)
  }

  /** Taken ids the search can still run into. */
  ghost function Ahead(candidate: nat -> string, n: nat, taken: set<string>): set<string> {
    set id | id in taken && ComesFrom(candidate, n, id)
  }

  /** Every retry leaves one taken id behind for good, so the search ends. */
  lemma AheadShrinks(candidate: nat -> string, n: nat, taken: set<string>)
    requires Distinct(candidate) && candidate(n) in taken
    ensures Ahead(candidate, n + 1, taken) < Ahead(candidate, n, taken)
  {
    var id := candidate(n);
    assert ComesFrom(candidate, n, id);
    assert id in Ahead(candidate, n, taken) && id !in Ahead(candidate, n + 1, taken);
    forall other | other in Ahead(candidate, n + 1, taken) ensures other in Ahead(candidate, n, taken) {
      assert ComesFrom(candidate, n, other);
    }
  }

  /** The least number from `n` on whose candidate is free. */
  ghost function FirstFree(candidate: nat -> string, n: nat, taken: set<string>): (m: nat)
    requires Distinct(candidate)
    ensures m >= n && candidate(m) !in taken
    ensures forall k: nat :: n <= k < m ==> candidate(k) in taken
    decreases Ahead(candidate, n, taken)
  {
    if candidate(n) !in taken then n
    else
      AheadShrinks(candidate, n, taken);
      FirstFree(candidate, n + 1, taken)
  }
}
