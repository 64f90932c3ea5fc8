/** Searching for the least unused id among numbered candidates, the loop
    `generateLineId` runs, together with the counting facts that make it
    terminate. The counting facts themselves live in `Lists`. */
module FreshIds {

  import Lists

  /** Every candidate from `start` up to, not including, `n` is taken. */
  ghost predicate TakenFrom(ids: seq<string>, candidate: nat -> string, start: nat, n: nat) {
    forall k :: start <= k < n ==> candidate(k) in ids
  }

  /** One failed candidate: an id of the list not met before, so the set
      of failed candidates grows by one and stays within the ids. */
  lemma SearchStep(taken: set<string>, present: set<string>, candidate: nat -> string,
                   counterOf: string -> nat, counter: nat)
    requires counterOf(candidate(counter)) == counter
    requires candidate(counter) in present && taken <= present
    requires forall x :: x in taken ==> counterOf(x) < counter
    ensures |taken + {candidate(counter)}| == |taken| + 1 <= |present|
    ensures forall x :: x in taken + {candidate(counter)} ==> counterOf(x) < counter + 1
  {
    Lists.SubsetSize(taken + {candidate(counter)}, present);
  }

  /** Tries `candidate(start)`, `candidate(start + 1)`, ... and returns the
      first counter whose candidate is not in `ids`. The candidates are
      distinct (`counterOf` reads the counter back), so every failed try
      uses up a different id of the list and the search ends. */
  method LeastFree(ids: seq<string>, candidate: nat -> string, counterOf: string -> nat, start: nat)
    returns (n: nat)
    requires forall k :: counterOf(candidate(k)) == k
    ensures n >= start
    ensures candidate(n) !in ids
    ensures forall k :: start <= k < n ==> candidate(k) in ids
  {
    ghost var present := set x | x in ids;
    ghost var taken: set<string> := {};
    Lists.ElementsBound(ids);
    n := start;
    while candidate(n) in ids
      invariant n >= start
      invariant TakenFrom(ids, candidate, start, n)
      invariant taken <= present
      invariant forall x :: x in taken ==> counterOf(x) < n
      decreases |present| - |taken|
    {
      SearchStep(taken, present, candidate, counterOf, n);
      taken := taken + {candidate(n)};
      n := n + 1;
    }
  }
}
