/** The list operations every handler in the dashboard is built from:
    `array.filter(p)`, `array.map(f)` and `array.map(x => p(x) ? f(x) : x)`,
    the subsequence relation that says a filter kept the original order,
    distinctness of ids, and the counting facts about sets of elements. */
module Lists {

  /** `r` is obtained from `s` by deleting some elements, the rest keeping
      their relative order. */
  predicate IsSubsequence<T(==)>(r: seq<T>, s: seq<T>)
    decreases |s|
  {
    if |r| == 0 then true
    else if |s| == 0 then false
    else if r[0] == s[0] then IsSubsequence(r[1..], s[1..])
    else IsSubsequence(r, s[1..])
  }

  /** Number of occurrences of `x` in `s`. */
  function Occurrences<T(==)>(s: seq<T>, x: T): (n: nat)
    ensures n <= |s|
    ensures n == 0 <==> x !in s
  {
    if |s| == 0 then 0
    else (if s[0] == x then 1 else 0) + Occurrences(s[1..], x)
  }

  /** `s.filter(keep)`: exactly the elements satisfying `keep`, each as
      often as in `s`, in their original order. */
  function Filter<T(==,!new)>(s: seq<T>, keep: T -> bool): (r: seq<T>)
    ensures |r| <= |s|
    ensures forall i :: 0 <= i < |r| ==> keep(r[i])
    ensures forall x :: x in r <==> x in s && keep(x)
    ensures forall x :: Occurrences(r, x) == if keep(x) then Occurrences(s, x) else 0
    ensures IsSubsequence(r, s)
  {
    if |s| == 0 then []
    else if keep(s[0]) then [s[0]] + Filter(s[1..], keep)
    else Filter(s[1..], keep)
  }

  /** A filter that drops nothing returns the list unchanged. */
  lemma {:induction false} FilterKeepsAll<T(!new)>(s: seq<T>, keep: T -> bool)
    requires forall i :: 0 <= i < |s| ==> keep(s[i])
    ensures Filter(s, keep) == s
  {
    if |s| > 0 {
      FilterKeepsAll(s[1..], keep);
    }
  }

  /** Filtering a list with one more element at the end filters the two
      parts separately. */
  lemma {:induction false} FilterAppend<T(!new)>(s: seq<T>, x: T, keep: T -> bool)
    ensures Filter(s + [x], keep) == Filter(s, keep) + (if keep(x) then [x] else [])
    decreases |s|
  {
    if |s| == 0 {
      assert s + [x] == [x];
    } else {
      assert (s + [x])[1..] == s[1..] + [x];
      FilterAppend(s[1..], x, keep);
    }
  }

  /** `s.map(f)`: the image of every element, in place. */
  function Map<T, U>(s: seq<T>, f: T -> U): (r: seq<U>)
    ensures |r| == |s|
    ensures forall i :: 0 <= i < |s| ==> r[i] == f(s[i])
  {
    seq(|s|, i requires 0 <= i < |s| => f(s[i]))
  }

  /** `s.map(x => sel(x) ? f(x) : x)`: same length, each selected element
      replaced by its image, every other element left where it was. */
  function MapWhere<T>(s: seq<T>, sel: T -> bool, f: T -> T): (r: seq<T>)
    ensures |r| == |s|
    ensures forall i :: 0 <= i < |s| && sel(s[i]) ==> r[i] == f(s[i])
    ensures forall i :: 0 <= i < |s| && !sel(s[i]) ==> r[i] == s[i]
  {
    seq(|s|, i requires 0 <= i < |s| => if sel(s[i]) then f(s[i]) else s[i])
  }

  // ---------------------------------------------------------------------
  // Distinctness and counting

  /** No element occurs twice: the shape of a list of ids that rows are
      keyed by. */
  predicate Distinct<T(==)>(s: seq<T>) {
    forall i, j :: 0 <= i < j < |s| ==> s[i] != s[j]
  }

  /** The elements of a list, as a set, are no more than its length. */
  lemma {:induction false} ElementsBound<T>(s: seq<T>)
    ensures |set x | x in s| <= |s|
  {
    if |s| > 0 {
      ElementsBound(s[1..]);
      assert (set x | x in s) == (set x | x in s[1..]) + {s[0]};
    }
  }

  /** A subset is no larger than its superset. */
  lemma {:induction false} SubsetSize<T>(a: set<T>, b: set<T>)
    requires a <= b
    ensures |a| <= |b|
    decreases a
  {
    if a != {} {
      var x :| x in a;
      SubsetSize(a - {x}, b - {x});
    }
  }
}
