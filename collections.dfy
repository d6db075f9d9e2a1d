/**
 * Sequences as enumerations of sets, flattening, and order-preserving
 * filtering (Python's `filter` and list comprehensions with an `if`).
 */
module Collections {

  /** No element occurs twice. */
  predicate Distinct<T(==)>(s: seq<T>) {
    forall i, j :: 0 <= i < j < |s| ==> s[i] != s[j]
  }

  /** The set of the elements of a sequence. */
  function Elements<T(==)>(s: seq<T>): set<T> {
    set x | x in s
  }

  /**
   * `s` lists every element of `S` exactly once, in some order: what one
   * iteration over a Python set visits.
   */
  predicate IsEnumeration<T(==)>(s: seq<T>, S: set<T>) {
    Distinct(s) && Elements(s) == S
  }

  /** An enumeration is as long as the set it enumerates. */
  lemma {:induction false} EnumerationSize<T>(s: seq<T>, S: set<T>)
    requires IsEnumeration(s, S)
    ensures |s| == |S|
  {
    if s != [] {
      var last := s[|s| - 1];
      var init := s[..|s| - 1];
      assert s == init + [last];
      assert last !in init by {
        forall i | 0 <= i < |init| ensures init[i] != last {
          assert s[i] == init[i];
        }
      }
      assert Elements(init) == S - {last};
      EnumerationSize(init, S - {last});
    }
  }

  /** Appending an element not yet enumerated enumerates one more element. */
  lemma EnumerationExtend<T>(s: seq<T>, S: set<T>, x: T)
    requires IsEnumeration(s, S) && x !in S
    ensures IsEnumeration(s + [x], S + {x})
  {
    assert Elements(s + [x]) == Elements(s) + {x};
  }

  /** The sequences of `ss`, one after another. */
  function Concat<T>(ss: seq<seq<T>>): seq<T> {
    if ss == [] then [] else Concat(ss[..|ss| - 1]) + ss[|ss| - 1]
  }

  /**
   * The elements of `s` that satisfy `p`. The contract states which elements
   * are kept; that they keep their order in `s` follows from the definition
   * and is proved where it is used (`FilterKeepsSorted`, `SelectedIsClassified`).
   */
  function Filter<T>(p: T -> bool, s: seq<T>): (r: seq<T>)
    ensures |r| <= |s|
    ensures forall x :: x in r ==> x in s && p(x)
    ensures forall x :: x in s && p(x) ==> x in r
  {
    if s == [] then [] else (if p(s[0]) then [s[0]] else []) + Filter(p, s[1..])
  }
}
