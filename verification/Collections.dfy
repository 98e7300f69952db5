/** Sequences without duplicates, the search for an element, and sizes of finite sets. The admission queue is such
    a sequence, the Boxes that hold a slot are such a set, and the search also finds line ends, tags and dots in
    text. */
module Collections {

  ghost predicate Distinct<T>(s: seq<T>) {
    forall i, j :: 0 <= i < j < |s| ==> s[i] != s[j]
  }

  /** The first index holding `x`; `|s|` when there is none. */
  function IndexOf<T(==)>(s: seq<T>, x: T): (k: nat)
    ensures k <= |s|
    ensures k < |s| ==> s[k] == x
    ensures forall j :: 0 <= j < k ==> s[j] != x
  {
    if s == [] || s[0] == x then 0 else 1 + IndexOf(s[1..], x)
  }

  lemma {:induction false} SubsetSize<T>(a: set<T>, b: set<T>)
    requires a <= b
    ensures |a| <= |b|
  {
    if a != {} {
      var x :| x in a;
      SubsetSize(a - {x}, b - {x});
    }
  }

  lemma {:induction false} DistinctFits<T>(s: seq<T>, a: set<T>)
    requires Distinct(s) && forall i :: 0 <= i < |s| ==> s[i] in a
    ensures |s| <= |a|
  {
    if s != [] {
      var last := s[|s| - 1];
      DistinctFits(s[..|s| - 1], a - {last});
    }
  }
}
