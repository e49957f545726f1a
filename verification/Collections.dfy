/** Small facts about numbers and sequences that several modules use: the elements of a sequence,
    sequences without repetition, minimum and maximum. Nothing here is about the platform; each
    fact is stated once, in the form its users need. */
module Collections {
  function Min(a: int, b: int): int { if a < b then a else b }

  function Max(a: int, b: int): int { if a < b then b else a }

  predicate NoRepeats<T(==)>(xs: seq<T>) {
    forall i, j :: 0 <= i < j < |xs| ==> xs[i] != xs[j]
  }

  function Elements<T(==)>(xs: seq<T>): set<T> {
    set x | x in xs
  }

  lemma SplitLast<T>(xs: seq<T>)
    requires xs != []
    ensures Elements(xs) == Elements(xs[..|xs| - 1]) + {xs[|xs| - 1]}
  {
    assert xs == xs[..|xs| - 1] + [xs[|xs| - 1]];
  }

  lemma {:induction false} ElementsBound<T>(xs: seq<T>)
    ensures |Elements(xs)| <= |xs|
    decreases |xs|
  {
    if xs == [] {
      assert Elements(xs) == {};
    } else {
      ElementsBound(xs[..|xs| - 1]);
      SplitLast(xs);
    }
  }

  /** A sequence has as many elements as positions exactly when none repeats. */
  lemma {:induction false} NoRepeatsIff<T>(xs: seq<T>)
    ensures NoRepeats(xs) <==> |Elements(xs)| == |xs|
    decreases |xs|
  {
    if xs == [] {
      assert Elements(xs) == {};
    } else {
      var n := |xs| - 1;
      var rest := xs[..n];
      NoRepeatsIff(rest);
      ElementsBound(rest);
      SplitLast(xs);
    }
  }

  lemma OneMore<T>(x: T, rest: seq<T>)
    requires NoRepeats(rest) && x !in Elements(rest)
    ensures NoRepeats([x] + rest) && Elements([x] + rest) == Elements(rest) + {x}
  {
    var xs := [x] + rest;
    forall i | 0 <= i < |rest| ensures rest[i] != x { assert rest[i] in Elements(rest); }
    forall y ensures y in xs <==> y == x || y in rest {}
  }

  /** The elements of a finite set in some order. */
  lemma {:induction false} Listing<T>(s: set<T>) returns (xs: seq<T>)
    ensures NoRepeats(xs) && Elements(xs) == s
    decreases |s|
  {
    if s == {} {
      xs := [];
    } else {
      var x :| x in s;
      var rest := Listing(s - {x});
      OneMore(x, rest);
      xs := [x] + rest;
    }
  }
}
