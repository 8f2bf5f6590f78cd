/** Facts about sets and sequences that several components need. */
module Collections {
  lemma {:induction false} SubsetSize<T>(a: set<T>, b: set<T>)
    requires a <= b
    ensures |a| <= |b|
  {
    if a != {} {
      var x :| x in a;
      SubsetSize(a - {x}, b - {x});
    }
  }

  lemma Smaller<T>(a: set<T>, b: set<T>, x: T)
    requires a <= b && x in b && x !in a
    ensures |a| < |b|
  {
    SubsetSize(a, b - {x});
  }

  predicate Distinct<T(==)>(s: seq<T>) {
    forall i, j | 0 <= i < j < |s| :: s[i] != s[j]
  }

  lemma {:induction false} DistinctCount<T>(s: seq<T>, all: set<T>)
    requires Distinct(s) && forall x | x in s :: x in all
    ensures |s| <= |all|
  {
    if s != [] {
      DistinctCount(s[1..], all - {s[0]});
    }
  }

  /** Distinct members, as many as there are, are all of them. */
  lemma DistinctCovers<T>(s: seq<T>, all: set<T>)
    requires Distinct(s) && (forall x | x in s :: x in all) && |s| == |all|
    ensures forall x | x in all :: x in s
  {
    forall x | x in all ensures x in s {
      if x !in s {
        DistinctCount(s, all - {x});
      }
    }
  }

  lemma {:induction false} SomeOf<T>(all: set<T>, n: nat) returns (s: seq<T>)
    requires n <= |all|
    ensures |s| == n && Distinct(s) && forall x | x in s :: x in all
  {
    if n == 0 {
      s := [];
    } else {
      var x :| x in all;
      var rest := SomeOf(all - {x}, n - 1);
      s := [x] + rest;
    }
  }

  function Elements<T(==)>(s: seq<T>): set<T> {
    set x | x in s
  }

  lemma ElementsNone<T>(s: seq<T>)
    ensures Elements(s[..0]) == {}
  {}

  lemma ElementsNext<T>(s: seq<T>, i: nat)
    requires i < |s|
    ensures Elements(s[..i + 1]) == Elements(s[..i]) + {s[i]}
  {
    assert s[..i + 1] == s[..i] + [s[i]];
  }

  lemma ElementsDone<T>(s: seq<T>)
    ensures Elements(s[|s|..]) == {}
  {}

  lemma ElementsIn<T>(s: seq<T>, i: nat)
    requires i < |s|
    ensures s[i] in Elements(s)
  {}

  lemma ElementsOf<T>(s: seq<T>, x: T)
    ensures x in s <==> x in Elements(s)
  {}

  lemma ElementsRest<T>(s: seq<T>, i: nat)
    requires i < |s| && Distinct(s)
    ensures Elements(s[i..]) == {s[i]} + Elements(s[i + 1..]) && s[i] !in Elements(s[i + 1..])
  {
    assert s[i..] == [s[i]] + s[i + 1..];
  }

  /** As many distinct elements as places only where none is repeated. */
  lemma {:induction false} ElementsCount<T>(s: seq<T>)
    ensures |Elements(s)| <= |s|
    ensures |Elements(s)| == |s| ==> Distinct(s)
  {
    if s != [] {
      ElementsCount(s[1..]);
      var rest := Elements(s[1..]);
      assert Elements(s) == rest + {s[0]};
      forall i, j | 0 <= i < j < |s| && |Elements(s)| == |s| ensures s[i] != s[j] {
        assert s[0] !in rest;
        if i == 0 {
          assert s[j] == s[1..][j - 1];
        } else {
          assert s[1..][i - 1] != s[1..][j - 1];
        }
      }
    }
  }

  lemma {:induction false} DistinctElements<T>(s: seq<T>)
    requires Distinct(s)
    ensures |Elements(s)| == |s|
  {
    if s != [] {
      var front, last := s[..|s| - 1], s[|s| - 1];
      DistinctElements(front);
      assert s == front + [last] && last !in front;
      assert Elements(s) == Elements(front) + {last};
    }
  }

  lemma Reassociate<T>(a: seq<T>, b: seq<T>, c: seq<T>)
    ensures a + (b + c) == a + b + c
  {}
}
