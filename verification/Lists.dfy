/** Lists: dropping an element, repetitions. */
module Lists {

  ghost predicate Distinct<T(!new)>(s: seq<T>) {
    forall i, j :: 0 <= i < j < |s| ==> s[i] != s[j]
  }

  function Members<T>(s: seq<T>): set<T> {
    set x <- s
  }

  /** The list without any `x`. */
  function Without<T(==)>(s: seq<T>, x: T): seq<T> {
    if s == [] then []
    else if s[0] == x then Without(s[1..], x)
    else [s[0]] + Without(s[1..], x)
  }

  lemma {:induction false} Assoc<T>(a: seq<T>, b: seq<T>, c: seq<T>)
    ensures (a + b) + c == a + (b + c)
  {
  }

  lemma {:induction false} WithoutStep<T>(s: seq<T>, x: T)
    requires s != []
    ensures Without(s, x) == if s[0] == x then Without(s[1..], x) else [s[0]] + Without(s[1..], x)
  {
  }

  lemma {:induction false} WithoutConcat<T>(a: seq<T>, b: seq<T>, x: T)
    ensures Without(a + b, x) == Without(a, x) + Without(b, x)
  {
    hide Without;
    if a == [] {
      assert a + b == b;
      WithoutNone(a, x);
    } else {
      WithoutConcat(a[1..], b, x);
      WithoutStep(a, x);
      WithoutStep(a + b, x);
      assert (a + b)[1..] == a[1..] + b;
      Assoc([a[0]], Without(a[1..], x), Without(b, x));
    }
  }

  lemma {:induction false} WithoutNone<T>(s: seq<T>, x: T)
    requires s == []
    ensures Without(s, x) == []
  {
  }

  lemma {:induction false} WithoutAbsent<T>(s: seq<T>, x: T)
    requires x !in s
    ensures Without(s, x) == s
  {
    if s != [] {
      WithoutAbsent(s[1..], x);
    }
  }

  lemma {:induction false} WithoutLength<T(!new)>(s: seq<T>, x: T)
    requires Distinct(s)
    ensures |Without(s, x)| >= |s| - 1
  {
    if s != [] {
      WithoutLength(s[1..], x);
      if s[0] == x {
        WithoutAbsent(s[1..], x);
      }
    }
  }

  lemma {:induction false} DistinctCount<T(!new)>(s: seq<T>)
    requires Distinct(s)
    ensures |Members(s)| == |s|
  {
    if s != [] {
      var init, last := s[..|s| - 1], s[|s| - 1];
      DistinctCount(init);
      assert Members(s) == Members(init) + {last};
      assert last !in Members(init);
    }
  }

  lemma {:induction false} SubsetCount<T>(a: set<T>, b: set<T>)
    requires a <= b
    ensures |a| <= |b|
  {
    if a != {} {
      var x :| x in a;
      SubsetCount(a - {x}, b - {x});
    }
  }
}
