/** Sorting and deduplicating id lists: one strictly ordered list per set of ids. */
module SortedIds {
  import opened Ids
  import opened Lists

  predicate Ordered(s: seq<Id>) {
    forall i, j :: 0 <= i < j < |s| ==> !Before(s[j], s[i])
  }

  predicate StrictlyOrdered(s: seq<Id>) {
    forall i, j :: 0 <= i < j < |s| ==> Before(s[i], s[j])
  }

  function Insert(x: Id, s: seq<Id>): (r: seq<Id>)
    ensures |r| == |s| + 1
  {
    if s == [] || !Before(s[0], x) then [x] + s else [s[0]] + Insert(x, s[1..])
  }

  /** The list in order of `(created_at, id)` (`sort_unstable_by_key`; equal keys are equal ids). */
  function Sort(s: seq<Id>): seq<Id> {
    if s == [] then [] else Insert(s[0], Sort(s[1..]))
  }

  /** Drop repetitions of the element before (`dedup`). */
  function Dedup(s: seq<Id>): seq<Id> {
    if |s| <= 1 then s
    else if s[0] == s[1] then Dedup(s[1..])
    else [s[0]] + Dedup(s[1..])
  }

  function SortedUnion(s: seq<Id>): seq<Id> {
    Dedup(Sort(s))
  }

  lemma {:induction false} InsertMembers(x: Id, s: seq<Id>)
    ensures Members(Insert(x, s)) == Members(s) + {x}
  {
    if s == [] || !Before(s[0], x) {
      assert Insert(x, s) == [x] + s;
      ConsMembers(x, s);
    } else {
      InsertMembers(x, s[1..]);
      assert s == [s[0]] + s[1..];
      ConsMembers(s[0], s[1..]);
      ConsMembers(s[0], Insert(x, s[1..]));
    }
  }

  lemma {:induction false} ConsMembers(x: Id, s: seq<Id>)
    ensures Members([x] + s) == {x} + Members(s)
  {
    assert forall y :: y in [x] + s <==> y == x || y in s;
  }

  lemma {:induction false} InsertOrdered(x: Id, s: seq<Id>)
    requires Ordered(s)
    ensures Ordered(Insert(x, s))
  {
    if s == [] || !Before(s[0], x) {
    } else {
      InsertOrdered(x, s[1..]);
      InsertMembers(x, s[1..]);
      var t := Insert(x, s[1..]);
      forall j | 0 <= j < |t| ensures !Before(t[j], s[0]) {
        assert t[j] in Members(t);
        assert t[j] == x || t[j] in s[1..];
      }
    }
  }

  lemma {:induction false} SortSorts(s: seq<Id>)
    ensures Ordered(Sort(s)) && Members(Sort(s)) == Members(s)
  {
    if s != [] {
      SortSorts(s[1..]);
      InsertOrdered(s[0], Sort(s[1..]));
      InsertMembers(s[0], Sort(s[1..]));
      assert s == [s[0]] + s[1..];
      ConsMembers(s[0], s[1..]);
    }
  }

  lemma {:induction false} DedupStrict(s: seq<Id>)
    requires Ordered(s)
    ensures StrictlyOrdered(Dedup(s)) && Members(Dedup(s)) == Members(s)
    ensures s != [] ==> Dedup(s) != [] && Dedup(s)[0] == s[0]
  {
    if |s| > 1 {
      DedupStrict(s[1..]);
      assert s == [s[0]] + s[1..];
      ConsMembers(s[0], s[1..]);
      var t := Dedup(s[1..]);
      if s[0] == s[1] {
        assert s[0] in s[1..];
      } else {
        ConsMembers(s[0], t);
        forall j | 0 <= j < |t| ensures Before(s[0], t[j]) {
          assert !Before(s[1], s[0]) && Before(s[0], s[1]);
          assert t[j] in Members(t);
          var k :| 0 <= k < |s[1..]| && s[1..][k] == t[j];
        }
      }
    }
  }

  /** The union holds each id once, in strict order. */
  lemma {:induction false} UnionIsSorted(s: seq<Id>)
    ensures StrictlyOrdered(SortedUnion(s)) && Members(SortedUnion(s)) == Members(s)
  {
    SortSorts(s);
    DedupStrict(Sort(s));
  }

  /** That order is by creation tick, and by id among those of one tick. */
  lemma {:induction false} UnionByTick(s: seq<Id>, i: nat, j: nat)
    requires i < j < |SortedUnion(s)|
    ensures var u := SortedUnion(s); Created(u[i]) <= Created(u[j]) && (Created(u[i]) == Created(u[j]) ==> u[i] < u[j])
  {
    UnionIsSorted(s);
  }

  /** A set of ids has one strictly ordered list. */
  lemma {:induction false} OneOrderedList(a: seq<Id>, b: seq<Id>)
    requires StrictlyOrdered(a) && StrictlyOrdered(b) && Members(a) == Members(b)
    ensures a == b
  {
    assert a != [] ==> a[0] in Members(a);
    assert b != [] ==> b[0] in Members(b);
    if a != [] {
      assert a[0] in Members(a) && a[0] in b;
      assert b[0] in Members(b) && b[0] in a;
      assert a[0] == b[0];
      assert a == [a[0]] + a[1..] && b == [b[0]] + b[1..];
      forall x ensures x in Members(a[1..]) <==> x in Members(b[1..]) {
        TailMembers(a, x);
        TailMembers(b, x);
      }
      OneOrderedList(a[1..], b[1..]);
    }
  }

  lemma {:induction false} TailMembers(a: seq<Id>, x: Id)
    requires StrictlyOrdered(a) && a != []
    ensures x in Members(a[1..]) <==> x in Members(a) && x != a[0]
  {
    if x in Members(a) && x != a[0] {
      var i :| 0 <= i < |a| && a[i] == x;
      assert a[1..][i - 1] == x;
    }
    if x in Members(a[1..]) {
      var i :| 0 <= i < |a[1..]| && a[1..][i] == x;
      assert a[i + 1] == x;
    }
  }

  /** The union depends on which ids there are, not on their order or on repetition. */
  lemma {:induction false} UnionDependsOnSet(a: seq<Id>, b: seq<Id>)
    requires Members(a) == Members(b)
    ensures SortedUnion(a) == SortedUnion(b)
  {
    UnionIsSorted(a);
    UnionIsSorted(b);
    OneOrderedList(SortedUnion(a), SortedUnion(b));
  }

  /** A list already in strict order is its own union. */
  lemma {:induction false} UnionOfOrdered(a: seq<Id>, b: seq<Id>)
    requires StrictlyOrdered(a) && Members(b) <= Members(a)
    ensures SortedUnion(a + b) == a
  {
    UnionIsSorted(a + b);
    assert Members(a + b) == Members(a) by {
      assert forall x :: x in a + b <==> x in a || x in b;
      assert forall x :: x in b ==> x in Members(b);
    }
    OneOrderedList(SortedUnion(a + b), a);
  }

  lemma {:induction false} UnionShorter(s: seq<Id>)
    ensures |SortedUnion(s)| <= |s|
  {
    SortLength(s);
    DedupShorter(Sort(s));
  }

  lemma {:induction false} SortLength(s: seq<Id>)
    ensures |Sort(s)| == |s|
  {
    if s != [] {
      SortLength(s[1..]);
    }
  }

  lemma {:induction false} DedupShorter(s: seq<Id>)
    ensures |Dedup(s)| <= |s|
  {
    if |s| > 1 {
      DedupShorter(s[1..]);
    }
  }
}
