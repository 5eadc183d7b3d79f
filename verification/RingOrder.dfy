/** What the ring decides, by distance: the owner is the next position clockwise, and replicas follow in that order. */
module RingOrder {
  import opened Lists
  import opened Words
  import opened Wrappers
  import opened Ring

  /** Positions are 64-bit words, as keys are. */
  ghost predicate OnWords(ring: map<nat, NodeId>) {
    forall p <- ring :: p < WORD
  }

  /** How far `p` is from `key`, clockwise. */
  function Distance(key: U64, p: nat): nat {
    (p - key) % WORD
  }

  lemma {:induction false} DistanceIs(key: U64, p: nat)
    requires p < WORD
    ensures Distance(key, p) == if p >= key then p - key else p + WORD - key
  {
  }

  /** No position is nearer to the key than `p`. */
  ghost predicate Nearest(ring: map<nat, NodeId>, key: U64, p: nat) {
    p in ring && forall q <- ring :: Distance(key, p) <= Distance(key, q)
  }

  /** A node owns a key if and only if it has the position at the least clockwise distance from it. */
  lemma {:induction false} OwnerIsNearest(ring: map<nat, NodeId>, key: U64, n: NodeId)
    requires OnWords(ring)
    ensures OwnerOf(ring, key) == Some(n) <==> exists p <- ring :: ring[p] == n && Nearest(ring, key, p)
  {
    forall p | p in ring ensures Distance(key, p) == if p >= key then p - key else p + WORD - key {
      DistanceIs(key, p);
    }
    if ring != map[] {
      var s := if From(ring, key) != {} then From(ring, key) else ring.Keys;
      var m := Least(s);
      assert m in ring;
      forall q <- ring ensures Distance(key, m) <= Distance(key, q) {
        assert q >= key ==> q in From(ring, key);
      }
      assert Nearest(ring, key, m);
      forall p <- ring | Nearest(ring, key, p) ensures p == m {
        assert Distance(key, p) <= Distance(key, m) && Distance(key, m) <= Distance(key, p);
      }
    }
  }

  // ----- The walk meets nearer positions first -----

  /** The positions of `s`, lowest first. */
  function Positions(s: set<nat>): seq<nat>
    decreases |s|
  {
    if s == {} then [] else [Least(s)] + Positions(s - {Least(s)})
  }

  lemma {:induction false} PositionsStep(s: set<nat>)
    requires s != {}
    ensures Positions(s) == [Least(s)] + Positions(s - {Least(s)})
  {
    hide Least;
  }

  lemma {:induction false} PositionsHas(s: set<nat>, x: nat)
    ensures x in Positions(s) <==> x in s
    decreases |s|
  {
    if s != {} {
      PositionsStep(s);
      hide Positions, Least;
      PositionsHas(s - {Least(s)}, x);
    }
  }

  lemma {:induction false} PositionsSorted(s: set<nat>, i: nat, j: nat)
    requires i < j < |Positions(s)|
    ensures Positions(s)[i] < Positions(s)[j]
    decreases i
  {
    PositionsStep(s);
    hide Positions, Least;
    var m := Least(s);
    var rest := Positions(s - {m});
    if i == 0 {
      PositionsHas(s - {m}, rest[j - 1]);
      assert rest[j - 1] in rest;
    } else {
      PositionsSorted(s - {m}, i - 1, j - 1);
    }
  }

  lemma {:induction false} AlongPositions(ring: map<nat, NodeId>, s: set<nat>)
    requires s <= ring.Keys
    ensures |Along(ring, s)| == |Positions(s)|
    ensures forall i :: 0 <= i < |Positions(s)| ==> Positions(s)[i] in ring && Along(ring, s)[i] == ring[Positions(s)[i]]
    decreases |s|
  {
    if s != {} {
      var m := Least(s);
      AlongPositions(ring, s - {m});
      assert Positions(s) == [m] + Positions(s - {m}) && Along(ring, s) == [ring[m]] + Along(ring, s - {m});
    }
  }

  function Clockwise(ring: map<nat, NodeId>, key: nat): seq<nat> {
    Positions(From(ring, key)) + Positions(ring.Keys)
  }

  lemma {:induction false} WalkIsClockwise(ring: map<nat, NodeId>, key: nat)
    ensures |Walk(ring, key)| == |Clockwise(ring, key)|
    ensures forall i :: 0 <= i < |Clockwise(ring, key)| ==>
              Clockwise(ring, key)[i] in ring && Walk(ring, key)[i] == ring[Clockwise(ring, key)[i]]
  {
    hide Along, Positions;
    AlongPositions(ring, From(ring, key));
    AlongPositions(ring, ring.Keys);
  }

  /** A position nearer than the one at `i` was met before. */
  lemma {:induction false} NearerIsBefore(ring: map<nat, NodeId>, key: U64, i: nat, q: nat)
    requires OnWords(ring) && i < |Clockwise(ring, key)| && q in ring
    requires Clockwise(ring, key)[i] in ring && Distance(key, q) < Distance(key, Clockwise(ring, key)[i])
    ensures q in Clockwise(ring, key)[..i]
  {
    hide Positions, Distance;
    var a, b := Positions(From(ring, key)), Positions(ring.Keys);
    var p := Clockwise(ring, key)[i];
    DistanceIs(key, p);
    DistanceIs(key, q);
    PositionsHas(From(ring, key), p);
    PositionsHas(From(ring, key), q);
    PositionsHas(ring.Keys, q);
    if i < |a| {
      var h := PlaceOf(From(ring, key), q, i);
      assert Clockwise(ring, key)[..i][h] == q;
    } else if q >= key {
      var h :| 0 <= h < |a| && a[h] == q;
      assert Clockwise(ring, key)[..i][h] == q;
    } else {
      var h := PlaceOf(ring.Keys, q, i - |a|);
      assert Clockwise(ring, key)[..i][|a| + h] == q;
    }
  }

  /** A lower position has a lower place. */
  lemma {:induction false} PlaceOf(s: set<nat>, q: nat, i: nat) returns (h: nat)
    requires q in Positions(s) && i < |Positions(s)| && q < Positions(s)[i]
    ensures h < i && Positions(s)[h] == q
  {
    h :| h < |Positions(s)| && Positions(s)[h] == q;
    hide Positions;
    if i < h {
      PositionsSorted(s, i, h);
    }
  }

  // ----- Replicas -----

  /** Some position of `a` is nearer to the key than every position of `b`. */
  ghost predicate Nearer(ring: map<nat, NodeId>, key: U64, a: NodeId, b: NodeId) {
    exists p <- ring :: ring[p] == a && forall q <- ring :: ring[q] == b ==> Distance(key, p) < Distance(key, q)
  }

  /** The first occurrence of each element stands before that of every later one. */
  lemma {:induction false} FirstSeenOrder(w: seq<NodeId>, seen: set<NodeId>, i: nat, b: NodeId) returns (h: nat)
    requires i < |FirstSeen(w, seen)| && b !in FirstSeen(w, seen)[..i + 1] && b !in seen
    ensures h < |w| && w[h] == FirstSeen(w, seen)[i] && b !in w[..h]
  {
    FirstSeenMembers(w, seen);
    var r := FirstSeen(w, seen);
    if w[0] in seen {
      h := FirstSeenOrder(w[1..], seen, i, b);
      h := h + 1;
      assert w[..h] == [w[0]] + w[1..][..h - 1];
    } else if i == 0 {
      h := 0;
    } else {
      var rest := FirstSeen(w[1..], seen + {w[0]});
      assert r == [w[0]] + rest && r[..i + 1] == [w[0]] + rest[..i];
      assert b != w[0] by { assert r[..i + 1][0] == w[0]; }
      assert b !in rest[..i] by { assert forall x <- rest[..i] :: x in r[..i + 1]; }
      h := FirstSeenOrder(w[1..], seen + {w[0]}, i - 1, b);
      h := h + 1;
      assert w[..h] == [w[0]] + w[1..][..h - 1];
    }
  }

  lemma {:induction false} MetFirstIsNearer(ring: map<nat, NodeId>, key: U64, h: nat, b: NodeId)
    requires OnWords(ring) && h < |Walk(ring, key)| && b !in Walk(ring, key)[..h] && Walk(ring, key)[h] != b
    ensures Nearer(ring, key, Walk(ring, key)[h], b)
  {
    hide Walk, Clockwise;
    WalkIsClockwise(ring, key);
    var c, w := Clockwise(ring, key), Walk(ring, key);
    var p := c[h];
    forall q <- ring | ring[q] == b ensures Distance(key, p) < Distance(key, q) {
      forall i | 0 <= i < h ensures c[..h][i] != q {
        assert w[..h][i] == ring[c[i]];
      }
      if Distance(key, q) < Distance(key, p) {
        NearerIsBefore(ring, key, h, q);
      }
      DistanceIs(key, p);
      DistanceIs(key, q);
    }
  }

  /**
   A replica list is in order of the least clockwise distance from the key, and every node left out is farther
   than every node in it.
   */
  lemma {:induction false} ReplicasByDistance(ring: map<nat, NodeId>, key: U64, n: nat)
    requires OnWords(ring)
    ensures var r := Replicas(ring, key, n);
            && (forall i, j :: 0 <= i < j < |r| ==> Nearer(ring, key, r[i], r[j]))
            && (forall i, b :: 0 <= i < |r| && b in ring.Values && b !in r ==> Nearer(ring, key, r[i], b))
  {
    hide Walk, FirstSeen, Nearer;
    var r, all := Replicas(ring, key, n), FirstSeen(Walk(ring, key), {});
    FirstSeenMembers(Walk(ring, key), {});
    forall i, b | 0 <= i < |r| && b !in r[..i + 1] ensures Nearer(ring, key, r[i], b) {
      assert r[i] == all[i] && all[..i + 1] == r[..i + 1];
      var h := FirstSeenOrder(Walk(ring, key), {}, i, b);
      assert r[i] in r[..i + 1] by { assert r[..i + 1][i] == r[i]; }
      MetFirstIsNearer(ring, key, h, b);
    }
    forall i, j | 0 <= i < j < |r| ensures Nearer(ring, key, r[i], r[j]) {
      assert Distinct(all) && r[j] == all[j];
      assert forall k :: 0 <= k < i + 1 ==> r[..i + 1][k] == all[k];
      assert r[j] !in r[..i + 1];
    }
    forall i, b | 0 <= i < |r| && b in ring.Values && b !in r ensures Nearer(ring, key, r[i], b) {
      assert forall x <- r[..i + 1] :: x in r;
    }
  }
}
