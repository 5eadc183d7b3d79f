/** The consistent-hash ring: virtual positions, owners and replica sets. */
module Ring {
  import opened Lists
  import opened Wrappers

  type NodeId = nat

  const VIRTUAL_NODES: nat := 150

  /** Position of each virtual node of a node. */
  type Place = (NodeId, nat) -> nat

  // ----- Walking clockwise -----

  predicate IsLeast(m: nat, s: set<nat>) {
    m in s && forall p <- s :: m <= p
  }

  function Least(s: set<nat>): (m: nat)
    requires s != {}
    ensures IsLeast(m, s)
  {
    HasLeast(s);
    var m :| IsLeast(m, s);
    m
  }

  lemma {:induction false} HasLeast(s: set<nat>)
    requires s != {}
    ensures exists m :: IsLeast(m, s)
    decreases s
  {
    var first :| first in s;
    if s == {first} {
      assert IsLeast(first, s);
    } else {
      HasLeast(s - {first});
      var m :| IsLeast(m, s - {first});
      LeastWith(s, first, m);
    }
  }

  lemma {:induction false} LeastIs(m: nat, s: set<nat>)
    requires IsLeast(m, s)
    ensures Least(s) == m
  {
  }

  lemma {:induction false} LeastWith(s: set<nat>, first: nat, m: nat)
    requires first in s && IsLeast(m, s - {first})
    ensures IsLeast(if first < m then first else m, s)
  {
    forall p <- s ensures (if first < m then first else m) <= p {
      assert p == first || p in s - {first};
    }
  }

  /** Nodes at the positions of `s`, lowest position first. */
  function Along(ring: map<nat, NodeId>, s: set<nat>): seq<NodeId>
    requires s <= ring.Keys
    decreases |s|
  {
    if s == {} then [] else [ring[Least(s)]] + Along(ring, s - {Least(s)})
  }

  function From(ring: map<nat, NodeId>, key: nat): set<nat> {
    set p | p in ring && p >= key
  }

  /** Nodes met clockwise from `key`: to the end of the ring, then all of it. */
  function Walk(ring: map<nat, NodeId>, key: nat): seq<NodeId> {
    Along(ring, From(ring, key)) + Along(ring, ring.Keys)
  }

  /** The node at the first position from `key` on, wrapping at the end of the ring. */
  function OwnerOf(ring: map<nat, NodeId>, key: nat): Option<NodeId> {
    if ring == map[] then None
    else if From(ring, key) != {} then Some(ring[Least(From(ring, key))])
    else Some(ring[Least(ring.Keys)])
  }

  /** Elements of `w` not in `seen`, each at its first occurrence. */
  function FirstSeen(w: seq<NodeId>, seen: set<NodeId>): seq<NodeId> {
    if w == [] then []
    else if w[0] in seen then FirstSeen(w[1..], seen)
    else [w[0]] + FirstSeen(w[1..], seen + {w[0]})
  }

  function Cut(s: seq<NodeId>, n: nat): seq<NodeId> {
    if |s| <= n then s else s[..n]
  }

  /** The replica set: the first `n` nodes met clockwise. */
  function Replicas(ring: map<nat, NodeId>, key: nat, n: nat): seq<NodeId> {
    Cut(FirstSeen(Walk(ring, key), {}), n)
  }

  lemma {:induction false} FirstSeenMembers(w: seq<NodeId>, seen: set<NodeId>)
    ensures Members(FirstSeen(w, seen)) == Members(w) - seen && Distinct(FirstSeen(w, seen))
  {
    if w != [] {
      var rest := w[1..];
      assert w == [w[0]] + rest;
      assert Members(w) == {w[0]} + Members(rest);
      if w[0] in seen {
        FirstSeenMembers(rest, seen);
      } else {
        FirstSeenMembers(rest, seen + {w[0]});
        var r := FirstSeen(rest, seen + {w[0]});
        assert Members([w[0]] + r) == {w[0]} + Members(r);
        forall j | 0 <= j < |r| ensures r[j] != w[0] {
          assert r[j] in Members(r);
        }
      }
    }
  }

  lemma {:induction false} AlongMembers(ring: map<nat, NodeId>, s: set<nat>, x: NodeId)
    requires s <= ring.Keys
    ensures x in Along(ring, s) <==> exists p <- s :: ring[p] == x
    decreases |s|
  {
    if s != {} {
      var m := Least(s);
      AlongMembers(ring, s - {m}, x);
      assert Along(ring, s) == [ring[m]] + Along(ring, s - {m});
    }
  }

  /** Nodes met are the nodes with a position, and the first met is the owner. */
  lemma {:induction false} WalkMembers(ring: map<nat, NodeId>, key: nat)
    ensures Members(Walk(ring, key)) == ring.Values
    ensures ring != map[] ==> Walk(ring, key) != [] && OwnerOf(ring, key) == Some(Walk(ring, key)[0])
  {
    forall x ensures x in Members(Walk(ring, key)) <==> x in ring.Values {
      AlongMembers(ring, From(ring, key), x);
      AlongMembers(ring, ring.Keys, x);
    }
    assert From(ring, key) == {} ==> Along(ring, From(ring, key)) == [];
  }

  /** A replica list has no repetitions, begins with the owner, and has `n` nodes or all of them. */
  lemma {:induction false} ReplicasShape(ring: map<nat, NodeId>, key: nat, n: nat)
    ensures Distinct(Replicas(ring, key, n))
    ensures Members(Replicas(ring, key, n)) <= ring.Values
    ensures |Replicas(ring, key, n)| == if n <= |ring.Values| then n else |ring.Values|
    ensures n > 0 && ring != map[] ==>
              Replicas(ring, key, n) != [] && OwnerOf(ring, key) == Some(Replicas(ring, key, n)[0])
  {
    hide Walk, OwnerOf;
    WalkMembers(ring, key);
    var w := Walk(ring, key);
    FirstSeenMembers(w, {});
    var all := FirstSeen(w, {});
    DistinctCount(all);
    assert Members(all) == ring.Values;
    assert forall x <- Replicas(ring, key, n) :: x in all;
  }

  // ----- Removing and adding a node -----

  /** The ring without the positions of `x`. */
  function Evicted(ring: map<nat, NodeId>, x: NodeId): map<nat, NodeId> {
    map p | p in ring && ring[p] != x :: ring[p]
  }

  function Spared(ring: map<nat, NodeId>, s: set<nat>, x: NodeId): set<nat>
    requires s <= ring.Keys
  {
    set p | p in s && ring[p] != x
  }

  lemma {:induction false} AlongEvicted(ring: map<nat, NodeId>, s: set<nat>, x: NodeId)
    requires s <= ring.Keys
    ensures Spared(ring, s, x) <= Evicted(ring, x).Keys
    ensures Along(Evicted(ring, x), Spared(ring, s, x)) == Without(Along(ring, s), x)
    decreases |s|
  {
    if s != {} {
      var m := Least(s);
      var left, rest := Spared(ring, s, x), s - {m};
      AlongEvicted(ring, rest, x);
      var w := Along(ring, s);
      assert w == [ring[m]] + Along(ring, rest) && w[1..] == Along(ring, rest);
      if ring[m] == x {
        assert left == Spared(ring, rest, x);
      } else {
        LeastIs(m, left);
        assert left - {m} == Spared(ring, rest, x);
      }
    }
  }

  lemma {:induction false} WalkEvicted(ring: map<nat, NodeId>, key: nat, x: NodeId)
    ensures Walk(Evicted(ring, x), key) == Without(Walk(ring, key), x)
  {
    hide Along, Without;
    AlongEvicted(ring, From(ring, key), x);
    AlongEvicted(ring, ring.Keys, x);
    assert From(Evicted(ring, x), key) == Spared(ring, From(ring, key), x);
    assert Evicted(ring, x).Keys == Spared(ring, ring.Keys, x);
    WithoutConcat(Along(ring, From(ring, key)), Along(ring, ring.Keys), x);
  }

  lemma {:induction false} FirstSeenDropped(w: seq<NodeId>, x: NodeId, seen: set<NodeId>, also: set<NodeId>)
    requires seen - {x} == also - {x}
    ensures FirstSeen(Without(w, x), seen) == Without(FirstSeen(w, also), x)
  {
    if w != [] {
      var rest := w[1..];
      var now := also + {w[0]};
      if w[0] == x {
        assert Without(w, x) == Without(rest, x);
        if x in also {
          FirstSeenDropped(rest, x, seen, also);
        } else {
          FirstSeenDropped(rest, x, seen, now);
          assert FirstSeen(w, also)[1..] == FirstSeen(rest, now);
        }
      } else {
        assert Without(w, x)[1..] == Without(rest, x);
        assert w[0] in seen - {x} <==> w[0] in also - {x};
        if w[0] in also {
          FirstSeenDropped(rest, x, seen, also);
        } else {
          assert (seen + {w[0]}) - {x} == (seen - {x}) + {w[0]} == now - {x};
          FirstSeenDropped(rest, x, seen + {w[0]}, now);
          assert FirstSeen(w, also)[1..] == FirstSeen(rest, now);
        }
      }
    }
  }

  /** Dropping one node commutes with cutting, if one place more is kept. */
  lemma {:induction false} CutDropped(s: seq<NodeId>, x: NodeId, n: nat)
    requires Distinct(s)
    ensures Cut(Without(s, x), n) == Cut(Without(Cut(s, n + 1), x), n)
  {
    if |s| > n + 1 {
      var head, tail := s[..n + 1], s[n + 1..];
      assert s == head + tail;
      WithoutConcat(head, tail, x);
      WithoutLength(head, x);
    }
  }

  /** After a node is gone, the replica list of `n` is the old list of `n + 1` without it, cut to `n`. */
  lemma {:induction false} ReplicasAfterEviction(ring: map<nat, NodeId>, key: nat, x: NodeId, n: nat)
    ensures Replicas(Evicted(ring, x), key, n) == Cut(Without(Replicas(ring, key, n + 1), x), n)
  {
    hide Walk, Without, FirstSeen, Evicted, Cut;
    WalkEvicted(ring, key, x);
    FirstSeenDropped(Walk(ring, key), x, {}, {});
    FirstSeenMembers(Walk(ring, key), {});
    CutDropped(FirstSeen(Walk(ring, key), {}), x, n);
  }

  lemma {:induction false} NoValues(ring: map<nat, NodeId>)
    ensures ring == map[] <==> ring.Values == {}
  {
    if ring != map[] {
      var p :| p in ring;
      assert ring[p] in ring.Values;
    }
  }

  /** When the owner is evicted, its second replica takes over. */
  lemma {:induction false} SecondReplicaTakesOver(ring: map<nat, NodeId>, key: nat, x: NodeId)
    requires OwnerOf(ring, key) == Some(x) && |ring.Values| >= 2
    ensures |Replicas(ring, key, 2)| == 2 && OwnerOf(Evicted(ring, x), key) == Some(Replicas(ring, key, 2)[1])
  {
    hide Replicas, OwnerOf, Evicted;
    var two := Replicas(ring, key, 2);
    ReplicasShape(ring, key, 2);
    ReplicasAfterEviction(ring, key, x, 1);
    ReplicasShape(Evicted(ring, x), key, 1);
    NoValues(ring);
    assert Without(two, x) == [two[1]] by {
      assert two == [two[0]] + [two[1]] && two[0] == x && two[1] != x;
      WithoutConcat([two[0]], [two[1]], x);
    }
    assert |Replicas(Evicted(ring, x), key, 1)| == 1;
    NoValues(Evicted(ring, x));
  }

  /** Evicting a node moves only the keys it owned. */
  lemma {:induction false} OnlyItsKeysMove(ring: map<nat, NodeId>, key: nat, x: NodeId)
    requires OwnerOf(ring, key) != Some(x)
    ensures OwnerOf(Evicted(ring, x), key) == OwnerOf(ring, key)
  {
    var left := Evicted(ring, x);
    if ring != map[] {
      var s := if From(ring, key) != {} then From(ring, key) else ring.Keys;
      var m := Least(s);
      assert m in left;
      if From(ring, key) != {} {
        assert m in From(left, key) && From(left, key) <= s;
        LeastIs(m, From(left, key));
      } else {
        assert From(left, key) == {};
        LeastIs(m, left.Keys);
      }
    }
  }

  // ----- The positions follow from the membership -----

  /** Different nodes have no position in common. */
  ghost predicate Apart(place: Place, members: set<NodeId>) {
    forall a <- members, b <- members, i: nat, j: nat ::
      a != b && i < VIRTUAL_NODES && j < VIRTUAL_NODES ==> place(a, i) != place(b, j)
  }

  /** The ring holds the positions of the members, and no others. */
  ghost predicate Placed(ring: map<nat, NodeId>, place: Place, members: set<NodeId>) {
    && (forall p <- ring :: ring[p] in members && exists i: nat :: i < VIRTUAL_NODES && p == place(ring[p], i))
    && (forall m <- members, i: nat :: i < VIRTUAL_NODES ==> place(m, i) in ring && ring[place(m, i)] == m)
  }

  /** Two rings with the same members are the same, whatever was added and removed on the way. */
  lemma {:induction false} MembershipDecides(r: map<nat, NodeId>, q: map<nat, NodeId>, place: Place, members: set<NodeId>)
    requires Placed(r, place, members) && Placed(q, place, members)
    ensures r == q
  {
    forall p ensures p in r <==> p in q {
      if p in r { var i: nat :| i < VIRTUAL_NODES && p == place(r[p], i); }
      if p in q { var i: nat :| i < VIRTUAL_NODES && p == place(q[p], i); }
    }
    forall p | p in r && p in q ensures r[p] == q[p] {
      var i: nat :| i < VIRTUAL_NODES && p == place(r[p], i);
    }
    assert r.Keys == q.Keys;
  }

  lemma {:induction false} NodesOf(ring: map<nat, NodeId>, place: Place, members: set<NodeId>)
    requires Placed(ring, place, members)
    ensures ring.Values == members && (ring == map[] <==> members == {})
  {
    forall m ensures m in ring.Values <==> m in members {
      if m in members {
        assert place(m, 0) in ring && ring[place(m, 0)] == m;
      }
    }
    NoValues(ring);
  }

  /** Nodes with equal views agree on one owner, a member. */
  lemma {:induction false} OneOwner(r: map<nat, NodeId>, q: map<nat, NodeId>, place: Place, members: set<NodeId>, key: nat)
    requires Placed(r, place, members) && Placed(q, place, members) && members != {}
    ensures OwnerOf(r, key) == OwnerOf(q, key)
    ensures OwnerOf(r, key).Some? && OwnerOf(r, key).value in members
  {
    MembershipDecides(r, q, place, members);
    NodesOf(r, place, members);
  }

  /** Whether node `me` serves the key: a transfer pin overrides the ring. */
  predicate Owns(r: map<nat, NodeId>, me: NodeId, pinned: bool, key: nat) {
    pinned || OwnerOf(r, key) == Some(me)
  }

  /**
   Members with a ring each and some of them with a pin on the partition: it has an owner, and only one
   exactly if no member but the ring's owner has a pin.
   */
  lemma {:induction false} OneOwnerIffNoOtherPin(rings: map<NodeId, map<nat, NodeId>>, pins: set<NodeId>, place: Place, key: nat)
    requires rings != map[] && forall n <- rings :: Placed(rings[n], place, rings.Keys)
    ensures exists n <- rings :: Owns(rings[n], n, n in pins, key)
    ensures (forall n <- rings, k <- rings :: Owns(rings[n], n, n in pins, key) && Owns(rings[k], k, k in pins, key) ==> n == k)
       <==> forall n <- rings :: n in pins ==> OwnerOf(rings[n], key) == Some(n)
  {
    hide OwnerOf, Placed;
    var any :| any in rings;
    OneOwner(rings[any], rings[any], place, rings.Keys, key);
    var owner := OwnerOf(rings[any], key).value;
    forall n <- rings ensures OwnerOf(rings[n], key) == Some(owner) {
      OneOwner(rings[any], rings[n], place, rings.Keys, key);
    }
    assert Owns(rings[owner], owner, owner in pins, key);
  }

  /** Taking a member out of the ring leaves the ring of the others. */
  lemma {:induction false} EvictedPlaced(ring: map<nat, NodeId>, place: Place, members: set<NodeId>, x: NodeId)
    requires Placed(ring, place, members)
    ensures Placed(Evicted(ring, x), place, members - {x})
  {
  }

  /** Adding a node only moves keys to it; removing one only moves its own. */
  lemma {:induction false} MovesAreMinimal(small: map<nat, NodeId>, big: map<nat, NodeId>, place: Place,
                                           members: set<NodeId>, x: NodeId, key: nat)
    requires x !in members && Placed(small, place, members) && Placed(big, place, members + {x})
    ensures OwnerOf(big, key) == Some(x) || OwnerOf(big, key) == OwnerOf(small, key)
  {
    hide OwnerOf, Placed, Evicted;
    EvictedPlaced(big, place, members + {x}, x);
    assert members + {x} - {x} == members;
    MembershipDecides(small, Evicted(big, x), place, members);
    if OwnerOf(big, key) != Some(x) {
      OnlyItsKeysMove(big, key, x);
    }
  }

  class ConsistentRing {
    const place: Place
    var ring: map<nat, NodeId>
    var addrs: map<NodeId, string>

    ghost predicate Valid()
      reads this
    {
      Apart(place, addrs.Keys) && Placed(ring, place, addrs.Keys)
    }

    constructor (place: Place)
      ensures Valid() && this.place == place && addrs == map[]
    {
      this.place := place;
      ring, addrs := map[], map[];
    }

    /** Add a node, or refresh it. */
    method AddNode(id: NodeId, addr: string)
      requires Valid() && Apart(place, addrs.Keys + {id})
      modifies this
      ensures Valid() && addrs == old(addrs)[id := addr]
      ensures id in old(addrs) ==> ring == old(ring)
    {
      addrs := addrs[id := addr];
      assert addrs.Keys == old(addrs.Keys) + {id};
      var vn := 0;
      while vn < VIRTUAL_NODES
        invariant vn <= VIRTUAL_NODES && addrs == old(addrs)[id := addr]
        invariant Growing(ring, old(ring), place, id, vn)
      {
        ring := ring[place(id, vn) := id];
        vn := vn + 1;
      }
      Grown(ring, old(ring), place, old(addrs.Keys), id);
      if id in old(addrs) {
        assert old(addrs.Keys) + {id} == old(addrs.Keys);
        MembershipDecides(ring, old(ring), place, old(addrs.Keys));
      }
    }

    /** Remove a node. */
    method RemoveNode(id: NodeId) returns (present: bool)
      requires Valid()
      modifies this
      ensures Valid() && present == (id in old(addrs)) && addrs == old(addrs) - {id}
      ensures ring == Evicted(old(ring), id)
    {
      hide Placed, Apart, Evicted;
      if id !in addrs {
        Absent(ring, place, addrs.Keys, id);
        assert addrs == addrs - {id};
        return false;
      }
      addrs := addrs - {id};
      var vn := 0;
      while vn < VIRTUAL_NODES
        invariant vn <= VIRTUAL_NODES && addrs == old(addrs) - {id}
        invariant Shrinking(ring, old(ring), place, id, vn)
      {
        ring := ring - {place(id, vn)};
        vn := vn + 1;
      }
      Shrunk(ring, old(ring), place, old(addrs.Keys), id);
      EvictedPlaced(old(ring), place, old(addrs.Keys), id);
      assert addrs.Keys == old(addrs.Keys) - {id};
      Fewer(place, old(addrs.Keys), addrs.Keys);
      return true;
    }

    /** The first `n` distinct nodes clockwise from `key`, the owner first. */
    method ReplicasOf(key: nat, n: nat) returns (out: seq<NodeId>)
      requires Valid()
      ensures out == Replicas(ring, key, n)
      ensures |out| == if n <= |addrs| then n else |addrs|
    {
      hide Walk, Replicas, Apart, Placed, FirstSeen, Distinct;
      ReplicasShape(ring, key, n);
      NodesOf(ring, place, addrs.Keys);
      assert |addrs| == |addrs.Keys|;
      out := [];
      if n == 0 || ring == map[] {
        NoReplicas(ring, key, n);
        return;
      }
      var walk := Walk(ring, key);
      WalkMembers(ring, key);
      FirstSeenMembers(walk, {});
      DistinctCount(FirstSeen(walk, {}));
      assert Members(walk) - {} == addrs.Keys;
      NoneSeen(walk);
      var i := 0;
      while i < |walk|
        invariant i <= |walk| && out == FirstSeen(walk[..i], {})
        invariant |out| < n
      {
        SeenStep(walk, i);
        if walk[i] !in out {
          out := out + [walk[i]];
          if |out| == n || |out| == |addrs| {
            CutAt(ring, key, n, walk, i + 1);
            return;
          }
        }
        i := i + 1;
      }
      assert walk[..i] == walk;
      CutAt(ring, key, n, walk, i);
    }
  }

  /** `now` is `was` with the first `vn` positions of `id` set. */
  ghost predicate Growing(now: map<nat, NodeId>, was: map<nat, NodeId>, place: Place, id: NodeId, vn: nat) {
    && (forall p <- was :: p in now && (now[p] == was[p] || now[p] == id))
    && (forall p <- now :: (p in was && now[p] == was[p]) || (now[p] == id && exists i: nat :: i < vn && p == place(id, i)))
    && (forall i: nat :: i < vn ==> place(id, i) in now && now[place(id, i)] == id)
  }

  lemma {:induction false} Grown(now: map<nat, NodeId>, was: map<nat, NodeId>, place: Place, members: set<NodeId>, id: NodeId)
    requires Placed(was, place, members) && Apart(place, members + {id}) && Growing(now, was, place, id, VIRTUAL_NODES)
    ensures Placed(now, place, members + {id})
  {
    forall m <- members, i: nat | i < VIRTUAL_NODES ensures place(m, i) in now && now[place(m, i)] == m {
      var p := place(m, i);
      assert p in was && was[p] == m;
      if m != id {
        assert forall j: nat :: j < VIRTUAL_NODES ==> p != place(id, j);
      }
    }
  }

  /** `now` is `was` without the first `vn` positions of `id`. */
  ghost predicate Shrinking(now: map<nat, NodeId>, was: map<nat, NodeId>, place: Place, id: NodeId, vn: nat) {
    && (forall p <- now :: p in was && now[p] == was[p] && forall i: nat :: i < vn ==> p != place(id, i))
    && (forall p <- was :: p in now || exists i: nat :: i < vn && p == place(id, i))
  }

  lemma {:induction false} Shrunk(now: map<nat, NodeId>, was: map<nat, NodeId>, place: Place, members: set<NodeId>, id: NodeId)
    requires Placed(was, place, members) && id in members && Shrinking(now, was, place, id, VIRTUAL_NODES)
    ensures now == Evicted(was, id)
  {
    forall p ensures p in now <==> p in Evicted(was, id) {
      if p in was && was[p] == id {
        var i: nat :| i < VIRTUAL_NODES && p == place(was[p], i);
      }
    }
    assert now.Keys == Evicted(was, id).Keys;
  }

  lemma {:induction false} Fewer(place: Place, members: set<NodeId>, some: set<NodeId>)
    requires Apart(place, members) && some <= members
    ensures Apart(place, some)
  {
  }

  lemma {:induction false} Absent(ring: map<nat, NodeId>, place: Place, members: set<NodeId>, id: NodeId)
    requires Placed(ring, place, members) && id !in members
    ensures Evicted(ring, id) == ring
  {
  }

  lemma {:induction false} NoReplicas(ring: map<nat, NodeId>, key: nat, n: nat)
    requires n == 0 || ring == map[]
    ensures Replicas(ring, key, n) == []
  {
    ReplicasShape(ring, key, n);
    NoValues(ring);
  }

  /** One step of the walk adds the node met, unless it was met before. */
  lemma {:induction false} SeenStep(w: seq<NodeId>, i: nat)
    requires i < |w|
    ensures FirstSeen(w[..i + 1], {}) == FirstSeen(w[..i], {}) + if w[i] in FirstSeen(w[..i], {}) then [] else [w[i]]
  {
    assert w[..i + 1] == w[..i] + [w[i]];
    SeenAppend(w[..i], w[i], {});
    FirstSeenMembers(w[..i], {});
    assert w[i] in FirstSeen(w[..i], {}) <==> w[i] in Members(FirstSeen(w[..i], {}));
  }

  lemma {:induction false} SeenAppend(w: seq<NodeId>, x: NodeId, seen: set<NodeId>)
    ensures FirstSeen(w + [x], seen) == FirstSeen(w, seen) + if x in w || x in seen then [] else [x]
  {
    if w == [] {
      assert [] + [x] == [x] && [x][1..] == [];
    } else {
      var rest := w[1..];
      assert (w + [x])[1..] == rest + [x];
      assert x in w <==> x == w[0] || x in rest;
      SeenAppend(rest, x, if w[0] in seen then seen else seen + {w[0]});
    }
  }

  lemma {:induction false} SeenPrefix(w: seq<NodeId>, n: nat)
    requires n <= |w|
    ensures FirstSeen(w[..n], {}) <= FirstSeen(w, {})
    decreases |w| - n
  {
    if n < |w| {
      SeenStep(w, n);
      SeenPrefix(w, n + 1);
    } else {
      assert w[..n] == w;
    }
  }

  lemma {:induction false} NoneSeen(w: seq<NodeId>)
    ensures FirstSeen(w[..0], {}) == []
  {
  }

  /** The loop may stop at `n` nodes or when every node was met. */
  lemma {:induction false} CutAt(ring: map<nat, NodeId>, key: nat, n: nat, w: seq<NodeId>, i: nat)
    requires w == Walk(ring, key) && i <= |w|
    requires var out := FirstSeen(w[..i], {}); |out| == n || (|out| == |FirstSeen(w, {})| && |out| <= n)
    ensures Replicas(ring, key, n) == FirstSeen(w[..i], {})
  {
    SeenPrefix(w, i);
  }
}
