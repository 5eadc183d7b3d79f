/** Breadth-first search over the version graph, as a function, and what it finds. */
module Versions {
  import opened Wrappers
  import opened Lists

  datatype Version = Version(structId: nat, version: nat)

  /** Forward edges: per version its targets in order of registration, with the has-rollback flag. */
  type Graph = map<Version, seq<(Version, bool)>>

  ghost predicate Edge(g: Graph, u: Version, v: Version) {
    u in g && exists i :: 0 <= i < |g[u]| && g[u][i].0 == v
  }

  /** `p` leads from `u` to `v` along edges. */
  ghost predicate Path(g: Graph, p: seq<Version>, u: Version, v: Version) {
    && p != [] && p[0] == u && p[|p| - 1] == v
    && forall i :: 0 <= i < |p| - 1 ==> Edge(g, p[i], p[i + 1])
  }

  ghost predicate Reachable(g: Graph, u: Version, v: Version) {
    exists p :: Path(g, p, u, v)
  }

  // ----- The search -----

  /** Queue, parent of each version met, and its distance from the start. */
  datatype Search = Search(queue: seq<Version>, parent: map<Version, Version>, level: map<Version, nat>)

  /** Meet one neighbour of `cur`: if it is new, it is queued. */
  function Meet(cur: Version, next: Version, s: Search): Search {
    if next in s.parent then s
    else Search(s.queue + [next], s.parent[next := cur], s.level[next := (if cur in s.level then s.level[cur] else 0) + 1])
  }

  /** Meet all neighbours of `cur`, in order. */
  function Discover(cur: Version, nbrs: seq<(Version, bool)>, s: Search): Search {
    if nbrs == [] then s
    else Meet(cur, nbrs[|nbrs| - 1].0, Discover(cur, nbrs[..|nbrs| - 1], s))
  }

  function Neighbours(g: Graph, u: Version): seq<(Version, bool)> {
    if u in g then g[u] else []
  }

  /** What the search keeps: a tree of shortest distances, and a queue in order of distance. */
  ghost predicate Sound(g: Graph, from: Version, to: Version, s: Search) {
    && Rooted(from, s)
    && Tree(g, from, s)
    && (forall v <- s.queue :: v in s.parent)
    && (forall i, j :: 0 <= i < j < |s.queue| ==> s.level[s.queue[i]] <= s.level[s.queue[j]])
    && (s.queue != [] ==> forall v <- s.parent :: s.level[v] <= s.level[s.queue[0]] + 1)
    && (forall u <- s.parent :: u !in s.queue ==> u != to && Expanded(g, u, s))
  }

  ghost predicate Rooted(from: Version, s: Search) {
    s.level.Keys == s.parent.Keys && from in s.parent && s.level[from] == 0
  }

  /** Parents are one step nearer the start, along an edge. */
  ghost predicate Tree(g: Graph, from: Version, s: Search)
    requires s.level.Keys == s.parent.Keys
  {
    forall v <- s.parent :: v != from ==>
      s.parent[v] in s.parent && Edge(g, s.parent[v], v) && s.level[v] == s.level[s.parent[v]] + 1
  }

  /** Every neighbour of `u` was met, at most one step further than `u`. */
  ghost predicate Expanded(g: Graph, u: Version, s: Search)
    requires u in s.level
  {
    forall v :: Edge(g, u, v) ==> v in s.level && s.level[v] <= s.level[u] + 1
  }

  // ----- One expansion -----

  /** `t` is `s` after some neighbours of `cur` were met. */
  ghost predicate Met(cur: Version, s: Search, t: Search)
    requires cur in s.level
  {
    && s.parent.Keys <= t.parent.Keys && t.level.Keys == t.parent.Keys && s.level.Keys == s.parent.Keys
    && (forall v <- s.parent :: t.parent[v] == s.parent[v] && t.level[v] == s.level[v])
    && (forall v <- t.parent :: v !in s.parent ==> t.parent[v] == cur && t.level[v] == s.level[cur] + 1)
    && |s.queue| <= |t.queue| && t.queue[..|s.queue|] == s.queue
    && (forall v <- t.parent :: v !in s.parent ==> v in t.queue)
    && (forall i :: |s.queue| <= i < |t.queue| ==> t.queue[i] in t.parent && t.queue[i] !in s.parent)
  }

  lemma {:induction false} DiscoverMeets(cur: Version, nbrs: seq<(Version, bool)>, s: Search)
    requires cur in s.parent && s.level.Keys == s.parent.Keys
    ensures Met(cur, s, Discover(cur, nbrs, s))
  {
    hide Met, Meet;
    if nbrs == [] {
      NoneMet(cur, s);
    } else {
      var init := nbrs[..|nbrs| - 1];
      DiscoverMeets(cur, init, s);
      MeetMeets(cur, nbrs[|nbrs| - 1].0, s, Discover(cur, init, s));
    }
  }

  lemma {:induction false} NoneMet(cur: Version, s: Search)
    requires cur in s.parent && s.level.Keys == s.parent.Keys
    ensures Met(cur, s, s)
  {
  }

  /** Versions met are those met before and the neighbours. */
  lemma {:induction false} DiscoverKnows(cur: Version, nbrs: seq<(Version, bool)>, s: Search, v: Version)
    ensures v in Discover(cur, nbrs, s).parent <==> v in s.parent || exists i :: 0 <= i < |nbrs| && nbrs[i].0 == v
  {
    if nbrs != [] {
      var init, last := nbrs[..|nbrs| - 1], nbrs[|nbrs| - 1];
      DiscoverKnows(cur, init, s, v);
      if i :| 0 <= i < |init| && init[i].0 == v {
        assert nbrs[i].0 == v;
      }
    }
  }

  lemma {:induction false} MeetMeets(cur: Version, next: Version, s: Search, m: Search)
    requires cur in s.level && Met(cur, s, m)
    ensures Met(cur, s, Meet(cur, next, m)) && next in Meet(cur, next, m).parent
    ensures m.parent.Keys <= Meet(cur, next, m).parent.Keys <= m.parent.Keys + {next}
  {
    var t := Meet(cur, next, m);
    if next !in m.parent {
      assert t.queue == m.queue + [next];
    }
  }

  /** The search after its first queued version is expanded. */
  function Expand(g: Graph, s: Search): Search
    requires s.queue != []
  {
    Discover(s.queue[0], Neighbours(g, s.queue[0]), s.(queue := s.queue[1..]))
  }

  lemma {:induction false} ExpandMeets(g: Graph, from: Version, to: Version, s: Search)
    requires Sound(g, from, to, s) && s.queue != []
    ensures s.queue[0] in s.level
    ensures var cur, rest := s.queue[0], s.(queue := s.queue[1..]);
            && Met(cur, rest, Expand(g, s))
            && (forall v <- Expand(g, s).parent :: v !in s.parent ==> Edge(g, cur, v))
            && (forall v :: Edge(g, cur, v) ==> v in Expand(g, s).parent)
  {
    hide Met, Discover;
    var cur, rest := s.queue[0], s.(queue := s.queue[1..]);
    assert cur in s.queue;
    DiscoverMeets(cur, Neighbours(g, cur), rest);
    forall v ensures v in Expand(g, s).parent <==> v in s.parent || Edge(g, cur, v) {
      DiscoverKnows(cur, Neighbours(g, cur), rest, v);
    }
  }

  lemma {:induction false} ExpandSound(g: Graph, from: Version, to: Version, s: Search)
    requires Sound(g, from, to, s) && s.queue != [] && s.queue[0] != to
    ensures Sound(g, from, to, Expand(g, s))
  {
    hide Expand, Edge;
    ExpandMeets(g, from, to, s);
    var t := Expand(g, s);
    ExpandTree(g, from, to, s, t);
    ExpandQueue(g, from, to, s, t);
    forall u <- t.parent | u !in t.queue ensures u != to && Expanded(g, u, t) {
      ExpandDone(g, from, to, s, t, u);
    }
  }

  lemma {:induction false} ExpandTree(g: Graph, from: Version, to: Version, s: Search, t: Search)
    requires Sound(g, from, to, s) && s.queue != [] && Met(s.queue[0], s.(queue := s.queue[1..]), t)
    requires forall v <- t.parent :: v !in s.parent ==> Edge(g, s.queue[0], v)
    ensures Rooted(from, t) && Tree(g, from, t)
  {
    hide Edge, Expanded;
  }

  lemma {:induction false} ExpandQueue(g: Graph, from: Version, to: Version, s: Search, t: Search)
    requires Sound(g, from, to, s) && s.queue != [] && Met(s.queue[0], s.(queue := s.queue[1..]), t)
    ensures forall v <- t.queue :: v in t.parent
    ensures forall i, j :: 0 <= i < j < |t.queue| ==> t.level[t.queue[i]] <= t.level[t.queue[j]]
    ensures t.queue != [] ==> forall v <- t.parent :: t.level[v] <= t.level[t.queue[0]] + 1
  {
    hide Edge, Expanded, Tree;
    var cur, rest := s.queue[0], s.queue[1..];
    assert cur in s.queue;
    forall i | 0 <= i < |t.queue|
      ensures t.queue[i] in t.parent && s.level[cur] <= t.level[t.queue[i]] <= s.level[cur] + 1
    {
      if i < |rest| {
        assert t.queue[i] == t.queue[..|rest|][i] == s.queue[i + 1];
        assert s.queue[i + 1] in s.queue;
      }
    }
    forall i, j | 0 <= i < j < |t.queue| ensures t.level[t.queue[i]] <= t.level[t.queue[j]] {
      if j < |rest| {
        assert t.queue[i] == t.queue[..|rest|][i] == s.queue[i + 1];
        assert t.queue[j] == t.queue[..|rest|][j] == s.queue[j + 1];
      }
    }
  }

  lemma {:induction false} ExpandDone(g: Graph, from: Version, to: Version, s: Search, t: Search, u: Version)
    requires Sound(g, from, to, s) && s.queue != [] && s.queue[0] != to && Met(s.queue[0], s.(queue := s.queue[1..]), t)
    requires forall v :: Edge(g, s.queue[0], v) ==> v in t.parent
    requires u in t.parent && u !in t.queue
    ensures u != to && Expanded(g, u, t)
  {
    hide Edge, Tree;
    var cur, rest := s.queue[0], s.queue[1..];
    if u == cur {
      assert cur in s.queue;
    } else {
      StillQueued(s.(queue := rest), t, cur, u);
      assert u !in s.queue by { assert s.queue == [cur] + rest; }
      assert Expanded(g, u, s);
    }
  }

  lemma {:induction false} StillQueued(s: Search, t: Search, cur: Version, u: Version)
    requires cur in s.level && Met(cur, s, t) && u !in t.queue
    ensures u !in s.queue && (u in t.parent ==> u in s.parent)
  {
    forall i | 0 <= i < |s.queue| ensures s.queue[i] != u {
      assert t.queue[i] == t.queue[..|s.queue|][i];
    }
  }

  // ----- The whole search -----

  ghost predicate Closed(g: Graph, all: set<Version>) {
    forall u, v :: Edge(g, u, v) ==> v in all
  }

  /** The state in which the search takes `to` from the queue, if it does. */
  ghost function Bfs(g: Graph, from: Version, to: Version, all: set<Version>, s: Search): (r: Option<Search>)
    requires Sound(g, from, to, s) && s.parent.Keys <= all && Closed(g, all)
    ensures r.Some? ==> Sound(g, from, to, r.value) && r.value.queue != [] && r.value.queue[0] == to
    decreases |all - s.parent.Keys|, |s.queue|
  {
    if s.queue == [] then None
    else if s.queue[0] == to then Some(s)
    else
      ExpandSound(g, from, to, s);
      ExpandProgress(g, from, to, all, s);
      Bfs(g, from, to, all, Expand(g, s))
  }

  lemma {:induction false} ExpandProgress(g: Graph, from: Version, to: Version, all: set<Version>, s: Search)
    requires Sound(g, from, to, s) && s.queue != [] && s.parent.Keys <= all && Closed(g, all)
    ensures var t := Expand(g, s);
            && t.parent.Keys <= all
            && (|all - t.parent.Keys| < |all - s.parent.Keys|
                || (|all - t.parent.Keys| == |all - s.parent.Keys| && |t.queue| < |s.queue|))
  {
    hide Expand, Sound, Edge;
    ExpandMeets(g, from, to, s);
    var t := Expand(g, s);
    if |t.queue| >= |s.queue| {
      var v := t.queue[|s.queue| - 1];
      SubsetCount(all - t.parent.Keys, all - s.parent.Keys - {v});
    } else {
      SubsetCount(all - t.parent.Keys, all - s.parent.Keys);
    }
  }

  /** If the queue runs dry the target cannot be reached. */
  lemma {:induction false} DryMeansUnreachable(g: Graph, from: Version, to: Version, all: set<Version>, s: Search, p: seq<Version>)
    requires Sound(g, from, to, s) && s.parent.Keys <= all && Closed(g, all) && Bfs(g, from, to, all, s) == None
    ensures !Path(g, p, from, to)
    decreases |all - s.parent.Keys|, |s.queue|
  {
    hide Expand, Sound;
    if s.queue == [] {
      if Path(g, p, from, to) {
        AllOfPath(g, from, to, s, p, |p| - 1);
      }
    } else {
      ExpandSound(g, from, to, s);
      ExpandProgress(g, from, to, all, s);
      DryMeansUnreachable(g, from, to, all, Expand(g, s), p);
    }
  }

  lemma {:induction false} AllOfPath(g: Graph, from: Version, to: Version, s: Search, p: seq<Version>, i: nat)
    requires Sound(g, from, to, s) && s.queue == [] && Path(g, p, from, to) && i < |p|
    ensures p[i] in s.parent && p[i] != to
  {
    hide Tree;
    if i > 0 {
      AllOfPath(g, from, to, s, p, i - 1);
      assert Edge(g, p[i - 1], p[i - 1 + 1]);
    }
  }

  /** When the target is taken from the queue, no path to it is shorter than its distance. */
  lemma {:induction false} TakenIsShortest(g: Graph, from: Version, to: Version, s: Search, p: seq<Version>)
    requires Sound(g, from, to, s) && s.queue != [] && s.queue[0] == to && Path(g, p, from, to)
    ensures to in s.level && s.level[to] <= |p| - 1
  {
    hide Tree;
    assert to in s.queue;
    if |p| - 1 < s.level[to] {
      ShortPrefix(g, from, to, s, p, |p| - 1);
    }
  }

  lemma {:induction false} ShortPrefix(g: Graph, from: Version, to: Version, s: Search, p: seq<Version>, i: nat)
    requires Sound(g, from, to, s) && s.queue != [] && s.queue[0] == to && Path(g, p, from, to) && i < |p|
    requires to in s.level && i < s.level[to]
    ensures p[i] in s.level && s.level[p[i]] <= i
  {
    hide Tree;
    if i > 0 {
      ShortPrefix(g, from, to, s, p, i - 1);
      var u := p[i - 1];
      forall k | 0 <= k < |s.queue| ensures s.queue[k] in s.level && s.level[to] <= s.level[s.queue[k]] {
        assert s.queue[k] in s.queue;
        assert k > 0 ==> s.level[s.queue[0]] <= s.level[s.queue[k]];
      }
      assert u !in s.queue;
      assert Edge(g, p[i - 1], p[i - 1 + 1]);
    }
  }

  // ----- Plans -----

  datatype Step = Step(from: Version, to: Version)

  /** The steps from the start to `cursor`, along the parents. */
  ghost function StepsTo(g: Graph, from: Version, s: Search, cursor: Version): seq<Step>
    requires Rooted(from, s) && Tree(g, from, s) && cursor in s.parent
    decreases s.level[cursor]
  {
    if cursor == from then [] else StepsTo(g, from, s, s.parent[cursor]) + [Step(s.parent[cursor], cursor)]
  }

  /** The steps form an unbroken chain of edges from `from` to `to`. */
  ghost predicate Chain(g: Graph, steps: seq<Step>, from: Version, to: Version) {
    if steps == [] then from == to
    else
      var last := steps[|steps| - 1];
      last.to == to && Edge(g, last.from, to) && Chain(g, steps[..|steps| - 1], from, last.from)
  }

  lemma {:induction false} StepsChain(g: Graph, from: Version, s: Search, cursor: Version)
    requires Rooted(from, s) && Tree(g, from, s) && cursor in s.parent
    ensures Chain(g, StepsTo(g, from, s, cursor), from, cursor)
    ensures |StepsTo(g, from, s, cursor)| == s.level[cursor]
    decreases s.level[cursor]
  {
    if cursor != from {
      var prev := s.parent[cursor];
      StepsChain(g, from, s, prev);
      var steps := StepsTo(g, from, s, cursor);
      assert steps[..|steps| - 1] == StepsTo(g, from, s, prev);
    }
  }

  /** A chain is a path, of one version more than it has steps. */
  lemma {:induction false} ChainPath(g: Graph, steps: seq<Step>, from: Version, to: Version) returns (p: seq<Version>)
    requires Chain(g, steps, from, to)
    ensures Path(g, p, from, to) && |p| == |steps| + 1
  {
    if steps == [] {
      p := [from];
    } else {
      var last := steps[|steps| - 1];
      var q := ChainPath(g, steps[..|steps| - 1], from, last.from);
      p := q + [to];
      forall i | 0 <= i < |p| - 1 ensures Edge(g, p[i], p[i + 1]) {
        if i < |q| - 1 {
          assert Edge(g, q[i], q[i + 1]);
        }
      }
    }
  }

  ghost function Versions(g: Graph, from: Version): set<Version> {
    {from} + set u, i | u in g && 0 <= i < |g[u]| :: g[u][i].0
  }

  lemma {:induction false} StartSound(g: Graph, from: Version, to: Version)
    ensures Sound(g, from, to, Start(from)) && Closed(g, Versions(g, from))
    ensures Start(from).parent.Keys <= Versions(g, from)
  {
  }

  function Start(from: Version): Search {
    Search([from], map[from := from], map[from := 0])
  }

  /** The plan the registry resolves to. */
  ghost function Plan(g: Graph, from: Version, to: Version): Option<seq<Step>> {
    if from == to then Some([])
    else
      StartSound(g, from, to);
      var found := Bfs(g, from, to, Versions(g, from), Start(from));
      if found.None? then None
      else
        assert to in found.value.queue;
        Some(StepsTo(g, from, found.value, to))
  }

  /** A plan exists exactly if the target can be reached; it is an unbroken chain of edges, and no path is shorter. */
  lemma {:induction false} PlanIsShortest(g: Graph, from: Version, to: Version)
    ensures Plan(g, from, to).Some? <==> Reachable(g, from, to)
    ensures Plan(g, from, to).Some? ==>
              && Chain(g, Plan(g, from, to).value, from, to)
              && forall p :: Path(g, p, from, to) ==> |Plan(g, from, to).value| <= |p| - 1
  {
    hide Chain, StepsTo, Path, Tree, Bfs;
    if from == to {
      assert Chain(g, [], from, to) by { NoSteps(g, from); }
      assert Path(g, [from], from, to) by { NoSteps(g, from); }
      forall p | Path(g, p, from, to) ensures 0 <= |p| - 1 { Nonempty(g, p, from, to); }
      return;
    }
    StartSound(g, from, to);
    var all := Versions(g, from);
    var found := Bfs(g, from, to, all, Start(from));
    if found.None? {
      forall p ensures !Path(g, p, from, to) {
        DryMeansUnreachable(g, from, to, all, Start(from), p);
      }
    } else {
      var s := found.value;
      assert to in s.queue;
      StepsChain(g, from, s, to);
      var p0 := ChainPath(g, Plan(g, from, to).value, from, to);
      forall p | Path(g, p, from, to) ensures |Plan(g, from, to).value| <= |p| - 1 {
        TakenIsShortest(g, from, to, s, p);
      }
    }
  }

  lemma {:induction false} NoSteps(g: Graph, from: Version)
    ensures Chain(g, [], from, from) && Path(g, [from], from, from)
  {
  }

  lemma {:induction false} Nonempty(g: Graph, p: seq<Version>, u: Version, v: Version)
    requires Path(g, p, u, v)
    ensures |p| >= 1
  {
  }
}
