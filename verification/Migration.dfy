/** The migration registry: resolving version chains and running them forward and back. */
module Migration {
  import opened Bytes
  import opened Wrappers
  import opened Versions

  datatype Error = NoMigrationPath(from: nat, to: nat) | StepFailed

  type Result<+T> = Either<T, Error>

  /** A type-erased migration on wire bytes; `None` when it fails. */
  type Transform = seq<Byte> -> Option<seq<Byte>>

  datatype Entry = Entry(from: Version, to: Version, migrate: Transform, rollback: Option<Transform>)

  // ----- Running a plan -----

  /** The first entry registered for a step. */
  function FindEntry(entries: seq<Entry>, step: Step): (r: Result<Entry>)
    ensures r.Ok? ==> r.value in entries && r.value.from == step.from && r.value.to == step.to
    ensures r.Err? ==> forall e <- entries :: e.from != step.from || e.to != step.to
  {
    if entries == [] then Err(NoMigrationPath(step.from.version, step.to.version))
    else if entries[0].from == step.from && entries[0].to == step.to then Ok(entries[0])
    else FindEntry(entries[1..], step)
  }

  /** Bytes after the steps, each by the migration registered for it. */
  function Forward(entries: seq<Entry>, steps: seq<Step>, bytes: seq<Byte>): Result<seq<Byte>> {
    if steps == [] then Ok(bytes)
    else
      var before := Forward(entries, steps[..|steps| - 1], bytes);
      if before.Err? then before else Ahead(entries, steps[|steps| - 1], before.value)
  }

  function Ahead(entries: seq<Entry>, step: Step, bytes: seq<Byte>): Result<seq<Byte>> {
    var e := FindEntry(entries, step);
    if e.Err? then Err(e.error)
    else
      var y := e.value.migrate(bytes);
      if y.None? then Err(StepFailed) else Ok(y.value)
  }

  /** Bytes after the steps are taken back, last first. */
  function Backward(entries: seq<Entry>, steps: seq<Step>, bytes: seq<Byte>): Result<seq<Byte>> {
    if steps == [] then Ok(bytes)
    else
      var after := Back(entries, steps[|steps| - 1], bytes);
      if after.Err? then after else Backward(entries, steps[..|steps| - 1], after.value)
  }

  function Back(entries: seq<Entry>, step: Step, bytes: seq<Byte>): Result<seq<Byte>> {
    var e := FindEntry(entries, step);
    if e.Err? then Err(e.error)
    else if e.value.rollback.None? then Err(NoMigrationPath(step.to.version, step.from.version))
    else
      var y := e.value.rollback.value(bytes);
      if y.None? then Err(StepFailed) else Ok(y.value)
  }

  // ----- What a plan does, step by step -----

  /** Entry `j` is the first one registered for the step. */
  ghost predicate FirstFor(entries: seq<Entry>, step: Step, j: nat) {
    && j < |entries| && entries[j].from == step.from && entries[j].to == step.to
    && forall i :: 0 <= i < j ==> entries[i].from != step.from || entries[i].to != step.to
  }

  /** The first migration registered for the step turns `x` into `y`. */
  ghost predicate Migrates(entries: seq<Entry>, step: Step, x: seq<Byte>, y: seq<Byte>) {
    exists j: nat :: FirstFor(entries, step, j) && entries[j].migrate(x) == Some(y)
  }

  /** The first rollback registered for the step turns `y` into `x`. */
  ghost predicate Reverts(entries: seq<Entry>, step: Step, y: seq<Byte>, x: seq<Byte>) {
    exists j: nat :: FirstFor(entries, step, j) && entries[j].rollback.Some? && entries[j].rollback.value(y) == Some(x)
  }

  /** `trail` leads from `x` to `y`, one migration a step. */
  ghost predicate Trail(entries: seq<Entry>, steps: seq<Step>, x: seq<Byte>, y: seq<Byte>, trail: seq<seq<Byte>>) {
    && |trail| == |steps| + 1 && trail[0] == x && trail[|steps|] == y
    && forall i :: 0 <= i < |steps| ==> Migrates(entries, steps[i], trail[i], trail[i + 1])
  }

  /** `trail` leads back from `y`, behind the last step, to `x`, before the first, one rollback a step. */
  ghost predicate TrailBack(entries: seq<Entry>, steps: seq<Step>, y: seq<Byte>, x: seq<Byte>, trail: seq<seq<Byte>>) {
    && |trail| == |steps| + 1 && trail[0] == x && trail[|steps|] == y
    && forall i :: 0 <= i < |steps| ==> Reverts(entries, steps[i], trail[i + 1], trail[i])
  }

  lemma {:induction false} FindsFirst(entries: seq<Entry>, step: Step, j: nat)
    ensures FirstFor(entries, step, j) ==> FindEntry(entries, step) == Ok(entries[j])
    ensures FindEntry(entries, step).Ok? ==> exists i: nat :: FirstFor(entries, step, i) && entries[i] == FindEntry(entries, step).value
    decreases |entries|
  {
    if entries != [] {
      var rest := entries[1..];
      if entries[0].from == step.from && entries[0].to == step.to {
        assert FirstFor(entries, step, 0);
      } else {
        FindsFirst(rest, step, if j > 0 then j - 1 else 0);
        if FirstFor(entries, step, j) {
          assert FirstFor(rest, step, j - 1);
        }
        if i: nat :| FirstFor(rest, step, i) && rest[i] == FindEntry(rest, step).value {
          assert FirstFor(entries, step, i + 1);
        }
      }
    }
  }

  lemma {:induction false} AheadIs(entries: seq<Entry>, step: Step, x: seq<Byte>, y: seq<Byte>)
    ensures Ahead(entries, step, x) == Ok(y) <==> Migrates(entries, step, x, y)
    ensures Back(entries, step, x) == Ok(y) <==> Reverts(entries, step, x, y)
  {
    hide FindEntry;
    FindsFirst(entries, step, 0);
    forall j: nat | FirstFor(entries, step, j) ensures FindEntry(entries, step) == Ok(entries[j]) {
      FindsFirst(entries, step, j);
    }
  }

  lemma {:induction false} ForwardTrail(entries: seq<Entry>, steps: seq<Step>, x: seq<Byte>, y: seq<Byte>)
    ensures Forward(entries, steps, x) == Ok(y) <==> exists trail :: Trail(entries, steps, x, y, trail)
  {
    hide Ahead, Migrates;
    if steps == [] {
      if x == y {
        assert Trail(entries, steps, x, y, [x]);
      }
    } else {
      var n := |steps| - 1;
      var init, last := steps[..n], steps[n];
      var mid := Forward(entries, init, x);
      if mid.Ok? {
        ForwardTrail(entries, init, x, mid.value);
        AheadIs(entries, last, mid.value, y);
        if Ahead(entries, last, mid.value) == Ok(y) {
          var t :| Trail(entries, init, x, mid.value, t);
          assert Trail(entries, steps, x, y, t + [y]);
        }
      }
      forall trail | Trail(entries, steps, x, y, trail) ensures Forward(entries, steps, x) == Ok(y) {
        assert Trail(entries, init, x, trail[n], trail[..n + 1]);
        ForwardTrail(entries, init, x, trail[n]);
        AheadIs(entries, last, trail[n], y);
        assert Migrates(entries, steps[n], trail[n], trail[n + 1]);
      }
    }
  }

  lemma {:induction false} BackwardTrail(entries: seq<Entry>, steps: seq<Step>, y: seq<Byte>, x: seq<Byte>)
    ensures Backward(entries, steps, y) == Ok(x) <==> exists trail :: TrailBack(entries, steps, y, x, trail)
    decreases |steps|
  {
    hide Back, Reverts;
    if steps == [] {
      if x == y {
        assert TrailBack(entries, steps, y, x, [x]);
      }
    } else {
      var n := |steps| - 1;
      var init, last := steps[..n], steps[n];
      var mid := Back(entries, last, y);
      if mid.Ok? {
        BackwardTrail(entries, init, mid.value, x);
        AheadIs(entries, last, y, mid.value);
        if Backward(entries, init, mid.value) == Ok(x) {
          var t :| TrailBack(entries, init, mid.value, x, t);
          assert TrailBack(entries, steps, y, x, t + [y]);
        }
      }
      forall trail | TrailBack(entries, steps, y, x, trail) ensures Backward(entries, steps, y) == Ok(x) {
        assert Reverts(entries, steps[n], trail[n + 1], trail[n]);
        AheadIs(entries, last, y, trail[n]);
        assert TrailBack(entries, init, trail[n], x, trail[..n + 1]);
        BackwardTrail(entries, init, trail[n], x);
      }
    }
  }

  /** Where a migration fails, a trail led to some step; that has no entry, or its migration failed. */
  lemma {:induction false} ForwardStops(entries: seq<Entry>, steps: seq<Step>, x: seq<Byte>) returns (i: nat, y: seq<Byte>)
    requires Forward(entries, steps, x).Err?
    ensures i < |steps| && Forward(entries, steps[..i], x) == Ok(y)
    ensures if exists e <- entries :: e.from == steps[i].from && e.to == steps[i].to
            then Forward(entries, steps, x) == Err(StepFailed) && forall z :: !Migrates(entries, steps[i], y, z)
            else Forward(entries, steps, x) == Err(NoMigrationPath(steps[i].from.version, steps[i].to.version))
  {
    hide Ahead, Migrates;
    var n := |steps| - 1;
    var mid := Forward(entries, steps[..n], x);
    if mid.Err? {
      i, y := ForwardStops(entries, steps[..n], x);
      assert steps[..n][..i] == steps[..i];
    } else {
      i, y := n, mid.value;
      AheadFails(entries, steps[n], y);
    }
  }

  lemma {:induction false} AheadFails(entries: seq<Entry>, step: Step, y: seq<Byte>)
    requires Ahead(entries, step, y).Err?
    ensures if exists e <- entries :: e.from == step.from && e.to == step.to
            then Ahead(entries, step, y) == Err(StepFailed) && forall z :: !Migrates(entries, step, y, z)
            else Ahead(entries, step, y) == Err(NoMigrationPath(step.from.version, step.to.version))
  {
    forall z ensures !Migrates(entries, step, y, z) {
      AheadIs(entries, step, y, z);
    }
    hide Migrates;
    NotFoundSays(entries, step);
  }

  lemma {:induction false} NotFoundSays(entries: seq<Entry>, step: Step)
    ensures FindEntry(entries, step).Err? ==> FindEntry(entries, step) == Err(NoMigrationPath(step.from.version, step.to.version))
  {
    if entries != [] {
      NotFoundSays(entries[1..], step);
    }
  }

  // ----- There and back -----

  /** Rolling a step back undoes it. */
  ghost predicate Undoes(e: Entry) {
    e.rollback.Some? && forall x, y :: e.migrate(x) == Some(y) ==> e.rollback.value(y) == Some(x)
  }

  /** Every registered entry for a step of the plan has a rollback that undoes it. */
  ghost predicate Reversible(entries: seq<Entry>, steps: seq<Step>) {
    forall i, e <- entries :: 0 <= i < |steps| && e.from == steps[i].from && e.to == steps[i].to ==> Undoes(e)
  }

  /** For plans of any length: what was migrated forward rolls back to where it started. */
  lemma {:induction false} BackUndoesForward(entries: seq<Entry>, steps: seq<Step>, x: seq<Byte>, y: seq<Byte>)
    requires Reversible(entries, steps) && Forward(entries, steps, x) == Ok(y)
    ensures Backward(entries, steps, y) == Ok(x)
  {
    if steps != [] {
      var init, last := steps[..|steps| - 1], steps[|steps| - 1];
      var mid := Forward(entries, init, x).value;
      var e := FindEntry(entries, last).value;
      assert Undoes(e);
      assert Back(entries, last, y) == Ok(mid);
      assert Reversible(entries, init) by {
        forall i, f <- entries | 0 <= i < |init| && f.from == init[i].from && f.to == init[i].to ensures Undoes(f) {
          assert steps[i] == init[i];
        }
      }
      BackUndoesForward(entries, init, x, mid);
    }
  }

  // ----- The registry -----

  ghost function Migrated(g: Graph, entries: seq<Entry>, from: Version, to: Version, bytes: seq<Byte>): Result<seq<Byte>> {
    var plan := Plan(g, from, to);
    if plan.None? then Err(NoMigrationPath(from.version, to.version)) else Forward(entries, plan.value, bytes)
  }

  ghost function RolledBack(g: Graph, entries: seq<Entry>, from: Version, to: Version, bytes: seq<Byte>): Result<seq<Byte>> {
    var plan := Plan(g, to, from);
    if plan.None? then Err(NoMigrationPath(to.version, from.version)) else Backward(entries, plan.value, bytes)
  }

  /** Migrating from `a` to `b` and rolling back from `b` to `a` is the identity, if every step of the plan can be undone. */
  lemma {:induction false} RollbackUndoesMigrate(g: Graph, entries: seq<Entry>, a: Version, b: Version, x: seq<Byte>, y: seq<Byte>)
    requires Migrated(g, entries, a, b, x) == Ok(y)
    requires Reversible(entries, Plan(g, a, b).value)
    ensures RolledBack(g, entries, b, a, y) == Ok(x)
  {
    hide Plan;
    BackUndoesForward(entries, Plan(g, a, b).value, x, y);
  }

  /** Migrating succeeds with `y` if and only if a trail of migrations along the plan leads there. */
  lemma {:induction false} MigratedTrail(g: Graph, entries: seq<Entry>, from: Version, to: Version, x: seq<Byte>)
    ensures forall y :: Migrated(g, entries, from, to, x) == Ok(y) <==>
              var plan := Plan(g, from, to); plan.Some? && exists trail :: Trail(entries, plan.value, x, y, trail)
  {
    hide Plan, Trail, Forward;
    var plan := Plan(g, from, to);
    if plan.Some? {
      forall y ensures Forward(entries, plan.value, x) == Ok(y) <==> exists trail :: Trail(entries, plan.value, x, y, trail) {
        ForwardTrail(entries, plan.value, x, y);
      }
    }
  }

  /** Rolling back succeeds with `x` if and only if a trail of rollbacks from the end of the plan leads there. */
  lemma {:induction false} RolledBackTrail(g: Graph, entries: seq<Entry>, from: Version, to: Version, y: seq<Byte>)
    ensures forall x :: RolledBack(g, entries, from, to, y) == Ok(x) <==>
              var plan := Plan(g, to, from); plan.Some? && exists trail :: TrailBack(entries, plan.value, y, x, trail)
  {
    hide Plan, TrailBack, Backward;
    var plan := Plan(g, to, from);
    if plan.Some? {
      forall x ensures Backward(entries, plan.value, y) == Ok(x) <==> exists trail :: TrailBack(entries, plan.value, y, x, trail) {
        BackwardTrail(entries, plan.value, y, x);
      }
    }
  }

  class MigrationRegistry {
    var forward: Graph
    var backward: Graph
    var entries: seq<Entry>

    constructor ()
      ensures forward == map[] && backward == map[] && entries == []
    {
      forward, backward, entries := map[], map[], [];
    }

    method RegisterForward(from: Version, to: Version)
      modifies `forward
      ensures forward == WithEdge(old(forward), from, to, false)
    {
      forward := forward[from := Neighbours(forward, from) + [(to, false)]];
    }

    method RegisterWithRollback(from: Version, to: Version)
      modifies `forward, `backward
      ensures forward == WithEdge(old(forward), from, to, true)
      ensures backward == WithEdge(old(backward), to, from, true)
    {
      forward := forward[from := Neighbours(forward, from) + [(to, true)]];
      backward := backward[to := Neighbours(backward, to) + [(from, true)]];
    }

    /** Register an edge and its migrations. */
    method RegisterWithEntry(entry: Entry)
      modifies this
      ensures forward == WithEdge(old(forward), entry.from, entry.to, entry.rollback.Some?)
      ensures backward == if entry.rollback.Some? then WithEdge(old(backward), entry.to, entry.from, true) else old(backward)
      ensures entries == old(entries) + [entry]
    {
      if entry.rollback.Some? {
        RegisterWithRollback(entry.from, entry.to);
      } else {
        RegisterForward(entry.from, entry.to);
      }
      entries := entries + [entry];
    }

    /** A shortest chain of registered edges, by breadth-first search. */
    method Resolve(from: Version, to: Version) returns (r: Result<seq<Step>>)
      ensures r.Ok? <==> Reachable(forward, from, to)
      ensures r.Ok? ==> Chain(forward, r.value, from, to) && Plan(forward, from, to) == Some(r.value)
      ensures r.Ok? ==> forall p :: Path(forward, p, from, to) ==> |r.value| <= |p| - 1
      ensures r.Err? ==> r.error == NoMigrationPath(from.version, to.version) && Plan(forward, from, to) == None
    {
      hide Sound, Path, Chain, Reachable, StepsTo, Bfs, Expand, Versions.Versions, Closed, Tree, Discover;
      PlanIsShortest(forward, from, to);
      if from == to {
        return Ok([]);
      }
      ghost var all := Versions.Versions(forward, from);
      StartSound(forward, from, to);
      var visited := map[from := from];
      ghost var level: map<Version, nat> := map[from := 0];
      var queue := [from];
      ghost var found := Bfs(forward, from, to, all, Search(queue, visited, level));
      while queue != []
        invariant Sound(forward, from, to, Search(queue, visited, level)) && visited.Keys <= all
        invariant Bfs(forward, from, to, all, Search(queue, visited, level)) == found
        decreases |all - visited.Keys|, |queue|
      {
        ghost var s := Search(queue, visited, level);
        BfsStep(forward, from, to, all, s);
        var current := queue[0];
        if current == to {
          var path := PathTo(forward, from, to, s, visited);
          return Ok(path);
        }
        ExpandProgress(forward, from, to, all, s);
        ExpandIs(forward, s);
        queue, visited, level := Visit(current, Neighbours(forward, current), queue[1..], visited, level);
      }
      BfsDry(forward, from, to, all, Search(queue, visited, level));
      return Err(NoMigrationPath(from.version, to.version));
    }

    /** Whether backward edges lead from `from` to `to`. */
    method CanRollback(from: Version, to: Version) returns (r: bool)
      ensures r <==> Reachable(backward, from, to)
    {
      hide Sound, Path, Chain, Reachable, StepsTo, Bfs, Expand, Versions.Versions, Closed, Tree, Discover;
      PlanIsShortest(backward, from, to);
      if from == to {
        return true;
      }
      ghost var all := Versions.Versions(backward, from);
      StartSound(backward, from, to);
      var visited := {from};
      var queue := [from];
      ghost var s := Start(from);
      ghost var found := Bfs(backward, from, to, all, s);
      while queue != []
        invariant Sound(backward, from, to, s) && s.parent.Keys <= all && s.queue == queue && s.parent.Keys == visited
        invariant Bfs(backward, from, to, all, s) == found
        decreases |all - visited|, |queue|
      {
        BfsStep(backward, from, to, all, s);
        var current := queue[0];
        if current == to {
          return true;
        }
        ExpandProgress(backward, from, to, all, s);
        ExpandIs(backward, s);
        queue, visited, s := Mark(current, Neighbours(backward, current), queue[1..], visited, s.(queue := s.queue[1..]));
      }
      BfsDry(backward, from, to, all, s);
      return false;
    }

    /** Queue and mark the neighbours of `current` that were not marked before. */
    method Mark(current: Version, neighbors: seq<(Version, bool)>, queue0: seq<Version>, visited0: set<Version>, ghost s0: Search)
      returns (queue: seq<Version>, visited: set<Version>, ghost s: Search)
      requires s0.queue == queue0 && s0.parent.Keys == visited0
      ensures s == Discover(current, neighbors, s0) && s.queue == queue && s.parent.Keys == visited
    {
      queue, visited, s := queue0, visited0, s0;
      var i := 0;
      while i < |neighbors|
        invariant i <= |neighbors| && s == Discover(current, neighbors[..i], s0)
        invariant s.queue == queue && s.parent.Keys == visited
      {
        var next := neighbors[i].0;
        DiscoverNext(current, neighbors, i, s0);
        s := Meet(current, next, s);
        if next !in visited {
          visited := visited + {next};
          queue := queue + [next];
        }
        i := i + 1;
      }
      assert neighbors[..i] == neighbors;
    }

    /** Queue the neighbours of `current` that were not met before. */
    method Visit(current: Version, neighbors: seq<(Version, bool)>, queue0: seq<Version>, visited0: map<Version, Version>,
                 ghost level0: map<Version, nat>)
      returns (queue: seq<Version>, visited: map<Version, Version>, ghost level: map<Version, nat>)
      ensures Search(queue, visited, level) == Discover(current, neighbors, Search(queue0, visited0, level0))
    {
      queue, visited, level := queue0, visited0, level0;
      ghost var popped := Search(queue, visited, level);
      var i := 0;
      while i < |neighbors|
        invariant i <= |neighbors|
        invariant Search(queue, visited, level) == Discover(current, neighbors[..i], popped)
      {
        var next := neighbors[i].0;
        DiscoverNext(current, neighbors, i, popped);
        if next !in visited {
          level := level[next := (if current in level then level[current] else 0) + 1];
          visited := visited[next := current];
          queue := queue + [next];
        }
        i := i + 1;
      }
      assert neighbors[..i] == neighbors;
    }

    /** Walk the parents back from the target, then reverse. */
    method PathTo(ghost g: Graph, from: Version, to: Version, ghost s: Search, visited: map<Version, Version>)
      returns (path: seq<Step>)
      requires Rooted(from, s) && Tree(g, from, s) && to in s.parent && visited == s.parent
      ensures path == StepsTo(g, from, s, to)
    {
      path := [];
      var cursor := to;
      while cursor != from
        invariant cursor in visited
        invariant StepsTo(g, from, s, cursor) + Reversed(path) == StepsTo(g, from, s, to)
        decreases s.level[cursor]
      {
        var prev := visited[cursor];
        ReversedMore(path, Step(prev, cursor));
        path := path + [Step(prev, cursor)];
        cursor := prev;
      }
      path := Reversed(path);
    }

    /** Migrate bytes along the chain. */
    method MigrateChain(from: Version, to: Version, bytes: seq<Byte>) returns (r: Result<seq<Byte>>)
      ensures r == Migrated(forward, entries, from, to, bytes)
      ensures forall y :: r == Ok(y) <==>
                var plan := Plan(forward, from, to); plan.Some? && exists trail :: Trail(entries, plan.value, bytes, y, trail)
      ensures Plan(forward, from, to).None? ==> r == Err(NoMigrationPath(from.version, to.version))
    {
      MigratedTrail(forward, entries, from, to, bytes);
      hide Plan, Chain, Path, Reachable, Trail;
      var plan := Resolve(from, to);
      if plan.Err? {
        return Err(plan.error);
      }
      var steps := plan.value;
      var current := bytes;
      var i := 0;
      while i < |steps|
        invariant i <= |steps| && Forward(entries, steps[..i], bytes) == Ok(current)
      {
        assert steps[..i + 1][..i] == steps[..i];
        var entry := FindEntry(entries, steps[i]);
        if entry.Err? {
          ForwardFails(entries, steps, i + 1, bytes);
          return Err(entry.error);
        }
        var next := entry.value.migrate(current);
        if next.None? {
          ForwardFails(entries, steps, i + 1, bytes);
          return Err(StepFailed);
        }
        current := next.value;
        i := i + 1;
      }
      assert steps[..i] == steps;
      return Ok(current);
    }

    /** Roll bytes back along the chain. */
    method RollbackChain(from: Version, to: Version, bytes: seq<Byte>) returns (r: Result<seq<Byte>>)
      ensures r == RolledBack(forward, entries, from, to, bytes)
      ensures forall x :: r == Ok(x) <==>
                var plan := Plan(forward, to, from); plan.Some? && exists trail :: TrailBack(entries, plan.value, bytes, x, trail)
      ensures Plan(forward, to, from).None? ==> r == Err(NoMigrationPath(to.version, from.version))
    {
      RolledBackTrail(forward, entries, from, to, bytes);
      hide Plan, Chain, Path, Reachable, TrailBack;
      var plan := Resolve(to, from);
      if plan.Err? {
        return Err(plan.error);
      }
      var steps := plan.value;
      var current := bytes;
      var i := |steps|;
      assert steps[..i] == steps;
      while i > 0
        invariant i <= |steps| && Backward(entries, steps[..i], current) == Backward(entries, steps, bytes)
      {
        i := i - 1;
        assert steps[..i + 1][..i] == steps[..i];
        var entry := FindEntry(entries, steps[i]);
        if entry.Err? {
          return Err(entry.error);
        }
        if entry.value.rollback.None? {
          return Err(NoMigrationPath(steps[i].to.version, steps[i].from.version));
        }
        var next := entry.value.rollback.value(current);
        if next.None? {
          return Err(StepFailed);
        }
        current := next.value;
      }
      return Ok(current);
    }
  }

  /** The graph with one edge more at the end of `from`'s list. */
  function WithEdge(g: Graph, from: Version, to: Version, rollback: bool): (r: Graph)
    ensures forall u, v :: Edge(r, u, v) <==> Edge(g, u, v) || (u == from && v == to)
  {
    var r := g[from := Neighbours(g, from) + [(to, rollback)]];
    EdgesGrow(g, r, from, to, rollback);
    r
  }

  lemma {:induction false} EdgesGrow(g: Graph, r: Graph, from: Version, to: Version, rollback: bool)
    requires r == g[from := Neighbours(g, from) + [(to, rollback)]]
    ensures forall u, v :: Edge(r, u, v) <==> Edge(g, u, v) || (u == from && v == to)
  {
    forall u, v ensures Edge(r, u, v) <==> Edge(g, u, v) || (u == from && v == to) {
      if Edge(g, u, v) {
        var i :| 0 <= i < |g[u]| && g[u][i].0 == v;
        assert r[u][i].0 == v;
      }
      if u == from && v == to {
        assert r[u][|r[u]| - 1].0 == v;
      }
    }
  }

  function Reversed(s: seq<Step>): (r: seq<Step>)
    ensures |r| == |s|
  {
    if s == [] then [] else [s[|s| - 1]] + Reversed(s[..|s| - 1])
  }

  lemma {:induction false} ReversedMore(s: seq<Step>, x: Step)
    ensures Reversed(s + [x]) == [x] + Reversed(s)
  {
    assert (s + [x])[..|s|] == s;
  }

  lemma {:induction false} ForwardFails(entries: seq<Entry>, steps: seq<Step>, n: nat, bytes: seq<Byte>)
    requires n <= |steps| && Forward(entries, steps[..n], bytes).Err?
    ensures Forward(entries, steps, bytes) == Forward(entries, steps[..n], bytes)
  {
    if n < |steps| {
      assert steps[..|steps| - 1][..n] == steps[..n];
      ForwardFails(entries, steps[..|steps| - 1], n, bytes);
    } else {
      assert steps[..n] == steps;
    }
  }

  lemma {:induction false} DiscoverNext(cur: Version, nbrs: seq<(Version, bool)>, i: nat, s: Search)
    requires i < |nbrs|
    ensures Discover(cur, nbrs[..i + 1], s) == Meet(cur, nbrs[i].0, Discover(cur, nbrs[..i], s))
  {
    assert nbrs[..i + 1][..i] == nbrs[..i];
  }

  lemma {:induction false} ExpandIs(g: Graph, s: Search)
    requires s.queue != []
    ensures Expand(g, s) == Discover(s.queue[0], Neighbours(g, s.queue[0]), s.(queue := s.queue[1..]))
  {
  }

  lemma {:induction false} BfsStep(g: Graph, from: Version, to: Version, all: set<Version>, s: Search)
    requires Sound(g, from, to, s) && s.parent.Keys <= all && Closed(g, all) && s.queue != []
    ensures s.queue[0] == to ==>
              Bfs(g, from, to, all, s) == Some(s) && Rooted(from, s) && Tree(g, from, s) && to in s.parent
    ensures s.queue[0] != to ==>
              && Sound(g, from, to, Expand(g, s)) && Expand(g, s).parent.Keys <= all
              && Bfs(g, from, to, all, s) == Bfs(g, from, to, all, Expand(g, s))
  {
    hide Expand, Tree;
    if s.queue[0] != to {
      ExpandSound(g, from, to, s);
      ExpandProgress(g, from, to, all, s);
    }
  }

  lemma {:induction false} BfsDry(g: Graph, from: Version, to: Version, all: set<Version>, s: Search)
    requires Sound(g, from, to, s) && s.parent.Keys <= all && Closed(g, all) && s.queue == []
    ensures Bfs(g, from, to, all, s) == None
  {
  }
}
