/** When `can_rollback` and `rollback_chain` agree. */
module MigrationRollback {
  import opened Bytes
  import opened Wrappers
  import opened Versions
  import opened Migration

  // ----- Registries built from entries -----

  function ForwardOf(entries: seq<Entry>): Graph {
    if entries == [] then map[]
    else
      var e := entries[|entries| - 1];
      WithEdge(ForwardOf(entries[..|entries| - 1]), e.from, e.to, e.rollback.Some?)
  }

  function BackwardOf(entries: seq<Entry>): Graph {
    if entries == [] then map[]
    else
      var e, g := entries[|entries| - 1], BackwardOf(entries[..|entries| - 1]);
      if e.rollback.Some? then WithEdge(g, e.to, e.from, true) else g
  }

  /** Registering entries one after the other gives just these graphs. */
  method RegisterAll(entries: seq<Entry>) returns (registry: MigrationRegistry)
    ensures registry.entries == entries && registry.forward == ForwardOf(entries) && registry.backward == BackwardOf(entries)
  {
    registry := new MigrationRegistry();
    var i := 0;
    while i < |entries|
      invariant i <= |entries| && registry.entries == entries[..i] && fresh(registry)
      invariant registry.forward == ForwardOf(entries[..i]) && registry.backward == BackwardOf(entries[..i])
    {
      assert entries[..i + 1][..i] == entries[..i];
      registry.RegisterWithEntry(entries[i]);
      i := i + 1;
    }
    assert entries[..i] == entries;
  }

  lemma {:induction false} EdgesOf(entries: seq<Entry>, u: Version, v: Version)
    ensures Edge(ForwardOf(entries), u, v) <==> exists e <- entries :: e.from == u && e.to == v
    ensures Edge(BackwardOf(entries), v, u) <==> exists e <- entries :: e.from == u && e.to == v && e.rollback.Some?
  {
    if entries != [] {
      hide Edge;
      var init, e := entries[..|entries| - 1], entries[|entries| - 1];
      assert entries == init + [e];
      EdgesOf(init, u, v);
      EdgesGrow(ForwardOf(init), ForwardOf(entries), e.from, e.to, e.rollback.Some?);
      if e.rollback.Some? {
        EdgesGrow(BackwardOf(init), BackwardOf(entries), e.to, e.from, true);
      }
    }
  }

  // ----- Paths -----

  lemma {:induction false} StepFirst(g: Graph, u: Version, v: Version, w: Version)
    requires Edge(g, u, v) && Reachable(g, v, w)
    ensures Reachable(g, u, w)
  {
    hide Edge;
    var p :| Path(g, p, v, w);
    var q := [u] + p;
    assert forall i :: 0 <= i < |p| ==> q[i + 1] == p[i];
    forall i | 0 <= i < |q| - 1 ensures Edge(g, q[i], q[i + 1]) {
      if i > 0 { assert Edge(g, p[i - 1], p[i - 1 + 1]); }
    }
    assert Path(g, q, u, w);
  }

  lemma {:induction false} StepLast(g: Graph, u: Version, v: Version, w: Version)
    requires Reachable(g, u, v) && Edge(g, v, w)
    ensures Reachable(g, u, w)
  {
    hide Edge;
    var p :| Path(g, p, u, v);
    var q := p + [w];
    forall i | 0 <= i < |q| - 1 ensures Edge(g, q[i], q[i + 1]) {
      if i < |p| - 1 { assert Edge(g, p[i], p[i + 1]); }
    }
    assert Path(g, q, u, w);
  }

  /** What can be rolled back was migrated: a backward path is a forward path the other way round. */
  lemma {:induction false} BackwardIsForward(entries: seq<Entry>, p: seq<Version>, from: Version, to: Version)
    requires Path(BackwardOf(entries), p, from, to)
    ensures Reachable(ForwardOf(entries), to, from)
    decreases |p|
  {
    hide Edge, ForwardOf, BackwardOf;
    if |p| == 1 {
      assert Path(ForwardOf(entries), [from], to, from);
    } else {
      var tail := p[1..];
      forall i | 0 <= i < |tail| - 1 ensures Edge(BackwardOf(entries), tail[i], tail[i + 1]) {
        assert Edge(BackwardOf(entries), p[i + 1], p[i + 1 + 1]);
      }
      BackwardIsForward(entries, tail, p[1], to);
      assert Edge(BackwardOf(entries), p[0], p[0 + 1]);
      EdgesOf(entries, p[1], p[0]);
      StepLast(ForwardOf(entries), to, p[1], from);
    }
  }

  // ----- What a rollback needs -----

  /** The entry found for the step has a rollback. */
  predicate HasRollback(entries: seq<Entry>, step: Step) {
    var e := FindEntry(entries, step);
    e.Ok? && e.value.rollback.Some?
  }

  predicate AllHaveRollbacks(entries: seq<Entry>, steps: seq<Step>) {
    forall s <- steps :: HasRollback(entries, s)
  }

  /** A forward plan exists, and each of its steps has a rollback. */
  ghost predicate RollbackRuns(entries: seq<Entry>, from: Version, to: Version) {
    var plan := Plan(ForwardOf(entries), to, from);
    plan.Some? && AllHaveRollbacks(entries, plan.value)
  }

  lemma {:induction false} BackwardNeeds(entries: seq<Entry>, steps: seq<Step>, bytes: seq<Byte>)
    ensures Backward(entries, steps, bytes).Ok? ==> AllHaveRollbacks(entries, steps)
    ensures AllHaveRollbacks(entries, steps) ==> Backward(entries, steps, bytes).Ok? || Backward(entries, steps, bytes).error == StepFailed
    decreases |steps|
  {
    if steps != [] {
      var init, last := steps[..|steps| - 1], steps[|steps| - 1];
      assert steps == init + [last];
      assert AllHaveRollbacks(entries, steps) <==> AllHaveRollbacks(entries, init) && HasRollback(entries, last);
      var after := Back(entries, last, bytes);
      if after.Ok? {
        BackwardNeeds(entries, init, after.value);
      }
    }
  }

  /** A rollback that succeeds needs this much; with it, only a rollback function can fail. */
  lemma {:induction false} RollbackNeeds(entries: seq<Entry>, from: Version, to: Version, bytes: seq<Byte>)
    ensures var r := RolledBack(ForwardOf(entries), entries, from, to, bytes);
            && (r.Ok? ==> RollbackRuns(entries, from, to))
            && (RollbackRuns(entries, from, to) ==> r.Ok? || r.error == StepFailed)
  {
    hide Plan, AllHaveRollbacks, Backward;
    var plan := Plan(ForwardOf(entries), to, from);
    if plan.Some? {
      BackwardNeeds(entries, plan.value, bytes);
    }
  }

  lemma {:induction false} ChainReverts(entries: seq<Entry>, steps: seq<Step>, to: Version, from: Version)
    requires Chain(ForwardOf(entries), steps, to, from) && AllHaveRollbacks(entries, steps)
    ensures Reachable(BackwardOf(entries), from, to)
    decreases |steps|
  {
    hide Edge, ForwardOf, BackwardOf;
    if steps == [] {
      assert Path(BackwardOf(entries), [from], from, to);
    } else {
      var init, last := steps[..|steps| - 1], steps[|steps| - 1];
      assert steps == init + [last];
      ChainReverts(entries, init, to, last.from);
      assert HasRollback(entries, last);
      EdgesOf(entries, last.from, last.to);
      StepFirst(BackwardOf(entries), from, last.from, to);
    }
  }

  /**
   * The check and the rollback agree if and only if, where backward edges lead from one version to the other, each step of
   * the shortest forward plan has a rollback too. Only then does a check that says yes mean a rollback that finds its way.
   */
  lemma {:induction false} CheckAgreesIff(entries: seq<Entry>, from: Version, to: Version)
    ensures RollbackRuns(entries, from, to) ==> Reachable(BackwardOf(entries), from, to)
    ensures Reachable(BackwardOf(entries), from, to) ==> Plan(ForwardOf(entries), to, from).Some?
    ensures (Reachable(BackwardOf(entries), from, to) <==> RollbackRuns(entries, from, to)) <==>
            (Reachable(BackwardOf(entries), from, to) ==> AllHaveRollbacks(entries, Plan(ForwardOf(entries), to, from).value))
  {
    hide Plan, Chain, Path, ForwardOf, BackwardOf, AllHaveRollbacks;
    PlanIsShortest(ForwardOf(entries), to, from);
    if Reachable(BackwardOf(entries), from, to) {
      var p :| Path(BackwardOf(entries), p, from, to);
      BackwardIsForward(entries, p, from, to);
    }
    if RollbackRuns(entries, from, to) {
      ChainReverts(entries, Plan(ForwardOf(entries), to, from).value, to, from);
    }
  }

  /** If every entry has a rollback they agree on every pair of versions. */
  lemma {:induction false} AllReversibleAgrees(entries: seq<Entry>, from: Version, to: Version)
    requires forall e <- entries :: e.rollback.Some?
    ensures Reachable(BackwardOf(entries), from, to) <==> RollbackRuns(entries, from, to)
  {
    hide Plan, Path, ForwardOf, BackwardOf, Edge;
    CheckAgreesIff(entries, from, to);
    PlanIsShortest(ForwardOf(entries), to, from);
    if Reachable(BackwardOf(entries), from, to) {
      ChainHasEntries(entries, Plan(ForwardOf(entries), to, from).value, to, from);
    }
  }

  lemma {:induction false} ChainHasEntries(entries: seq<Entry>, steps: seq<Step>, u: Version, v: Version)
    requires Chain(ForwardOf(entries), steps, u, v) && forall e <- entries :: e.rollback.Some?
    ensures AllHaveRollbacks(entries, steps)
    decreases |steps|
  {
    hide Edge, ForwardOf;
    if steps != [] {
      var init, last := steps[..|steps| - 1], steps[|steps| - 1];
      assert steps == init + [last];
      ChainHasEntries(entries, init, u, last.from);
      EdgesOf(entries, last.from, last.to);
      assert FindEntry(entries, last).Ok?;
    }
  }

  /** Reversible steps `a` to `b` to `d`, and a direct one from `a` to `d` that is not: the check says yes, the rollback finds no path. */
  lemma {:induction false} ShortcutDisagrees(f: Transform, a: Version, b: Version, d: Version, bytes: seq<Byte>)
    requires a != b && b != d && a != d
    ensures var entries := [Entry(a, b, f, Some(f)), Entry(b, d, f, Some(f)), Entry(a, d, f, None)];
            && Reachable(BackwardOf(entries), d, a)
            && RolledBack(ForwardOf(entries), entries, d, a, bytes) == Err(NoMigrationPath(d.version, a.version))
  {
    hide Plan, ForwardOf, BackwardOf, Edge, Reachable;
    var entries := [Entry(a, b, f, Some(f)), Entry(b, d, f, Some(f)), Entry(a, d, f, None)];
    var g, h := ForwardOf(entries), BackwardOf(entries);
    assert entries[0] in entries && entries[1] in entries && entries[2] in entries;
    EdgesOf(entries, a, b);
    EdgesOf(entries, b, d);
    EdgesOf(entries, a, d);
    assert Reachable(h, d, a) by {
      assert Path(h, [d, b, a], d, a);
      PathReaches(h, [d, b, a], d, a);
    }
    assert Path(g, [a, d], a, d);
    PathReaches(g, [a, d], a, d);
    PlanIsShortest(g, a, d);
    var plan := Plan(g, a, d).value;
    OneStep(g, plan, a, d);
    assert FindEntry(entries, Step(a, d)) == Ok(entries[2]) by { ThirdFound(entries, Step(a, d)); }
  }

  lemma {:induction false} PathReaches(g: Graph, p: seq<Version>, u: Version, v: Version)
    requires Path(g, p, u, v)
    ensures Reachable(g, u, v)
  {
  }

  lemma {:induction false} OneStep(g: Graph, steps: seq<Step>, u: Version, v: Version)
    requires Chain(g, steps, u, v) && |steps| <= 1 && u != v
    ensures steps == [Step(u, v)]
  {
    assert |steps| == 1;
    assert steps[..0] == [];
  }

  lemma {:induction false} ThirdFound(entries: seq<Entry>, step: Step)
    requires |entries| == 3 && entries[2].from == step.from && entries[2].to == step.to
    requires forall i :: 0 <= i < 2 ==> entries[i].from != step.from || entries[i].to != step.to
    ensures FindEntry(entries, step) == Ok(entries[2])
  {
    assert FindEntry(entries, step) == FindEntry(entries[1..], step);
    assert entries[1..][0] == entries[1] && entries[1..][1..] == entries[2..];
    assert FindEntry(entries[1..], step) == FindEntry(entries[2..], step);
    assert entries[2..][0] == entries[2];
  }
}
