/** The order in which records wait for the Slow-Node: commit order, unless two syncs of a tenant overlap. */
module HistoryOrder {
  import opened Wrappers
  import opened History
  import opened HistoryFlow

  // ----- Lines in commit order -----

  /** `x` was written before `y`. */
  ghost predicate Earlier(log: seq<(Tenant, Rec)>, t: Tenant, x: Rec, y: Rec) {
    exists p, q :: 0 <= p < q < |log| && log[p] == (t, x) && log[q] == (t, y)
  }

  ghost predicate InOrder(log: seq<(Tenant, Rec)>, t: Tenant, line: seq<Rec>) {
    && (forall i :: 0 <= i < |line| ==> (t, line[i]) in log)
    && (forall i, j :: 0 <= i < j < |line| ==> Earlier(log, t, line[i], line[j]))
  }

  lemma {:induction false} OrderGrows(log: seq<(Tenant, Rec)>, e: (Tenant, Rec), t: Tenant, line: seq<Rec>)
    requires InOrder(log, t, line)
    ensures InOrder(log + [e], t, line)
    ensures e.0 == t ==> InOrder(log + [e], t, line + [e.1])
  {
    var now := log + [e];
    forall i, j | 0 <= i < j < |line| ensures Earlier(now, t, line[i], line[j]) {
      assert Earlier(log, t, line[i], line[j]);
      var p, q :| 0 <= p < q < |log| && log[p] == (t, line[i]) && log[q] == (t, line[j]);
      assert now[p] == log[p] && now[q] == log[q];
    }
    if e.0 == t {
      var more := line + [e.1];
      assert now[|log|] == (t, e.1);
      forall i | 0 <= i < |line| ensures Earlier(now, t, line[i], e.1) {
        var p :| 0 <= p < |log| && log[p] == (t, line[i]);
        assert now[p] == log[p];
      }
      forall i, j | 0 <= i < j < |more| ensures Earlier(now, t, more[i], more[j]) {
        if j < |line| { assert Earlier(now, t, line[i], line[j]); }
      }
    }
  }

  /** Taking a stretch out of a line keeps its order. */
  lemma {:induction false} OrderWithout(log: seq<(Tenant, Rec)>, t: Tenant, a: seq<Rec>, b: seq<Rec>, c: seq<Rec>)
    requires InOrder(log, t, a + b + c)
    ensures InOrder(log, t, a + c)
  {
    var all, left := a + b + c, a + c;
    assert forall i :: 0 <= i < |left| ==> left[i] == all[if i < |a| then i else i + |b|];
  }

  lemma {:induction false} EarlierIsOneWay(s: State, t: Tenant, x: Rec, y: Rec)
    requires OneWrite(s) && Earlier(s.log, t, x, y)
    ensures !Earlier(s.log, t, y, x)
  {
    var p, q :| 0 <= p < q < |s.log| && s.log[p] == (t, x) && s.log[q] == (t, y);
    forall v, w | 0 <= v < w < |s.log| && s.log[v] == (t, y) ensures s.log[w] != (t, x) {
      assert v == q;
    }
  }

  /** Two stretches of a line cannot change places. */
  lemma {:induction false} OrderIsOneWay(s: State, t: Tenant, a: seq<Rec>, b: seq<Rec>)
    requires OneWrite(s) && InOrder(s.log, t, a + b) && a != [] && b != []
    ensures !InOrder(s.log, t, b + a)
  {
    hide Earlier, OneWrite;
    assert Earlier(s.log, t, (a + b)[0], (a + b)[|a|]);
    EarlierIsOneWay(s, t, a[0], b[0]);
    assert !Earlier(s.log, t, (b + a)[0], (b + a)[|b|]);
  }

  // ----- Who holds what -----

  /** The records of a sync that are not acknowledged, in the order they would be requeued. */
  function Held(job: Job): seq<Rec> {
    job.failed + job.todo
  }

  /** A sync of `t` that still holds records. */
  predicate Holder(s: State, t: Tenant, k: (nat, Tenant)) {
    k in s.jobs && k.1 == t && Held(s.jobs[k]) != []
  }

  /** At most one sync of `t` holds records, and they and the queue behind them stand in commit order. */
  ghost predicate Lined(s: State, t: Tenant) {
    && (forall k <- s.jobs, l <- s.jobs :: Holder(s, t, k) && Holder(s, t, l) ==> k == l)
    && (forall k <- s.jobs :: Holder(s, t, k) ==> InOrder(s.log, t, Held(s.jobs[k]) + Queue(s, t)))
    && InOrder(s.log, t, Queue(s, t))
  }

  /** A drain now would put records of `t` into a second sync. */
  ghost predicate Overlaps(s: State, t: Tenant) {
    Queue(s, t) != [] && exists k <- s.jobs :: Holder(s, t, k)
  }

  // ----- Every step but such a drain keeps the line -----

  lemma {:induction false} WriteLined(s: State, u: Tenant, r: Rec, t: Tenant)
    requires Lined(s, t) && Enabled(s, Write(u, r))
    ensures Lined(Do(s, Write(u, r)), t)
  {
    hide InOrder;
    var d := Do(s, Write(u, r));
    OrderGrows(s.log, (u, r), t, Queue(s, t));
    forall k <- d.jobs | Holder(d, t, k) ensures InOrder(d.log, t, Held(d.jobs[k]) + Queue(d, t)) {
      assert Holder(s, t, k);
      OrderGrows(s.log, (u, r), t, Held(s.jobs[k]) + Queue(s, t));
      assert u == t ==> Held(d.jobs[k]) + Queue(d, t) == Held(s.jobs[k]) + Queue(s, t) + [r];
    }
    forall k <- d.jobs, l <- d.jobs | Holder(d, t, k) && Holder(d, t, l) ensures k == l {
      assert Holder(s, t, k) && Holder(s, t, l);
    }
  }

  lemma {:induction false} DrainLined(s: State, sync: nat, stamp: nat, t: Tenant)
    requires Lined(s, t) && Enabled(s, Drain(sync, stamp)) && !Overlaps(s, t)
    ensures Lined(Do(s, Drain(sync, stamp)), t)
  {
    hide InOrder;
    var d := Do(s, Drain(sync, stamp));
    assert InOrder(s.log, t, []) by { NoneInOrder(s.log, t); }
    forall k <- d.jobs | Holder(d, t, k)
      ensures if Queue(s, t) == [] then Holder(s, t, k) && d.jobs[k] == s.jobs[k] else k == (sync, t) && Held(d.jobs[k]) == Queue(s, t)
    {
      if k.0 != sync {
        assert Holder(s, t, k);
      }
    }
    forall k <- d.jobs | Holder(d, t, k) ensures InOrder(d.log, t, Held(d.jobs[k]) + Queue(d, t)) {
      assert Held(d.jobs[k]) + Queue(d, t) == if Queue(s, t) == [] then Held(s.jobs[k]) + Queue(s, t) else Queue(s, t);
    }
  }

  lemma {:induction false} NoneInOrder(log: seq<(Tenant, Rec)>, t: Tenant)
    ensures InOrder(log, t, [])
  {
  }

  lemma {:induction false} SendLined(s: State, k: (nat, Tenant), o: Outcome, t: Tenant)
    requires Lined(s, t) && Enabled(s, Send(k, o))
    ensures Lined(Do(s, Send(k, o)), t)
  {
    hide InOrder, StampAll, Chunk;
    var d := Do(s, Send(k, o));
    var job, now := s.jobs[k], d.jobs[k];
    var chunk, rest, queue := Chunk(job.todo), Rest(job.todo), Queue(s, t);
    assert job.todo == chunk + rest by { ChunkFirst(job.todo); }
    Regroup(job.failed, chunk, rest, queue);
    assert Holder(d, t, k) ==> Holder(s, t, k);
    if Holder(s, t, k) && o.Acked? {
      OrderWithout(s.log, t, job.failed, chunk, rest + queue);
    }
    forall l <- d.jobs | Holder(d, t, l) ensures Holder(s, t, l) && InOrder(d.log, t, Held(d.jobs[l]) + Queue(d, t)) {
      assert l != k ==> d.jobs[l] == s.jobs[l];
      assert Holder(s, t, l);
    }
  }

  lemma {:induction false} Regroup(f: seq<Rec>, c: seq<Rec>, r: seq<Rec>, q: seq<Rec>)
    ensures (f + (c + r)) + q == f + c + (r + q)
    ensures ((f + c) + r) + q == f + c + (r + q)
    ensures (f + r) + q == f + (r + q)
  {
  }

  lemma {:induction false} RequeueLined(s: State, k: (nat, Tenant), t: Tenant)
    requires Lined(s, t) && Enabled(s, Requeue(k))
    ensures Lined(Do(s, Requeue(k)), t)
  {
    hide InOrder;
    var d := Do(s, Requeue(k));
    assert Held(s.jobs[k]) == s.jobs[k].failed;
    forall l <- d.jobs | Holder(d, t, l) ensures l != k && Holder(s, t, l) && d.jobs[l] == s.jobs[l] {
    }
    assert k.1 == t && s.jobs[k].failed != [] ==> Holder(s, t, k);
  }

  lemma {:induction false} StepLined(s: State, a: Action, t: Tenant)
    requires Lined(s, t) && Enabled(s, a) && (a.Drain? ==> !Overlaps(s, t))
    ensures Lined(Do(s, a), t)
  {
    hide Lined, Do, Enabled;
    match a
    case Write(u, r) => WriteLined(s, u, r, t);
    case Drain(sync, stamp) => DrainLined(s, sync, stamp, t);
    case Send(k, o) => SendLined(s, k, o, t);
    case Requeue(k) => RequeueLined(s, k, t);
    case SlowCrash(left) => CrashLined(s, left, t);
  }

  lemma {:induction false} CrashLined(s: State, left: nat, t: Tenant)
    requires Lined(s, t) && Enabled(s, SlowCrash(left))
    ensures Lined(Do(s, SlowCrash(left)), t)
  {
    hide InOrder;
    var d := Do(s, SlowCrash(left));
    assert forall k :: Holder(d, t, k) <==> Holder(s, t, k);
  }

  // ----- Runs -----

  /** No drain of the run puts records of `t` into a second sync. */
  ghost predicate NoOverlap(acts: seq<Action>, t: Tenant) {
    forall i :: 0 <= i < |acts| && acts[i].Drain? && Exec(EMPTY, acts[..i]).Some? ==> !Overlaps(Exec(EMPTY, acts[..i]).value, t)
  }

  lemma {:induction false} NoOverlapPrefix(acts: seq<Action>, t: Tenant)
    requires NoOverlap(acts, t) && acts != []
    ensures NoOverlap(acts[..|acts| - 1], t)
    ensures acts[|acts| - 1].Drain? && Exec(EMPTY, acts[..|acts| - 1]).Some? ==> !Overlaps(Exec(EMPTY, acts[..|acts| - 1]).value, t)
  {
    hide Exec, Overlaps;
    var init := acts[..|acts| - 1];
    forall i | 0 <= i < |init| && init[i].Drain? && Exec(EMPTY, init[..i]).Some?
      ensures !Overlaps(Exec(EMPTY, init[..i]).value, t)
    {
      assert init[..i] == acts[..i];
    }
  }

  /**
   * Failed records are requeued before anything written since: as long as no drain overlaps a sync of the tenant that
   * still holds records, what waits for the tenant stands in commit order.
   */
  lemma {:induction false} QueuesInCommitOrder(acts: seq<Action>, t: Tenant)
    requires Exec(EMPTY, acts).Some? && NoOverlap(acts, t)
    ensures Lined(Exec(EMPTY, acts).value, t)
    ensures InOrder(Exec(EMPTY, acts).value.log, t, Queue(Exec(EMPTY, acts).value, t))
  {
    if acts == [] {
      assert Lined(EMPTY, t);
    } else {
      hide Enabled, Do, NoOverlap, InOrder;
      NoOverlapPrefix(acts, t);
      QueuesInCommitOrder(acts[..|acts| - 1], t);
      StepLined(Exec(EMPTY, acts[..|acts| - 1]).value, acts[|acts| - 1], t);
    }
  }

  // ----- An overlapping drain can break the order -----

  predicate Settling(acts: seq<Action>) {
    forall a <- acts :: a.Send? || a.Requeue?
  }

  /** Sends and requeues alone can bring the queue of `t` out of order. */
  ghost predicate CanMisorder(s: State, t: Tenant) {
    exists acts :: Misorders(s, t, acts)
  }

  ghost predicate Misorders(s: State, t: Tenant, acts: seq<Action>) {
    && Settling(acts) && Exec(s, acts).Some?
    && !InOrder(Exec(s, acts).value.log, t, Queue(Exec(s, acts).value, t))
  }

  lemma {:induction false} SettlingLined(s: State, t: Tenant, acts: seq<Action>)
    requires Lined(s, t) && Settling(acts) && Exec(s, acts).Some?
    ensures Lined(Exec(s, acts).value, t)
  {
    if acts != [] {
      hide Enabled, Do, Lined;
      var init, a := acts[..|acts| - 1], acts[|acts| - 1];
      assert a in acts && forall x <- init :: x in acts;
      SettlingLined(s, t, init);
      StepLined(Exec(s, init).value, a, t);
    }
  }

  /** A job whose every send is given up holds its records as failed. */
  function AllFailed(job: Job): Job {
    job.(todo := [], failed := job.failed + job.todo)
  }

  lemma {:induction false} GiveUpAll(s: State, k: (nat, Tenant)) returns (acts: seq<Action>, journal: seq<Stamped>)
    requires k in s.jobs
    ensures Settling(acts) && Exec(s, acts) == Some(s.(jobs := s.jobs[k := AllFailed(s.jobs[k])], journal := journal))
    decreases |s.jobs[k].todo|
  {
    hide StampAll, Exec, Do, Enabled;
    var job := s.jobs[k];
    if job.todo == [] {
      acts, journal := [], s.journal;
      Nothing(s);
      assert job.failed + [] == job.failed;
      assert s.jobs[k := job] == s.jobs;
    } else {
      var d := GiveUpOne(s, k);
      var rest;
      rest, journal := GiveUpAll(d, k);
      RunsOn(s, [Send(k, GivenUp(0))], rest);
      acts := [Send(k, GivenUp(0))] + rest;
      assert d.jobs[k := AllFailed(d.jobs[k])] == s.jobs[k := AllFailed(job)];
    }
  }

  lemma {:induction false} GiveUpOne(s: State, k: (nat, Tenant)) returns (d: State)
    requires k in s.jobs && s.jobs[k].todo != []
    ensures Exec(s, [Send(k, GivenUp(0))]) == Some(d)
    ensures k in d.jobs && |d.jobs[k].todo| < |s.jobs[k].todo| && AllFailed(d.jobs[k]) == AllFailed(s.jobs[k])
    ensures d == s.(jobs := s.jobs[k := d.jobs[k]], journal := d.journal)
  {
    hide StampAll, Exec;
    var a, job := Send(k, GivenUp(0)), s.jobs[k];
    d := Do(s, a);
    Nothing(s);
    OneMore(s, [], s, a);
    assert [] + [a] == [a];
    ChunkFirst(job.todo);
    assert job.failed + Chunk(job.todo) + Rest(job.todo) == job.failed + job.todo;
  }

  /**
   * From a state whose line is in order, a drain can lead to a queue out of order, by sends and requeues alone,
   * if and only if a sync of the tenant still holds records and the tenant's queue is not empty.
   */
  lemma {:induction false} DrainMisordersIff(s: State, sync: nat, stamp: nat, t: Tenant)
    requires Lined(s, t) && OneWrite(s) && Enabled(s, Drain(sync, stamp))
    ensures CanMisorder(Do(s, Drain(sync, stamp)), t) <==> Overlaps(s, t)
  {
    var d := Do(s, Drain(sync, stamp));
    if Overlaps(s, t) {
      OverlapMisorders(s, sync, stamp, t);
    } else {
      hide Lined, Do, InOrder;
      DrainLined(s, sync, stamp, t);
      forall acts | Settling(acts) && Exec(d, acts).Some? ensures !Misorders(d, t, acts) {
        SettlingLined(d, t, acts);
        assert InOrder(Exec(d, acts).value.log, t, Queue(Exec(d, acts).value, t)) by { QueueLined(Exec(d, acts).value, t); }
      }
    }
  }

  lemma {:induction false} QueueLined(s: State, t: Tenant)
    requires Lined(s, t)
    ensures InOrder(s.log, t, Queue(s, t))
  {
  }

  lemma {:induction false} OverlapMisorders(s: State, sync: nat, stamp: nat, t: Tenant)
    requires Lined(s, t) && OneWrite(s) && Enabled(s, Drain(sync, stamp)) && Overlaps(s, t)
    ensures CanMisorder(Do(s, Drain(sync, stamp)), t)
  {
    hide InOrder, OneWrite, Exec, Misorders;
    var d := Do(s, Drain(sync, stamp));
    var k :| k in s.jobs && Holder(s, t, k);
    var n := (sync, t);
    var held, queue := Held(s.jobs[k]), Queue(s, t);
    assert k != n && d.jobs[k] == s.jobs[k] && d.jobs[n] == Job(stamp, queue, []);
    var one, j1 := GiveUpAll(d, k);
    var d1 := Exec(d, one).value;
    var two, j2 := GiveUpAll(d1, n);
    RunsOn(d, one, two);
    var d2 := Exec(d1, two).value;
    assert [] + queue == queue;
    OrderIsOneWay(s, t, held, queue);
    RequeueBoth(d, one + two, d2, t, k, n, held, queue);
  }

  /** Requeueing the older records first puts them behind the newer ones. */
  lemma {:induction false} RequeueBoth(d: State, acts: seq<Action>, s: State, t: Tenant, k: (nat, Tenant), n: (nat, Tenant),
                                       held: seq<Rec>, queue: seq<Rec>)
    requires Settling(acts) && Exec(d, acts) == Some(s) && k != n && k.1 == t && n.1 == t && k in s.jobs && n in s.jobs
    requires s.jobs[k].todo == [] && s.jobs[k].failed == held != [] && s.jobs[n].todo == [] && s.jobs[n].failed == queue != []
    requires Queue(s, t) == [] && !InOrder(s.log, t, queue + held)
    ensures Misorders(d, t, acts + [Requeue(k)] + [Requeue(n)])
  {
    hide InOrder, Exec;
    OneMore(d, acts, s, Requeue(k));
    var s1 := Do(s, Requeue(k));
    assert Queue(s1, t) == held + [] == held;
    OneMore(d, acts + [Requeue(k)], s1, Requeue(n));
    assert Queue(Do(s1, Requeue(n)), t) == queue + held;
  }

  /** Two syncs at once: the older record is requeued first, and ends up behind the newer one. */
  lemma {:induction false} TwoSyncsMisorder(t: Tenant, x: Rec, y: Rec)
    requires x.id != y.id
    ensures var acts := [Write(t, x), Drain(1, 1), Write(t, y), Drain(2, 2), Send((1, t), GivenUp(0)), Send((2, t), GivenUp(0)),
                         Requeue((1, t)), Requeue((2, t))];
            && Exec(EMPTY, acts).Some?
            && Queue(Exec(EMPTY, acts).value, t) == [y, x]
            && !InOrder(Exec(EMPTY, acts).value.log, t, [y, x])
  {
    hide Exec, Do, InOrder, Queue;
    Nothing(EMPTY);
    WriteAndDrain(EMPTY, [], EMPTY, 1, t, x);
    var r1 := [] + [Write(t, x)] + [Drain(1, 1)];
    var s1 := State(map[], map[(1, t) := Job(1, [x], [])], [], 0, [(t, x)]);
    assert EMPTY.jobs + map[(1, t) := Job(1, [x], [])] == s1.jobs && EMPTY.log + [(t, x)] == s1.log;
    WriteAndDrain(EMPTY, r1, s1, 2, t, y);
    var s2 := State(map[], map[(1, t) := Job(1, [x], []), (2, t) := Job(2, [y], [])], [], 0, [(t, x), (t, y)]);
    assert s1.jobs + map[(2, t) := Job(2, [y], [])] == s2.jobs && s1.log + [(t, y)] == s2.log;
    BothRequeued(EMPTY, r1 + [Write(t, y)] + [Drain(2, 2)], s2, t, x, y);
    assert r1 + [Write(t, y)] + [Drain(2, 2)]
           + [Send((1, t), GivenUp(0))] + [Send((2, t), GivenUp(0))] + [Requeue((1, t))] + [Requeue((2, t))]
        == [Write(t, x), Drain(1, 1), Write(t, y), Drain(2, 2), Send((1, t), GivenUp(0)), Send((2, t), GivenUp(0)),
            Requeue((1, t)), Requeue((2, t))];
  }

  lemma {:induction false} WriteAndDrain(s0: State, acts: seq<Action>, s: State, sync: nat, t: Tenant, r: Rec)
    requires Exec(s0, acts) == Some(s) && s.pending == map[] && Enabled(s, Write(t, r)) && Enabled(s, Drain(sync, sync))
    ensures Exec(s0, acts + [Write(t, r)] + [Drain(sync, sync)])
         == Some(s.(jobs := s.jobs + map[(sync, t) := Job(sync, [r], [])], log := s.log + [(t, r)]))
  {
    hide Exec;
    OneMore(s0, acts, s, Write(t, r));
    var m := Do(s, Write(t, r));
    assert m.pending == map[t := [r]] by { assert Queue(s, t) + [r] == [r]; }
    OneMore(s0, acts + [Write(t, r)], m, Drain(sync, sync));
    assert Started(m, sync, sync) == map[(sync, t) := Job(sync, [r], [])];
  }

  lemma {:induction false} BothRequeued(s0: State, acts: seq<Action>, s: State, t: Tenant, x: Rec, y: Rec)
    requires Exec(s0, acts) == Some(s) && x.id != y.id
    requires s == State(map[], map[(1, t) := Job(1, [x], []), (2, t) := Job(2, [y], [])], [], 0, [(t, x), (t, y)])
    ensures var all := acts + [Send((1, t), GivenUp(0))] + [Send((2, t), GivenUp(0))] + [Requeue((1, t))] + [Requeue((2, t))];
            && Exec(s0, all).Some? && Queue(Exec(s0, all).value, t) == [y, x]
            && !InOrder(Exec(s0, all).value.log, t, [y, x])
  {
    hide Exec, StampAll, InOrder;
    OneMore(s0, acts, s, Send((1, t), GivenUp(0)));
    var s1 := Do(s, Send((1, t), GivenUp(0)));
    assert s1.jobs[(1, t)] == Job(1, [], [x]);
    var r1 := acts + [Send((1, t), GivenUp(0))];
    OneMore(s0, r1, s1, Send((2, t), GivenUp(0)));
    var s2 := Do(s1, Send((2, t), GivenUp(0)));
    assert s2.jobs[(2, t)] == Job(2, [], [y]);
    var r2 := r1 + [Send((2, t), GivenUp(0))];
    OneMore(s0, r2, s2, Requeue((1, t)));
    var s3 := Do(s2, Requeue((1, t)));
    OneMore(s0, r2 + [Requeue((1, t))], s3, Requeue((2, t)));
    assert Queue(s3, t) == [x];
    assert [y] + [x] == [y, x];
    WrittenInOrder(s.log, t, x, y);
    OrderIsOneWay(s, t, [x], [y]);
  }

  lemma {:induction false} WrittenInOrder(log: seq<(Tenant, Rec)>, t: Tenant, x: Rec, y: Rec)
    requires log == [(t, x), (t, y)]
    ensures InOrder(log, t, [x] + [y])
  {
    assert log[0] == (t, x) && log[1] == (t, y);
    assert Earlier(log, t, x, y);
  }
}
