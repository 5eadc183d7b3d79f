/** Each record waits in one place, and waits until a chunk with it is acknowledged: then never again. */
module HistoryOnce {
  import opened Lists
  import opened History
  import opened HistoryFlow
  import opened HistoryOrder

  /** No record of `t` waits twice, in the queue, in a sync, or in two of them. */
  ghost predicate Single(s: State, t: Tenant) {
    && Distinct(Queue(s, t))
    && (forall k <- s.jobs :: k.1 == t ==> Distinct(Held(s.jobs[k])) && Apart(Held(s.jobs[k]), Queue(s, t)))
    && (forall k <- s.jobs, l <- s.jobs :: k.1 == t && l.1 == t && k != l ==> Apart(Held(s.jobs[k]), Held(s.jobs[l])))
  }

  ghost predicate Apart(a: seq<Rec>, b: seq<Rec>) {
    forall x <- a :: x !in b
  }

  /** Only written records wait. */
  ghost predicate WaitingIsLogged(s: State, t: Tenant) {
    && (forall r <- Queue(s, t) :: Logged(s, t, r))
    && (forall k <- s.jobs :: k.1 == t ==> forall r <- Held(s.jobs[k]) :: Logged(s, t, r))
  }

  ghost predicate Tidy(s: State, t: Tenant) {
    Single(s, t) && WaitingIsLogged(s, t)
  }

  lemma {:induction false} WriteTidy(s: State, u: Tenant, r: Rec, t: Tenant)
    requires Tidy(s, t) && Enabled(s, Write(u, r))
    ensures Tidy(Do(s, Write(u, r)), t)
  {
    var d := Do(s, Write(u, r));
    assert forall e <- s.log :: e in d.log;
    assert d.log[|s.log|] == (u, r);
    if u == t {
      assert !Logged(s, t, r);
      assert Queue(d, t) == Queue(s, t) + [r];
      assert forall x :: x in Queue(d, t) <==> x in Queue(s, t) || x == r;
    }
  }

  lemma {:induction false} DrainTidy(s: State, sync: nat, stamp: nat, t: Tenant)
    requires Tidy(s, t) && Enabled(s, Drain(sync, stamp))
    ensures Tidy(Do(s, Drain(sync, stamp)), t)
  {
    var d := Do(s, Drain(sync, stamp));
    forall k <- d.jobs | k.1 == t
      ensures if k.0 == sync then Held(d.jobs[k]) == Queue(s, t) else k in s.jobs && d.jobs[k] == s.jobs[k]
    {
    }
  }

  lemma {:induction false} SendHeld(job: Job, now: Job, o: Outcome)
    requires now == job.(todo := Rest(job.todo), failed := if o.Acked? then job.failed else job.failed + Chunk(job.todo))
    requires Distinct(Held(job))
    ensures Distinct(Held(now))
    ensures forall r :: r in Held(now) <==> r in Held(job) && !(o.Acked? && r in Chunk(job.todo))
  {
    hide Chunk, Rest;
    ChunkFirst(job.todo);
    var f, c, rest := job.failed, Chunk(job.todo), Rest(job.todo);
    assert Held(job) == f + c + rest;
    if o.Acked? {
      DropMiddle(f, c, rest);
    } else {
      assert Held(now) == f + c + rest;
    }
  }

  lemma {:induction false} DropMiddle(a: seq<Rec>, b: seq<Rec>, c: seq<Rec>)
    requires Distinct(a + b + c)
    ensures Distinct(a + c) && forall r :: r in a + c <==> r in a + b + c && r !in b
  {
    var all, left := a + b + c, a + c;
    assert forall i :: 0 <= i < |left| ==> left[i] == all[if i < |a| then i else i + |b|];
    forall r | r in b ensures r !in left {
      var j :| 0 <= j < |b| && b[j] == r;
      assert all[|a| + j] == r;
    }
    assert forall r :: r in all <==> r in a || r in b || r in c;
  }

  lemma {:induction false} SendTidy(s: State, k: (nat, Tenant), o: Outcome, t: Tenant)
    requires Tidy(s, t) && Enabled(s, Send(k, o))
    ensures Tidy(Do(s, Send(k, o)), t)
  {
    hide Chunk, Rest, StampAll, Held, Distinct;
    var d := Do(s, Send(k, o));
    if k.1 == t {
      SendHeld(s.jobs[k], d.jobs[k], o);
    }
  }

  lemma {:induction false} RequeueTidy(s: State, k: (nat, Tenant), t: Tenant)
    requires Tidy(s, t) && Enabled(s, Requeue(k))
    ensures Tidy(Do(s, Requeue(k)), t)
  {
    var d := Do(s, Requeue(k));
    if k.1 == t {
      var failed := s.jobs[k].failed;
      assert Held(s.jobs[k]) == failed;
      assert Queue(d, t) == failed + Queue(s, t) by { assert failed == [] ==> failed + Queue(s, t) == Queue(s, t); }
      assert forall x :: x in Queue(d, t) <==> x in failed || x in Queue(s, t);
      JoinDistinct(failed, Queue(s, t));
    }
  }

  lemma {:induction false} JoinDistinct(a: seq<Rec>, b: seq<Rec>)
    requires Distinct(a) && Distinct(b) && Apart(a, b)
    ensures Distinct(a + b)
  {
    forall i, j | 0 <= i < j < |a + b| ensures (a + b)[i] != (a + b)[j] {
      if i < |a| <= j {
        assert a[i] in a;
      }
    }
  }

  lemma {:induction false} StepTidy(s: State, a: Action, t: Tenant)
    requires Tidy(s, t) && Enabled(s, a)
    ensures Tidy(Do(s, a), t)
  {
    hide Tidy, Do, Enabled;
    match a
    case Write(u, r) => WriteTidy(s, u, r, t);
    case Drain(sync, stamp) => DrainTidy(s, sync, stamp, t);
    case Send(k, o) => SendTidy(s, k, o, t);
    case Requeue(k) => RequeueTidy(s, k, t);
    case SlowCrash(left) => CrashTidy(s, left, t);
  }

  lemma {:induction false} CrashTidy(s: State, left: nat, t: Tenant)
    requires Tidy(s, t) && Enabled(s, SlowCrash(left))
    ensures Tidy(Do(s, SlowCrash(left)), t)
  {
  }

  // ----- Who leaves -----

  /** The step acknowledges a chunk of `t` with `r` in it. */
  predicate Acks(s: State, a: Action, t: Tenant, r: Rec) {
    && a.Send? && a.outcome.Acked? && a.job.1 == t && a.job in s.jobs && r in Chunk(s.jobs[a.job].todo)
  }

  ghost predicate WaitsAt(s: State, t: Tenant, r: Rec) {
    r in Queue(s, t) || exists k <- s.jobs :: k.1 == t && r in Held(s.jobs[k])
  }

  lemma {:induction false} WaitingIs(s: State, t: Tenant, r: Rec)
    ensures Waiting(s, t, r) <==> WaitsAt(s, t, r)
  {
    forall k <- s.jobs ensures InJob(s.jobs[k], r) <==> r in Held(s.jobs[k]) {
    }
  }

  lemma {:induction false} SendWaits(s: State, k: (nat, Tenant), o: Outcome, t: Tenant, r: Rec)
    requires Tidy(s, t) && Enabled(s, Send(k, o))
    ensures WaitsAt(Do(s, Send(k, o)), t, r) <==> WaitsAt(s, t, r) && !Acks(s, Send(k, o), t, r)
  {
    hide Chunk, Rest, StampAll, Held, Distinct;
    var d := Do(s, Send(k, o));
    assert Queue(d, t) == Queue(s, t);
    if k.1 == t {
      SendHeld(s.jobs[k], d.jobs[k], o);
      ChunkHeld(s.jobs[k], r);
      if l :| l in s.jobs && l.1 == t && r in Held(s.jobs[l]) {
        assert l in d.jobs && (l != k ==> d.jobs[l] == s.jobs[l]);
      }
      if l :| l in d.jobs && l.1 == t && r in Held(d.jobs[l]) {
        assert l in s.jobs && r in Held(s.jobs[l]);
      }
    } else {
      assert forall l :: l in s.jobs && l.1 == t ==> l in d.jobs && d.jobs[l] == s.jobs[l];
    }
  }

  lemma {:induction false} ChunkHeld(job: Job, r: Rec)
    ensures r in Chunk(job.todo) ==> r in Held(job)
  {
    ChunkFirst(job.todo);
  }

  lemma {:induction false} DrainWaits(s: State, sync: nat, stamp: nat, t: Tenant, r: Rec)
    requires Enabled(s, Drain(sync, stamp))
    ensures WaitsAt(Do(s, Drain(sync, stamp)), t, r) <==> WaitsAt(s, t, r)
  {
    var d := Do(s, Drain(sync, stamp));
    assert Queue(d, t) == [];
    if r in Queue(s, t) {
      assert (sync, t) in d.jobs && r in Held(d.jobs[(sync, t)]);
    } else if k :| k in s.jobs && k.1 == t && r in Held(s.jobs[k]) {
      assert k in d.jobs && d.jobs[k] == s.jobs[k];
    }
    if k :| k in d.jobs && k.1 == t && r in Held(d.jobs[k]) {
      if k.0 == sync {
        assert Held(d.jobs[k]) == Queue(s, t);
      } else {
        assert d.jobs[k] == s.jobs[k];
      }
    }
  }

  lemma {:induction false} RequeueWaits(s: State, k: (nat, Tenant), t: Tenant, r: Rec)
    requires Enabled(s, Requeue(k))
    ensures WaitsAt(Do(s, Requeue(k)), t, r) <==> WaitsAt(s, t, r)
  {
    var d := Do(s, Requeue(k));
    assert Held(s.jobs[k]) == s.jobs[k].failed;
    assert r in Queue(d, t) <==> r in Queue(s, t) || (k.1 == t && r in s.jobs[k].failed);
    if l :| l in s.jobs && l.1 == t && r in Held(s.jobs[l]) {
      assert l != k ==> l in d.jobs && d.jobs[l] == s.jobs[l];
    }
    if l :| l in d.jobs && l.1 == t && r in Held(d.jobs[l]) {
      assert l in s.jobs && d.jobs[l] == s.jobs[l];
    }
  }

  lemma {:induction false} WriteWaits(s: State, u: Tenant, q: Rec, t: Tenant, r: Rec)
    requires Enabled(s, Write(u, q))
    ensures WaitsAt(Do(s, Write(u, q)), t, r) <==> WaitsAt(s, t, r) || (u == t && q == r)
    ensures Logged(Do(s, Write(u, q)), t, r) <==> Logged(s, t, r) || (u == t && q == r)
    ensures u == t && q == r ==> !Logged(s, t, r)
  {
    var d := Do(s, Write(u, q));
    assert r in Queue(d, t) <==> r in Queue(s, t) || (u == t && q == r);
    assert (t, r) in d.log <==> (t, r) in s.log || (u == t && q == r);
  }

  /** A record begins to wait when it is written and stops when a chunk with it is acknowledged; no other step changes that. */
  lemma {:induction false} StepWaits(s: State, a: Action, t: Tenant, r: Rec)
    requires Tidy(s, t) && Enabled(s, a)
    ensures WaitsAt(Do(s, a), t, r) <==> (WaitsAt(s, t, r) && !Acks(s, a, t, r)) || a == Write(t, r)
    ensures Logged(Do(s, a), t, r) <==> Logged(s, t, r) || a == Write(t, r)
    ensures a == Write(t, r) ==> !Logged(s, t, r)
    ensures WaitsAt(s, t, r) ==> Logged(s, t, r)
    ensures Acks(s, a, t, r) ==> WaitsAt(s, t, r)
  {
    hide Chunk, Rest, StampAll, Held, Distinct;
    match a
    case Write(u, q) => WriteWaits(s, u, q, t, r);
    case Drain(sync, stamp) => DrainWaits(s, sync, stamp, t, r);
    case Send(k, o) => SendWaits(s, k, o, t, r); ChunkHeld(s.jobs[k], r);
    case Requeue(k) => RequeueWaits(s, k, t, r);
    case SlowCrash(left) =>
  }

  /** Some step of the run acknowledged a chunk with the record. */
  ghost predicate AckedIn(acts: seq<Action>, t: Tenant, r: Rec) {
    acts != [] &&
    var init := acts[..|acts| - 1];
    AckedIn(init, t, r) || (Exec(EMPTY, init).Some? && Acks(Exec(EMPTY, init).value, acts[|acts| - 1], t, r))
  }

  /**
   * In every run, a record written is waiting if and only if no chunk with it was acknowledged so far: replies lost and sends
   * given up bring it back, and once acknowledged it is never sent again.
   */
  lemma {:induction false} WaitsUntilAcked(acts: seq<Action>, t: Tenant, r: Rec)
    requires Exec(EMPTY, acts).Some?
    ensures Tidy(Exec(EMPTY, acts).value, t)
    ensures Waiting(Exec(EMPTY, acts).value, t, r) <==> Logged(Exec(EMPTY, acts).value, t, r) && !AckedIn(acts, t, r)
    ensures AckedIn(acts, t, r) ==> Logged(Exec(EMPTY, acts).value, t, r)
  {
    WaitingIs(Exec(EMPTY, acts).value, t, r);
    if acts != [] {
      hide Tidy, Do, Enabled, WaitsAt, Waiting, Logged, Acks;
      var init, a := acts[..|acts| - 1], acts[|acts| - 1];
      var s := Exec(EMPTY, init).value;
      WaitsUntilAcked(init, t, r);
      WaitingIs(s, t, r);
      StepTidy(s, a, t);
      StepWaits(s, a, t, r);
    }
  }

  // ----- What the Slow-Node keeps -----

  /** Stamps are those of syncs begun. */
  ghost predicate Dated(s: State, acts: seq<Action>) {
    && (forall k <- s.jobs :: Drain(k.0, s.jobs[k].stamp) in acts)
    && (forall j <- s.journal :: exists sync :: Drain(sync, j.stamp) in acts)
  }

  lemma {:induction false} StepDated(s: State, a: Action, acts: seq<Action>)
    requires Dated(s, acts) && Enabled(s, a)
    ensures Dated(Do(s, a), acts + [a])
  {
    var now := acts + [a];
    assert forall x :: x in acts || x == a ==> x in now;
    if a.Send? {
      var job := s.jobs[a.job];
      assert Drain(a.job.0, job.stamp) in now;
      forall j <- Do(s, a).journal ensures j in s.journal || j.stamp == job.stamp {
      }
    }
  }

  /** In every run, a record on the Slow-Node carries the stamp of a sync begun. */
  lemma {:induction false} StampedAtDrain(acts: seq<Action>)
    requires Exec(EMPTY, acts).Some?
    ensures Dated(Exec(EMPTY, acts).value, acts)
  {
    if acts != [] {
      hide Dated, Do, Enabled;
      var init, a := acts[..|acts| - 1], acts[|acts| - 1];
      StampedAtDrain(init);
      StepDated(Exec(EMPTY, init).value, a, init);
      assert init + [a] == acts;
    } else {
      hide Exec;
      Nothing(EMPTY);
    }
  }

  /** After a chunk was answered no crash takes a record of it; of one given up some arrived, and a crash may take all of them. */
  lemma {:induction false} CrashAfterSend(s: State, k: (nat, Tenant), o: Outcome)
    requires Enabled(s, Send(k, o)) && s.durable <= |s.journal|
    ensures var d := Do(s, Send(k, o));
            if o.GivenUp?
            then Enabled(d, SlowCrash(|s.journal|)) && Do(d, SlowCrash(|s.journal|)).journal == s.journal
            else forall left: nat :: Enabled(d, SlowCrash(left)) ==> Do(d, SlowCrash(left)).journal == d.journal
    ensures |Do(s, Send(k, o)).journal| == |s.journal| + if o.GivenUp? then o.n else |Chunk(s.jobs[k].todo)|
  {
    hide Chunk, Rest, StampAll;
  }
}
