/** Shipping history: records queued on a Quick-Node, drained, sent in chunks, requeued on failure. */
module HistoryFlow {
  import opened Ids
  import opened Wrappers
  import opened History

  const FLUSH_BATCH_MAX: nat := 512

  /** One tenant's part of a sync: records not sent yet, and those whose sending failed. */
  datatype Job = Job(stamp: nat, todo: seq<Rec>, failed: seq<Rec>)

  /**
   * `pending`: queued per tenant. `jobs`: by sync and tenant. `journal`: the Slow-Node's, of which `durable` entries are on disk.
   * `log`: everything ever queued, in commit order.
   */
  datatype State = State(pending: map<Tenant, seq<Rec>>, jobs: map<(nat, Tenant), Job>,
                         journal: seq<Stamped>, durable: nat, log: seq<(Tenant, Rec)>)

  /** How sending a chunk ended: acknowledged; stored, but the reply was lost; or given up after `n` records. */
  datatype Outcome = Acked | ReplyLost | GivenUp(n: nat)

  datatype Action =
    | Write(tenant: Tenant, rec: Rec)
    | Drain(sync: nat, stamp: nat)
    | Send(job: (nat, Tenant), outcome: Outcome)
    | Requeue(job: (nat, Tenant))
    | SlowCrash(left: nat)    // the Slow-Node restarts; entries not on disk may be gone

  function Queue(s: State, t: Tenant): seq<Rec> {
    if t in s.pending then s.pending[t] else []
  }

  /** The first records, as many as one request takes. */
  function Chunk(todo: seq<Rec>): (r: seq<Rec>)
    ensures r <= todo && |r| <= FLUSH_BATCH_MAX && (r == todo || |r| == FLUSH_BATCH_MAX)
  {
    if |todo| <= FLUSH_BATCH_MAX then todo else todo[..FLUSH_BATCH_MAX]
  }

  function Rest(todo: seq<Rec>): seq<Rec> {
    todo[|Chunk(todo)|..]
  }

  /** How many records of the chunk reach the Slow-Node's journal. */
  function Arrived(chunk: seq<Rec>, o: Outcome): nat {
    if o.GivenUp? && o.n <= |chunk| then o.n else |chunk|
  }

  /** One job per tenant with a queue. */
  function Started(s: State, sync: nat, stamp: nat): (r: map<(nat, Tenant), Job>)
    ensures forall k :: k in r <==> k.0 == sync && k.1 in s.pending
    ensures forall k <- r :: r[k] == Job(stamp, Queue(s, k.1), [])
  {
    map t <- s.pending :: (sync, t) := Job(stamp, Queue(s, t), [])
  }

  predicate Enabled(s: State, a: Action) {
    match a
    case Write(t, r) => forall i :: 0 <= i < |s.log| ==> s.log[i].0 != t || s.log[i].1.id != r.id
    case Drain(sync, stamp) => forall k <- s.jobs :: k.0 != sync
    case Send(k, o) => k in s.jobs && s.jobs[k].todo != [] && (o.GivenUp? ==> o.n <= |Chunk(s.jobs[k].todo)|)
    case Requeue(k) => k in s.jobs && s.jobs[k].todo == []
    case SlowCrash(left) => s.durable <= left <= |s.journal|
  }

  function Do(s: State, a: Action): State
    requires Enabled(s, a)
  {
    match a
    case Write(t, r) => s.(pending := s.pending[t := Queue(s, t) + [r]], log := s.log + [(t, r)])
    case Drain(sync, stamp) =>
      s.(pending := map[], jobs := s.jobs + Started(s, sync, stamp))
    case Send(k, o) =>
      var job := s.jobs[k];
      var chunk := Chunk(job.todo);
      var journal := s.journal + StampAll(k.1, job.stamp, chunk[..Arrived(chunk, o)]);
      var failed := if o.Acked? then job.failed else job.failed + chunk;
      s.(jobs := s.jobs[k := job.(todo := Rest(job.todo), failed := failed)], journal := journal,
         durable := if o.GivenUp? then s.durable else |journal|)
    case Requeue(k) =>
      var failed := s.jobs[k].failed;
      s.(jobs := s.jobs - {k}, pending := if failed == [] then s.pending else s.pending[k.1 := failed + Queue(s, k.1)])
    case SlowCrash(left) => s.(journal := s.journal[..left])
  }

  function Exec(s: State, acts: seq<Action>): Option<State> {
    if acts == [] then Some(s)
    else
      var before := Exec(s, acts[..|acts| - 1]);
      if before.Some? && Enabled(before.value, acts[|acts| - 1]) then Some(Do(before.value, acts[|acts| - 1])) else None
  }

  const EMPTY: State := State(map[], map[], [], 0, [])

  lemma {:induction false} Nothing(s: State)
    ensures Exec(s, []) == Some(s)
  {
  }

  lemma {:induction false} OneMore(s0: State, acts: seq<Action>, s: State, a: Action)
    requires Exec(s0, acts) == Some(s) && Enabled(s, a)
    ensures Exec(s0, acts + [a]) == Some(Do(s, a))
  {
    assert (acts + [a])[..|acts|] == acts;
  }

  /** One run after another. */
  lemma {:induction false} RunsOn(s: State, first: seq<Action>, later: seq<Action>)
    requires Exec(s, first).Some?
    ensures Exec(s, first + later) == Exec(Exec(s, first).value, later)
    decreases |later|
  {
    hide Enabled, Do;
    if later == [] {
      assert first + later == first;
    } else {
      var acts := first + later;
      assert acts[..|acts| - 1] == first + later[..|later| - 1];
      RunsOn(s, first, later[..|later| - 1]);
    }
  }

  // ----- Nothing is lost -----

  /** The record is queued, or in a job that has not finished. */
  ghost predicate Waiting(s: State, t: Tenant, r: Rec) {
    r in Queue(s, t) || exists k <- s.jobs :: k.1 == t && InJob(s.jobs[k], r)
  }

  predicate InJob(job: Job, r: Rec) {
    r in job.todo || r in job.failed
  }

  predicate Holds(journal: seq<Stamped>, t: Tenant, r: Rec) {
    exists j <- journal :: j.tenant == t && j.rec == r
  }

  /** The record was written. */
  predicate Logged(s: State, t: Tenant, r: Rec) {
    (t, r) in s.log
  }

  /** A written record waits, or is on the Slow-Node's disk. */
  ghost predicate Accounted(s: State, t: Tenant, r: Rec)
    requires s.durable <= |s.journal|
  {
    Logged(s, t, r) ==> Waiting(s, t, r) || Holds(s.journal[..s.durable], t, r)
  }

  /** Only written records wait or are journalled. */
  ghost predicate Genuine(s: State, t: Tenant, r: Rec) {
    Waiting(s, t, r) || Holds(s.journal, t, r) ==> Logged(s, t, r)
  }

  ghost predicate Fair(s: State, t: Tenant, r: Rec) {
    s.durable <= |s.journal| && Accounted(s, t, r) && Genuine(s, t, r)
  }

  lemma {:induction false} HoldsMore(journal: seq<Stamped>, n: nat, more: seq<Stamped>, t: Tenant, r: Rec)
    requires n <= |journal|
    ensures Holds(journal + more, t, r) <==> Holds(journal, t, r) || Holds(more, t, r)
    ensures Holds(journal[..n], t, r) ==> Holds(journal, t, r)
    ensures (journal + more)[..n] == journal[..n]
  {
    assert forall j :: j in journal + more <==> j in journal || j in more;
    assert forall j <- journal[..n] :: j in journal;
  }

  lemma {:induction false} HoldsStamped(t: Tenant, stamp: nat, records: seq<Rec>, u: Tenant, r: Rec)
    ensures Holds(StampAll(t, stamp, records), u, r) <==> u == t && r in records
  {
    var all := StampAll(t, stamp, records);
    if u == t && r in records {
      var i :| 0 <= i < |records| && records[i] == r;
      assert all[i] in all;
    }
  }

  lemma {:induction false} ChunkRest(todo: seq<Rec>, r: Rec)
    ensures r in todo <==> r in Chunk(todo) || r in Rest(todo)
  {
    ChunkFirst(todo);
  }

  lemma {:induction false} ChunkFirst(todo: seq<Rec>)
    ensures todo == Chunk(todo) + Rest(todo)
  {
  }

  lemma {:induction false} WriteFair(s: State, t: Tenant, r: Rec, u: Tenant, q: Rec)
    requires Fair(s, u, q) && Enabled(s, Write(t, r))
    ensures Fair(Do(s, Write(t, r)), u, q)
  {
    var d := Do(s, Write(t, r));
    assert (u, q) in d.log <==> (u, q) in s.log || (u == t && q == r);
    assert q in Queue(d, u) <==> q in Queue(s, u) || (u == t && q == r);
  }

  lemma {:induction false} DrainFair(s: State, sync: nat, stamp: nat, u: Tenant, q: Rec)
    requires Fair(s, u, q) && Enabled(s, Drain(sync, stamp))
    ensures Fair(Do(s, Drain(sync, stamp)), u, q)
  {
    var d := Do(s, Drain(sync, stamp));
    assert Queue(d, u) == [];
    if q in Queue(s, u) {
      assert (sync, u) in d.jobs && InJob(d.jobs[(sync, u)], q);
    } else if k :| k in s.jobs && k.1 == u && InJob(s.jobs[k], q) {
      assert k in d.jobs && d.jobs[k] == s.jobs[k];
    }
    if k :| k in d.jobs && k.1 == u && InJob(d.jobs[k], q) {
      if k.0 == sync {
        assert q in Queue(s, u);
      } else {
        assert d.jobs[k] == s.jobs[k];
      }
    }
  }

  /** A job after sending holds what it held, less the chunk if that was acknowledged. */
  lemma {:induction false} SendJob(job: Job, now: Job, o: Outcome, q: Rec)
    requires now == job.(todo := Rest(job.todo), failed := if o.Acked? then job.failed else job.failed + Chunk(job.todo))
    ensures InJob(now, q) ==> InJob(job, q)
    ensures InJob(job, q) && !InJob(now, q) ==> o.Acked? && q in Chunk(job.todo)
  {
    ChunkRest(job.todo, q);
  }

  lemma {:induction false} SendFair(s: State, k: (nat, Tenant), o: Outcome, u: Tenant, q: Rec)
    requires Fair(s, u, q) && Enabled(s, Send(k, o))
    ensures Fair(Do(s, Send(k, o)), u, q)
  {
    hide InJob, Holds, Chunk, Rest;
    var d := Do(s, Send(k, o));
    var job := s.jobs[k];
    var chunk := Chunk(job.todo);
    var sent := chunk[..Arrived(chunk, o)];
    var more := StampAll(k.1, job.stamp, sent);
    SendJob(job, d.jobs[k], o, q);
    HoldsStamped(k.1, job.stamp, sent, u, q);
    HoldsMore(s.journal, s.durable, more, u, q);
    assert q in sent ==> q in chunk;
    assert q in chunk ==> InJob(job, q) by { ChunkRest(job.todo, q); JobHas(job, q); }
    if o.Acked? {
      assert sent == chunk;
      assert d.journal[..d.durable] == d.journal;
    } else if o.ReplyLost? {
      assert d.journal[..d.durable] == d.journal;
    }
    if Waiting(s, u, q) && !(Waiting(d, u, q)) {
      var j :| j in s.jobs && j.1 == u && InJob(s.jobs[j], q);
      assert j in d.jobs;
      assert j == k;
    }
    if j :| j in d.jobs && j.1 == u && InJob(d.jobs[j], q) {
      assert j in s.jobs && InJob(s.jobs[j], q);
    }
  }

  lemma {:induction false} JobHas(job: Job, q: Rec)
    ensures InJob(job, q) <==> q in job.todo || q in job.failed
  {
  }

  lemma {:induction false} RequeueFair(s: State, k: (nat, Tenant), u: Tenant, q: Rec)
    requires Fair(s, u, q) && Enabled(s, Requeue(k))
    ensures Fair(Do(s, Requeue(k)), u, q)
  {
    hide Holds;
    var d := Do(s, Requeue(k));
    var failed := s.jobs[k].failed;
    assert q in Queue(d, u) <==> q in Queue(s, u) || (u == k.1 && q in failed);
    if j :| j in s.jobs && j.1 == u && InJob(s.jobs[j], q) {
      if j != k {
        assert j in d.jobs && d.jobs[j] == s.jobs[j];
      }
    }
    if j :| j in d.jobs && j.1 == u && InJob(d.jobs[j], q) {
      assert j in s.jobs && d.jobs[j] == s.jobs[j];
    }
    if u == k.1 && q in failed {
      assert InJob(s.jobs[k], q);
    }
  }

  lemma {:induction false} CrashFair(s: State, left: nat, u: Tenant, q: Rec)
    requires Fair(s, u, q) && Enabled(s, SlowCrash(left))
    ensures Fair(Do(s, SlowCrash(left)), u, q)
  {
    hide InJob;
    var d := Do(s, SlowCrash(left));
    assert d.journal[..d.durable] == s.journal[..s.durable];
    HoldsMore(s.journal, left, [], u, q);
  }

  lemma {:induction false} StepFair(s: State, a: Action, u: Tenant, q: Rec)
    requires Fair(s, u, q) && Enabled(s, a)
    ensures Fair(Do(s, a), u, q)
  {
    hide Fair, Do;
    match a
    case Write(t, r) => WriteFair(s, t, r, u, q);
    case Drain(sync, stamp) => DrainFair(s, sync, stamp, u, q);
    case Send(k, o) => SendFair(s, k, o, u, q);
    case Requeue(k) => RequeueFair(s, k, u, q);
    case SlowCrash(left) => CrashFair(s, left, u, q);
  }

  // ----- Ids are written once -----

  ghost predicate OneWrite(s: State) {
    forall i, j :: 0 <= i < j < |s.log| ==> s.log[i].0 != s.log[j].0 || s.log[i].1.id != s.log[j].1.id
  }

  lemma {:induction false} RunFair(acts: seq<Action>, u: Tenant, q: Rec)
    requires Exec(EMPTY, acts).Some?
    ensures Fair(Exec(EMPTY, acts).value, u, q) && OneWrite(Exec(EMPTY, acts).value)
  {
    if acts != [] {
      hide Fair, Enabled;
      RunFair(acts[..|acts| - 1], u, q);
      var s := Exec(EMPTY, acts[..|acts| - 1]).value;
      StepFair(s, acts[|acts| - 1], u, q);
      StepOneWrite(s, acts[|acts| - 1]);
    }
  }

  lemma {:induction false} StepOneWrite(s: State, a: Action)
    requires OneWrite(s) && Enabled(s, a)
    ensures OneWrite(Do(s, a))
  {
  }

  /**
   * In every run of writes, syncs that succeed, fail or fail half-way, and Slow-Node restarts, each record queued is
   * pending, in a sync not finished, or on the Slow-Node's disk; and nothing else is in any of them.
   */
  lemma {:induction false} NothingIsLost(acts: seq<Action>, t: Tenant, r: Rec)
    requires Exec(EMPTY, acts).Some?
    ensures var s := Exec(EMPTY, acts).value;
            && s.durable <= |s.journal|
            && (Logged(s, t, r) ==> Waiting(s, t, r) || Holds(s.journal[..s.durable], t, r))
            && (Waiting(s, t, r) || Holds(s.journal, t, r) ==> Logged(s, t, r))
  {
    RunFair(acts, t, r);
  }

  // ----- The index at rest -----

  lemma {:induction false} IndexHas(journal: seq<Stamped>, t: Tenant, id: Id)
    ensures (t, id) in IndexOf(journal) ==> Holds(journal, t, IndexOf(journal)[(t, id)].rec) && IndexOf(journal)[(t, id)].rec.id == id
    ensures forall r :: Holds(journal, t, r) && r.id == id ==> (t, id) in IndexOf(journal)
  {
    if journal != [] {
      var init, last := journal[..|journal| - 1], journal[|journal| - 1];
      IndexHas(init, t, id);
      assert last in journal && forall j <- init :: j in journal;
      assert journal == init + [last];
    }
  }

  /** Once nothing waits, the Slow-Node serves exactly the records written, even if it restarts. */
  lemma {:induction false} IdleIndexIsLog(acts: seq<Action>, left: nat, t: Tenant, id: Id)
    requires Exec(EMPTY, acts).Some?
    requires forall u, q :: !Waiting(Exec(EMPTY, acts).value, u, q)
    requires Exec(EMPTY, acts).value.durable <= left <= |Exec(EMPTY, acts).value.journal|
    ensures var s := Exec(EMPTY, acts).value;
            var index := IndexOf(s.journal[..left]);
            && ((t, id) in index ==> Logged(s, t, Rec(id, index[(t, id)].rec.data)))
            && (forall data :: Logged(s, t, Rec(id, data)) ==> DataAt(index, t, id) == Some(data))
  {
    hide Exec, Waiting;
    var s := Exec(EMPTY, acts).value;
    var kept := s.journal[..left];
    IndexHas(kept, t, id);
    var index := IndexOf(kept);
    if (t, id) in index {
      var r := index[(t, id)].rec;
      RunFair(acts, t, r);
      HoldsMore(s.journal, left, [], t, r);
    }
    forall data | Logged(s, t, Rec(id, data)) ensures DataAt(index, t, id) == Some(data) {
      var r := Rec(id, data);
      RunFair(acts, t, r);
      assert kept[..s.durable] == s.journal[..s.durable];
      HoldsMore(kept, s.durable, [], t, r);
      var r2 := index[(t, id)].rec;
      assert Logged(s, t, r2);
      SameWrite(s, t, r, r2);
    }
  }

  lemma {:induction false} SameWrite(s: State, t: Tenant, r: Rec, q: Rec)
    requires OneWrite(s) && Logged(s, t, r) && Logged(s, t, q) && r.id == q.id
    ensures r == q
  {
    var i :| 0 <= i < |s.log| && s.log[i] == (t, r);
    var j :| 0 <= j < |s.log| && s.log[j] == (t, q);
    assert i == j;
  }
}
