/** The sync of a Quick-Node with the Slow-Node, run step by step. */
module HistorySync {
  import opened Wrappers
  import opened History
  import opened HistoryFlow

  class Shipper {
    const store: HistoryStore
    var pending: map<Tenant, seq<Rec>>
    /** The state of the machine this queue and store are in. */
    ghost var model: State

    ghost predicate Valid()
      reads this, store
    {
      store.Valid() && model.pending == pending && model.journal == store.journal && model.durable <= |model.journal|
    }

    constructor (store: HistoryStore)
      requires store.Valid() && store.journal == []
      ensures Valid() && this.store == store && model == EMPTY
    {
      this.store := store;
      pending, model := map[], EMPTY;
    }

    /** Queue a committed record for the next sync. */
    method Enqueue(tenant: Tenant, rec: Rec)
      requires Valid() && Enabled(model, Write(tenant, rec))
      modifies this
      ensures Valid() && model == Do(old(model), Write(tenant, rec))
    {
      pending := pending[tenant := (if tenant in pending then pending[tenant] else []) + [rec]];
      model := Do(model, Write(tenant, rec));
    }

    /** Send one chunk; true if it was acknowledged. What became of it is the network's choice. */
    method SendChunk(ghost key: (nat, Tenant), stamp: nat, tenant: Tenant, chunk: seq<Rec>, outcome: Outcome) returns (ok: bool)
      requires Valid() && Enabled(model, Send(key, outcome)) && key.1 == tenant
      requires model.jobs[key].stamp == stamp && chunk == Chunk(model.jobs[key].todo)
      modifies this`model, store
      ensures Valid() && model == Do(old(model), Send(key, outcome)) && ok == outcome.Acked?
    {
      var batch := FlushBatch(stamp, tenant, chunk);
      if outcome.GivenUp? {
        store.StopFlush(batch, outcome.n);
      } else {
        var stored := store.ApplyFlush(batch);
        assert chunk[..|chunk|] == chunk;
      }
      model := Do(model, Send(key, outcome));
      ok := outcome.Acked?;
    }

    /** Send one tenant's records in chunks; requeue those that failed before anything queued since. */
    method SyncTenant(ghost sync: nat, tenant: Tenant, stamp: nat, records: seq<Rec>, outcomes: seq<Outcome>,
                      ghost s0: State, ghost acts0: seq<Action>)
      returns (ghost acts: seq<Action>)
      requires Valid() && (sync, tenant) in model.jobs && model.jobs[(sync, tenant)] == Job(stamp, records, [])
      requires Exec(s0, acts0) == Some(model)
      modifies this, store
      ensures Valid() && model.jobs == old(model).jobs - {(sync, tenant)} && Exec(s0, acts) == Some(model)
    {
      hide Exec, Do, Chunk, Rest;
      ghost var key := (sync, tenant);
      acts := acts0;
      var todo, failed, i := records, [], 0;
      while todo != []
        invariant Valid() && key in model.jobs && model.jobs == old(model).jobs[key := Job(stamp, todo, failed)]
        invariant pending == old(pending) && Exec(s0, acts) == Some(model)
        decreases |todo|
      {
        ChunkProgress(todo);
        var chunk := Chunk(todo);
        var outcome := if i < |outcomes| then Fit(outcomes[i], |chunk|) else GivenUp(0);
        OneMore(s0, acts, model, Send(key, outcome));
        SendJobs(model, key, outcome);
        var ok := SendChunk(key, stamp, tenant, chunk, outcome);
        acts := acts + [Send(key, outcome)];
        if !ok {
          failed := failed + chunk;
        }
        todo := Rest(todo);
        i := i + 1;
      }
      OneMore(s0, acts, model, Requeue(key));
      RequeueEffect(model, key);
      if failed != [] {
        pending := pending[tenant := failed + (if tenant in pending then pending[tenant] else [])];
      }
      model := Do(model, Requeue(key));
      acts := acts + [Requeue(key)];
    }

    /** Drain the queue and send it, tenant by tenant, in whatever order. */
    method SyncToSlow(stamp: nat, outcomes: map<Tenant, seq<Outcome>>) returns (ghost acts: seq<Action>)
      requires Valid() && model.jobs == map[]
      modifies this, store
      ensures Valid() && model.jobs == map[] && Exec(old(model), acts) == Some(model)
    {
      hide Exec, Do;
      ghost var s0 := model;
      acts := [];
      assert Exec(s0, acts) == Some(model) by { Nothing(s0); }
      var drained := pending;
      if drained == map[] {
        return;
      }
      OneMore(s0, acts, model, Drain(0, stamp));
      DrainEffect(model, 0, stamp);
      pending := map[];
      model := Do(model, Drain(0, stamp));
      acts := acts + [Drain(0, stamp)];
      var tenants := drained.Keys;
      while tenants != {}
        invariant Valid() && tenants <= drained.Keys && Exec(s0, acts) == Some(model)
        invariant forall k :: k in model.jobs <==> k.0 == 0 && k.1 in tenants
        invariant forall k <- model.jobs :: model.jobs[k] == Job(stamp, drained[k.1], [])
        decreases |tenants|
      {
        var t :| t in tenants;
        acts := SyncTenant(0, t, stamp, drained[t], if t in outcomes then outcomes[t] else [], s0, acts);
        tenants := tenants - {t};
      }
      NoJobs(model.jobs);
    }
  }

  function Fit(o: Outcome, n: nat): (r: Outcome)
    ensures r.GivenUp? ==> r.n <= n
  {
    if o.GivenUp? && o.n > n then GivenUp(n) else o
  }

  lemma {:induction false} ChunkProgress(todo: seq<Rec>)
    requires todo != []
    ensures |Rest(todo)| < |todo|
  {
  }

  lemma {:induction false} SendJobs(s: State, key: (nat, Tenant), o: Outcome)
    requires Enabled(s, Send(key, o))
    ensures var job := s.jobs[key];
            var d := Do(s, Send(key, o));
            && d.pending == s.pending
            && d.jobs == s.jobs[key := Job(job.stamp, Rest(job.todo), if o.Acked? then job.failed else job.failed + Chunk(job.todo))]
  {
  }

  lemma {:induction false} RequeueEffect(s: State, key: (nat, Tenant))
    requires Enabled(s, Requeue(key))
    ensures var d := Do(s, Requeue(key));
            var failed := s.jobs[key].failed;
            && d.jobs == s.jobs - {key} && d.journal == s.journal && d.durable == s.durable
            && d.pending == if failed == [] then s.pending else s.pending[key.1 := failed + Queue(s, key.1)]
  {
  }

  lemma {:induction false} DrainEffect(s: State, sync: nat, stamp: nat)
    requires s.jobs == map[]
    ensures Enabled(s, Drain(sync, stamp))
    ensures var d := Do(s, Drain(sync, stamp));
            && d.pending == map[] && d.journal == s.journal && d.durable == s.durable
            && (forall k :: k in d.jobs <==> k.0 == sync && k.1 in s.pending)
            && (forall k <- d.jobs :: k.1 in s.pending && d.jobs[k] == Job(stamp, s.pending[k.1], []))
  {
  }

  lemma {:induction false} NoJobs(jobs: map<(nat, Tenant), Job>)
    requires forall k :: k !in jobs
    ensures jobs == map[]
  {
  }

}
