/** The sync loop object (apps/edge/src/sync/syncLoop.ts), proved against TickSpec.Tick. */
module SyncLoops {
  import opened Wrappers
  import opened EdgeTypes
  import opened StoreSpec
  import opened CentralSync
  import opened SyncWorld
  import opened LocalStores
  import TickSpec

  class SyncLoop {
    const config: Config
    const store: LocalStore
    var backend: Backend    // the far side of the client: what its replies depend on
    var paused: bool
    var syncing: bool

    ghost predicate Ready()
      reads this, store
    {
      store.Valid()
    }

    ghost function Site(): TickSpec.Site
      reads this, store
    {
      TickSpec.Site(store.Contents(), backend)
    }

    constructor (config: Config, store: LocalStore, backend: Backend)
      requires store.Valid()
      ensures this.config == config && this.store == store && this.backend == backend
      ensures !paused && !syncing && Ready()
    {
      this.config, this.store, this.backend := config, store, backend;
      paused, syncing := false, false;
    }

    method SetPaused(p: bool)
      modifies this`paused
      ensures paused == p
    {
      paused := p;
    }

    /** Does nothing when paused or already running; otherwise the whole tick, exceptions included, and
        the loop is free again afterwards. */
    method Tick(env: TickSpec.TickEnv)
      requires Ready()
      modifies this`syncing, this`backend, store
      ensures Ready()
      ensures old(paused || syncing) ==> Site() == old(Site()) && syncing == old(syncing)
      ensures !old(paused || syncing) ==> Site() == TickSpec.Tick(config, old(Site()), env) && !syncing
    {
      if paused || syncing {
        return;
      }
      syncing := true;
      RecoverOrphanedSyncing();
      if env.uploadsOk {
        Dispatch(env);
      }
      syncing := false;
    }

    method RecoverOrphanedSyncing()
      requires Ready()
      modifies store
      ensures Ready() && store.Contents() == TickSpec.RecoverAll(old(store.Contents()))
    {
      var orphaned := store.ListByStatus(Syncing);
      ghost var goal := TickSpec.RecoverAll(store.Contents());
      for i := 0 to |orphaned|
        invariant Ready()
        invariant TickSpec.PatchAll(store.Contents(), orphaned[i..], (e: Event) => Recover) == goal
      {
        assert orphaned[i..][1..] == orphaned[i + 1..];
        var _ := store.Update(orphaned[i].core.id, Recover);
      }
    }

    method Dispatch(env: TickSpec.TickEnv)
      requires Ready()
      modifies this`backend, store
      ensures Ready() && Site() == TickSpec.Dispatch(config, old(Site()), env)
    {
      var due := store.ListPendingForSync(env.now);
      var batch := Take(SortEvents(due), config.batchSize);
      if batch == [] {
        return;
      }
      MarkSyncing(batch);
      var reply;
      backend, reply := SyncBatch(batch, env);
      if reply.Some? {
        ApplyAcks(TickSpec.Acknowledged(env, batch), reply.value, env.now);
      }
      if reply.None? || env.raiseAfter.Some? {
        FailBatch(batch, env.now);
      }
    }

    /** The request: what the backend does with it, and the reply if one arrives. */
    method SyncBatch(batch: seq<Event>, env: TickSpec.TickEnv) returns (after: Backend, reply: Option<map<Id, AckStatus>>)
      ensures (after, reply) == Deliver(backend, Cores(batch), env.delivery)
    {
      var r := Deliver(backend, Cores(batch), env.delivery);
      after, reply := r.0, r.1;
    }

    method MarkSyncing(batch: seq<Event>)
      requires Ready()
      modifies store
      ensures Ready() && store.Contents() == TickSpec.MarkAll(old(store.Contents()), batch)
    {
      ghost var goal := TickSpec.MarkAll(store.Contents(), batch);
      for i := 0 to |batch|
        invariant Ready()
        invariant TickSpec.MarkAll(store.Contents(), batch[i..]) == goal
      {
        assert batch[i..][1..] == batch[i + 1..];
        var _ := store.Update(batch[i].core.id, Patch.MarkSyncing);
      }
    }

    method FailBatch(batch: seq<Event>, now: int)
      requires Ready()
      modifies store
      ensures Ready() && store.Contents() == TickSpec.FailAll(config, old(store.Contents()), batch, now)
    {
      ghost var goal := TickSpec.FailAll(config, store.Contents(), batch, now);
      for i := 0 to |batch|
        invariant Ready()
        invariant TickSpec.FailAll(config, store.Contents(), batch[i..], now) == goal
      {
        assert batch[i..][1..] == batch[i + 1..];
        var _ := store.Update(batch[i].core.id, FailPatch(config, batch[i], now));
      }
    }

    method ApplyAcks(batch: seq<Event>, acks: map<Id, AckStatus>, now: int)
      requires Ready()
      modifies store
      ensures Ready() && store.Contents() == TickSpec.AckAll(config, old(store.Contents()), batch, acks, now)
    {
      ghost var goal := TickSpec.AckAll(config, store.Contents(), batch, acks, now);
      for i := 0 to |batch|
        invariant Ready()
        invariant TickSpec.AckAll(config, store.Contents(), batch[i..], acks, now) == goal
      {
        assert batch[i..][1..] == batch[i + 1..];
        var id := batch[i].core.id;
        var _ := store.Update(id, AckPatch(config, batch[i], acks, now));
        if id in acks && acks[id] == Conflict {
          store.AddConflict(id);
        }
      }
    }
  }
}
