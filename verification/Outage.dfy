/** Ticks whose request fails: what each one does to the rows it tried to send. */
module Outage {
  import opened Wrappers
  import opened EdgeTypes
  import opened StoreSpec
  import opened CentralSync
  import opened SyncWorld
  import opened StoreLookup
  import opened SyncSafety
  import opened SyncTheorems
  import opened TickSpec

  lemma UpdatedRow(s: Store, target: Id, p: Patch, id: Id)
    requires UniqueIds(s.events) && Lookup(s.events, id).Some?
    requires var r := LookupUnpruned(s.events, Modify(target, p), id).value; !LowSynced(r)
    ensures UniqueIds(Update(s, target, p).events)
    ensures Lookup(Update(s, target, p).events, id) == LookupUnpruned(s.events, Modify(target, p), id)
  {
    UniqueAfter(s.events, Modify(target, p));
    AppliedRow(s.events, Modify(target, p), id);
  }

  /** Patching other rows leaves a row that is not delivered telemetry alone. */
  lemma {:induction false} PatchAllSpares(s: Store, rows: seq<Event>, f: Event -> Patch, id: Id)
    requires UniqueIds(s.events) && Lookup(s.events, id).Some? && !LowSynced(Lookup(s.events, id).value)
    requires forall r | r in rows :: r.core.id != id
    ensures var s' := PatchAll(s, rows, f); UniqueIds(s'.events) && Lookup(s'.events, id) == Lookup(s.events, id)
    decreases |rows|
  {
    if rows != [] {
      UpdatedRow(s, rows[0].core.id, f(rows[0]), id);
      PatchAllSpares(Update(s, rows[0].core.id, f(rows[0])), rows[1..], f, id);
    }
  }

  /** Patching a list of rows applies its own patch to each. */
  lemma {:induction false} PatchAllReaches(s: Store, rows: seq<Event>, f: Event -> Patch, b: Event)
    requires UniqueIds(s.events) && UniqueIds(rows) && b in rows
    requires Lookup(s.events, b.core.id).Some? && !LowSynced(Lookup(s.events, b.core.id).value)
    requires f(b).MarkSyncing? || f(b).Fail?
    ensures var s' := PatchAll(s, rows, f);
      UniqueIds(s'.events) && Lookup(s'.events, b.core.id) == PatchedRow(Lookup(s.events, b.core.id), f(b))
    decreases |rows|
  {
    hide Update, Lookup;
    var id, head, rest := b.core.id, rows[0], rows[1..];
    var s1 := Update(s, head.core.id, f(head));
    var i :| 0 <= i < |rows| && rows[i] == b;
    UpdatedRow(s, head.core.id, f(head), id);
    if i == 0 {
      forall r | r in rest ensures r.core.id != id {
        var j :| 0 <= j < |rest| && rest[j] == r;
        assert rows[j + 1] == r;
      }
      PatchAllSpares(s1, rest, f, id);
    } else {
      assert rest[i - 1] == b;
      PatchAllReaches(s1, rest, f, b);
    }
  }

  /** A tick that got nowhere: files went up, but no reply came (unreachable, refused, over the batch
      limit, or lost). */
  predicate NoReply(c: Config, s: Site, env: TickEnv) {
    env.uploadsOk
    && var batch := Sent(c, s, env); batch != [] && Deliver(s.backend, Cores(batch), env.delivery).1.None?
  }

  /** The rows a tick picks. */
  function Sent(c: Config, s: Site, env: TickEnv): seq<Event> {
    Batch(RecoverAll(s.store).events, env.now, c.batchSize)
  }

  lemma RecoveredRow(s: Store, e: Event)
    requires UniqueIds(s.events) && e in s.events && Waiting(e)
    ensures UniqueIds(RecoverAll(s).events) && Lookup(RecoverAll(s).events, e.core.id) == Some(e)
  {
    LookupFinds(s.events, e);
    var rows := WithStatus(s.events, Syncing);
    forall r | r in rows ensures r.core.id != e.core.id {
      LookupFinds(s.events, r);
    }
    PatchAllSpares(s, rows, (x: Event) => Recover, e.core.id);
  }

  lemma SentRow(c: Config, s: Site, env: TickEnv, e: Event, b: Event)
    requires UniqueIds(s.store.events) && e in s.store.events && Waiting(e)
    requires b in Sent(c, s, env) && b.core.id == e.core.id
    ensures b == e && UniqueIds(Sent(c, s, env))
  {
    var events := RecoverAll(s.store).events;
    RecoveredRow(s.store, e);
    var due := PendingForSync(events, env.now);
    FilterUnique(events, x => Eligible(x, env.now));
    SortUnique(due);
    assert b in SortEvents(due);
    SortMembers(due, b);
    LookupFinds(events, b);
  }

  lemma MarkThenFail(c: Config, ready: Store, batch: seq<Event>, now: int, e: Event)
    requires UniqueIds(ready.events) && UniqueIds(batch) && e in batch
    requires Lookup(ready.events, e.core.id) == Some(e) && Waiting(e)
    ensures var s' := FailAll(c, MarkAll(ready, batch), batch, now);
      UniqueIds(s'.events) && Lookup(s'.events, e.core.id) == Some(ApplyPatch(e, FailPatch(c, e, now)))
  {
    hide Update;
    PatchAllReaches(ready, batch, (x: Event) => MarkSyncing, e);
    PatchAllReaches(MarkAll(ready, batch), batch, (x: Event) => FailPatch(c, x, now), e);
  }

  /** A tick without a reply fails each row it sent exactly once, from the row as it was. */
  lemma UnansweredTick(c: Config, s: Site, env: TickEnv, e: Event)
    requires UniqueIds(s.store.events) && NoReply(c, s, env)
    requires e in s.store.events && Waiting(e) && e in Sent(c, s, env)
    ensures var s' := Tick(c, s, env);
      && UniqueIds(s'.store.events)
      && Lookup(s'.store.events, e.core.id) == Some(ApplyPatch(e, FailPatch(c, e, env.now)))
  {
    SentRow(c, s, env, e, e);
    RecoveredRow(s.store, e);
    MarkThenFail(c, RecoverAll(s.store), Sent(c, s, env), env.now, e);
  }

  /** The backend refuses requests of more than 50 events as a whole, so a gateway configured to send more
      fails every event of every oversized batch, whatever the network does. */
  lemma OversizedBatchFails(c: Config, s: Site, env: TickEnv, e: Event)
    requires UniqueIds(s.store.events) && env.uploadsOk && |Sent(c, s, env)| > MAX_BATCH
    requires e in s.store.events && Waiting(e) && e in Sent(c, s, env)
    ensures var row := Lookup(Tick(c, s, env).store.events, e.core.id);
      row == Some(ApplyPatch(e, FailPatch(c, e, env.now))) && row.value.retryCount == e.retryCount + 1
  {
    hide Tick, Sent;
    UnansweredTick(c, s, env, e);
  }

  /** Each of the ticks sends the row for id and hears nothing. */
  ghost predicate AllUnanswered(c: Config, s: Site, envs: seq<TickEnv>, id: Id)
    decreases |envs|
  {
    envs == [] ||
    (NoReply(c, s, envs[0]) && (exists b :: b in Sent(c, s, envs[0]) && b.core.id == id)
     && AllUnanswered(c, Tick(c, s, envs[0]), envs[1..], id))
  }

  function Times(envs: seq<TickEnv>): (t: seq<int>)
    ensures |t| == |envs|
    ensures forall i | 0 <= i < |envs| :: t[i] == envs[i].now
  {
    seq(|envs|, i requires 0 <= i < |envs| => envs[i].now)
  }

  /** The row after the first of the unanswered ticks. */
  lemma OutageStep(c: Config, s: Site, envs: seq<TickEnv>, e: Event) returns (e1: Event)
    requires UniqueIds(s.store.events) && e in s.store.events && Waiting(e)
    requires envs != [] && AllUnanswered(c, s, envs, e.core.id)
    ensures e1 == ApplyPatch(e, FailPatch(c, e, envs[0].now))
    ensures var s1 := Tick(c, s, envs[0]);
      && UniqueIds(s1.store.events) && e1 in s1.store.events
      && Lookup(s1.store.events, e.core.id) == Some(e1)
      && AllUnanswered(c, s1, envs[1..], e.core.id)
  {
    hide Tick;
    var b :| b in Sent(c, s, envs[0]) && b.core.id == e.core.id;
    SentRow(c, s, envs[0], e, b);
    UnansweredTick(c, s, envs[0], e);
    e1 := ApplyPatch(e, FailPatch(c, e, envs[0].now));
  }

  lemma {:induction false} OutageRows(c: Config, s: Site, envs: seq<TickEnv>, e: Event)
    requires Valid(c) && UniqueIds(s.store.events) && e in s.store.events && Waiting(e) && EventOk(c, e)
    requires e.retryCount + |envs| <= c.maxRetries && AllUnanswered(c, s, envs, e.core.id)
    ensures Lookup(Ticks(c, s, envs).store.events, e.core.id) == Some(Failures(c, e, Times(envs)))
    decreases |envs|
  {
    hide Tick, AllUnanswered, Lookup, UniqueIds;
    if envs == [] {
      LookupFinds(s.store.events, e);
    } else {
      var s1 := Tick(c, s, envs[0]);
      var e1 := OutageStep(c, s, envs, e);
      assert Times(envs)[1..] == Times(envs[1..]);
      if |envs| == 1 {
        assert Failures(c, e1, Times(envs[1..])) == e1;
      } else {
        OutageRows(c, s1, envs[1..], e1);
      }
    }
  }

  /** An event tried in vain by a run of ticks has failed once per tick, and a fresh one is a dead letter
      exactly when the ticks number maxRetries. */
  lemma OutageDeadLetters(c: Config, s: Site, envs: seq<TickEnv>, e: Event)
    requires Valid(c) && UniqueIds(s.store.events) && e in s.store.events && Waiting(e) && EventOk(c, e)
    requires e.retryCount + |envs| <= c.maxRetries && AllUnanswered(c, s, envs, e.core.id)
    ensures var row := Lookup(Ticks(c, s, envs).store.events, e.core.id);
      && row == Some(Failures(c, e, Times(envs)))
      && row.value.retryCount == e.retryCount + |envs|
      && (row.value.status == DeadLetter <==> e.retryCount + |envs| == c.maxRetries)
  {
    OutageRows(c, s, envs, e);
    DeadAfterMaxRetries(c, e, Times(envs));
  }

  // ---- a whole tick costs at most one retry ----

  /** If the event is stored, it has been failed at most n times. */
  ghost predicate Within(s: Store, id: Id, n: nat) {
    UniqueIds(s.events) && (Lookup(s.events, id).Some? ==> Lookup(s.events, id).value.retryCount <= n)
  }

  lemma UpdateWithin(s: Store, target: Id, p: Patch, id: Id, n: nat)
    requires Within(s, id, n) && (p.Fail? && target == id ==> p.retries <= n)
    ensures Within(Update(s, target, p), id, n)
  {
    hide Lookup, Applied;
    UniqueAfter(s.events, Modify(target, p));
    AppliedRow(s.events, Modify(target, p), id);
    UpdateApplies(s, target, p);
  }

  lemma UpdateApplies(s: Store, target: Id, p: Patch)
    ensures Update(s, target, p).events == Applied(s.events, Modify(target, p))
  {
  }

  lemma {:induction false} PatchAllWithin(s: Store, rows: seq<Event>, f: Event -> Patch, id: Id, n: nat)
    requires Within(s, id, n)
    requires forall r | r in rows && r.core.id == id && f(r).Fail? :: f(r).retries <= n
    ensures Within(PatchAll(s, rows, f), id, n)
    decreases |rows|
  {
    hide Update, Within;
    if rows != [] {
      UpdateWithin(s, rows[0].core.id, f(rows[0]), id, n);
      PatchAllWithin(Update(s, rows[0].core.id, f(rows[0])), rows[1..], f, id, n);
    }
  }

  lemma {:induction false} AckAllWithin(c: Config, s: Store, batch: seq<Event>, acks: map<Id, AckStatus>, now: int, id: Id, n: nat)
    requires Within(s, id, n) && forall b | b in batch && b.core.id == id :: b.retryCount + 1 <= n
    ensures Within(AckAll(c, s, batch, acks, now), id, n)
    decreases |batch|
  {
    if batch != [] {
      AckOneWithin(c, s, batch[0], acks, now, id, n);
      hide Update, Within, AckOne, AckPatch;
      AckAllWithin(c, AckOne(c, s, batch[0], acks, now), batch[1..], acks, now, id, n);
    }
  }

  lemma AckOneWithin(c: Config, s: Store, e: Event, acks: map<Id, AckStatus>, now: int, id: Id, n: nat)
    requires Within(s, id, n) && (e.core.id == id ==> e.retryCount + 1 <= n)
    ensures Within(AckOne(c, s, e, acks, now), id, n)
  {
    hide Update;
    UpdateWithin(s, e.core.id, AckPatch(c, e, acks, now), id, n);
    WriteWithin(Update(s, e.core.id, AckPatch(c, e, acks, now)), e.core.id, id, n);
  }

  lemma WriteWithin(s: Store, conflict: Id, id: Id, n: nat)
    requires Within(s, id, n)
    ensures Within(AddConflict(s, conflict), id, n)
  {
    UniqueAfter(s.events, Rewrite);
    AppliedRow(s.events, Rewrite, id);
    assert AddConflict(s, conflict).events == Applied(s.events, Rewrite);
    hide Lookup, Applied;
  }

  lemma BatchWithin(events: seq<Event>, now: int, size: nat, id: Id, n: nat)
    requires UniqueIds(events) && (Lookup(events, id).Some? ==> Lookup(events, id).value.retryCount <= n)
    ensures forall b | b in Batch(events, now, size) && b.core.id == id :: b.retryCount <= n
  {
    var due := PendingForSync(events, now);
    forall b | b in Batch(events, now, size) && b.core.id == id ensures b.retryCount <= n {
      assert b in SortEvents(due);
      SortMembers(due, b);
      LookupFinds(events, b);
    }
  }

  /** A whole tick, its acknowledgements undone by an exception or not, raises the retry count of an event
      by at most one. */
  lemma TickCostsOneRetry(c: Config, s: Site, env: TickEnv, id: Id, n: nat)
    requires Within(s.store, id, n)
    ensures Within(Tick(c, s, env).store, id, n + 1)
  {
    PatchAllWithin(s.store, WithStatus(s.store.events, Syncing), (x: Event) => Recover, id, n);
    var recovered := RecoverAll(s.store);
    var batch := Batch(recovered.events, env.now, c.batchSize);
    BatchWithin(recovered.events, env.now, c.batchSize, id, n);
    DispatchWithin(c, s.(store := recovered), env, batch, id, n);
    hide Dispatch, RecoverAll, Batch;
  }

  lemma DispatchWithin(c: Config, s: Site, env: TickEnv, batch: seq<Event>, id: Id, n: nat)
    requires Within(s.store, id, n) && batch == Batch(s.store.events, env.now, c.batchSize)
    requires forall b | b in batch && b.core.id == id :: b.retryCount <= n
    ensures Within(Dispatch(c, s, env).store, id, n + 1)
  {
    hide Batch, PatchAll, AckAll, Deliver;
    PatchAllWithin(s.store, batch, (x: Event) => MarkSyncing, id, n);
    var marked := MarkAll(s.store, batch);
    FailAllWithin(c, marked, batch, env.now, id, n + 1);
    var (_, reply) := Deliver(s.backend, Cores(batch), env.delivery);
    if reply.Some? {
      AckAllWithin(c, marked, Acknowledged(env, batch), reply.value, env.now, id, n + 1);
      FailAllWithin(c, AckAll(c, marked, Acknowledged(env, batch), reply.value, env.now), batch, env.now, id, n + 1);
    }
  }

  lemma FailAllWithin(c: Config, s: Store, batch: seq<Event>, now: int, id: Id, n: nat)
    requires Within(s, id, n) && forall b | b in batch && b.core.id == id :: b.retryCount + 1 <= n
    ensures Within(FailAll(c, s, batch, now), id, n)
  {
    PatchAllWithin(s, batch, (x: Event) => FailPatch(c, x, now), id, n);
  }
}
