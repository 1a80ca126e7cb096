/** What one whole tick leaves of every row, of the conflict records and of the backend. */
module TickOutcomes {
  import opened Wrappers
  import opened EdgeTypes
  import opened Priority
  import opened StoreSpec
  import opened CentralSync
  import opened SyncWorld
  import opened StoreLookup
  import opened SyncSafety
  import opened TickSpec
  import opened Outage
  import Backoff

  /** The row after one more failed attempt. */
  function FailedOnce(c: Config, e: Event, now: int): Event {
    var attempts, first := e.retryCount + 1, Some(e.firstFailureAt.GetOr(now));
    if attempts < c.maxRetries then
      e.(status := Failed, retryCount := attempts, firstFailureAt := first,
         nextRetryAt := Some(now + Min(c.maxMs, c.baseMs * Backoff.Pow2(attempts))))
    else e.(status := DeadLetter, retryCount := attempts, firstFailureAt := first, nextRetryAt := None)
  }

  /** The row after an answer, or after none came for it. */
  function Answered(c: Config, e: Event, answer: Option<AckStatus>, now: int): Event {
    match answer
    case None => FailedOnce(c, e, now)
    case Some(Rejected) => FailedOnce(c, e, now)
    case Some(Conflict) => e.(status := Failed)
    case Some(DependencyPending) => e.(status := Pending, nextRetryAt := Some(now + 2000))
    case Some(_) => e.(status := Synced, syncedAt := Some(now))
  }

  function AnswerFor(acks: map<Id, AckStatus>, id: Id): Option<AckStatus> {
    if id in acks then Some(acks[id]) else None
  }

  lemma FailPatchMeans(c: Config, e: Event, row: Event, now: int)
    requires row.core == e.core
    ensures ApplyPatch(row, FailPatch(c, e, now)).(syncedAt := e.syncedAt) == FailedOnce(c, e, now)
    ensures row.syncedAt == e.syncedAt ==> ApplyPatch(row, FailPatch(c, e, now)) == FailedOnce(c, e, now)
  {
  }

  lemma AckPatchMeans(c: Config, e: Event, acks: map<Id, AckStatus>, now: int)
    ensures ApplyPatch(ApplyPatch(e, MarkSyncing), AckPatch(c, e, acks, now)) == Answered(c, e, AnswerFor(acks, e.core.id), now)
  {
    FailPatchMeans(c, e, ApplyPatch(e, MarkSyncing), now);
    if e.core.id in acks {
      match acks[e.core.id]
      case Accepted =>
      case AlreadyProcessed =>
      case DependencyPending =>
      case Conflict =>
      case Rejected =>
    }
  }

  /** The row for id is r, unless r is delivered telemetry and was pruned. */
  ghost predicate Stands(s: Store, id: Id, r: Event) {
    UniqueIds(s.events) && r.core.id == id && (Lookup(s.events, id) == Some(r) || (LowSynced(r) && Lookup(s.events, id) == None))
  }

  lemma UpdateStands(s: Store, target: Id, p: Patch, id: Id, r: Event)
    requires Stands(s, id, r)
    ensures target != id ==> Stands(Update(s, target, p), id, r)
    ensures target == id && Lookup(s.events, id) == Some(r) ==> Stands(Update(s, target, p), id, ApplyPatch(r, p))
  {
    UniqueAfter(s.events, Modify(target, p));
    AppliedRow(s.events, Modify(target, p), id);
    UpdateApplies(s, target, p);
  }

  lemma ConflictStands(s: Store, target: Id, id: Id, r: Event)
    requires Stands(s, id, r)
    ensures Stands(AddConflict(s, target), id, r)
  {
    UniqueAfter(s.events, Rewrite);
    AppliedRow(s.events, Rewrite, id);
    assert AddConflict(s, target).events == Applied(s.events, Rewrite);
  }

  lemma AckOneStands(c: Config, s: Store, b: Event, acks: map<Id, AckStatus>, now: int, id: Id, r: Event)
    requires Stands(s, id, r)
    ensures b.core.id != id ==> Stands(AckOne(c, s, b, acks, now), id, r)
    ensures b.core.id == id && Lookup(s.events, id) == Some(r) ==>
      Stands(AckOne(c, s, b, acks, now), id, ApplyPatch(r, AckPatch(c, b, acks, now)))
  {
    hide Update, Stands, AckPatch, Lookup, AddConflict;
    var s', p := Update(s, b.core.id, AckPatch(c, b, acks, now)), AckPatch(c, b, acks, now);
    UpdateStands(s, b.core.id, p, id, r);
    if b.core.id != id {
      ConflictStands(s', b.core.id, id, r);
    } else if Lookup(s.events, id) == Some(r) {
      ConflictStands(s', b.core.id, id, ApplyPatch(r, p));
    }
  }

  lemma {:induction false} AckAllSpares(c: Config, s: Store, batch: seq<Event>, acks: map<Id, AckStatus>, now: int, id: Id, r: Event)
    requires Stands(s, id, r) && forall b | b in batch :: b.core.id != id
    ensures Stands(AckAll(c, s, batch, acks, now), id, r)
    decreases |batch|
  {
    hide AckOne, Stands;
    if batch != [] {
      AckOneStands(c, s, batch[0], acks, now, id, r);
      AckAllSpares(c, AckOne(c, s, batch[0], acks, now), batch[1..], acks, now, id, r);
    }
  }

  lemma {:induction false} AckAllReaches(c: Config, s: Store, batch: seq<Event>, acks: map<Id, AckStatus>, now: int, e: Event, r: Event)
    requires Stands(s, e.core.id, r) && Lookup(s.events, e.core.id) == Some(r) && !LowSynced(r) && UniqueIds(batch) && e in batch
    ensures Stands(AckAll(c, s, batch, acks, now), e.core.id, ApplyPatch(r, AckPatch(c, e, acks, now)))
    decreases |batch|
  {
    hide AckOne, AckPatch;
    var i :| 0 <= i < |batch| && batch[i] == e;
    var b, rest := batch[0], batch[1..];
    var s1 := AckOne(c, s, b, acks, now);
    AckOneStands(c, s, b, acks, now, e.core.id, r);
    if i == 0 {
      forall x | x in rest ensures x.core.id != e.core.id {
        var j :| 0 <= j < |rest| && rest[j] == x;
        assert batch[j + 1] == x;
      }
      AckAllSpares(c, s1, rest, acks, now, e.core.id, ApplyPatch(r, AckPatch(c, e, acks, now)));
    } else {
      assert rest[i - 1] == e;
      AckAllReaches(c, s1, rest, acks, now, e, r);
    }
  }

  lemma MarkedRow(c: Config, s: Site, env: TickEnv, e: Event)
    requires UniqueIds(s.store.events) && e in s.store.events && Waiting(e) && e in Sent(c, s, env)
    ensures var marked := MarkAll(RecoverAll(s.store), Sent(c, s, env));
      && UniqueIds(Sent(c, s, env)) && UniqueIds(marked.events)
      && Lookup(marked.events, e.core.id) == Some(ApplyPatch(e, MarkSyncing))
  {
    hide RecoverAll, Batch;
    SentRow(c, s, env, e, e);
    RecoveredRow(s.store, e);
    PatchAllReaches(RecoverAll(s.store), Sent(c, s, env), (x: Event) => MarkSyncing, e);
  }

  /** The reply the tick gets. */
  function Reply(c: Config, s: Site, env: TickEnv): Option<map<Id, AckStatus>> {
    Deliver(s.backend, Cores(Sent(c, s, env)), env.delivery).1
  }

  /** A tick whose reply arrives and is worked through leaves each row it sent as its answer says: delivered
      now; waiting two seconds; failed with its retries and its due time untouched; or failed once more, with
      its delay or dead. Nothing else about the row changes. Delivered telemetry may have been pruned. */
  lemma AnsweredTick(c: Config, s: Site, env: TickEnv, e: Event)
    requires UniqueIds(s.store.events) && e in s.store.events && Waiting(e) && e in Sent(c, s, env)
    requires env.uploadsOk && env.raiseAfter.None? && Reply(c, s, env).Some?
    ensures Stands(Tick(c, s, env).store, e.core.id, Answered(c, e, AnswerFor(Reply(c, s, env).value, e.core.id), env.now))
  {
    hide AckAll, RecoverAll, MarkAll, Batch, Deliver, AckPatch, Answered, Lookup;
    var batch := Sent(c, s, env);
    MarkedRow(c, s, env, e);
    AckAllReaches(c, MarkAll(RecoverAll(s.store), batch), batch, Reply(c, s, env).value, env.now, e, ApplyPatch(e, MarkSyncing));
    AckPatchMeans(c, e, Reply(c, s, env).value, env.now);
  }

  lemma FailAllOnRow(c: Config, s: Store, batch: seq<Event>, now: int, e: Event)
    requires UniqueIds(s.events) && UniqueIds(batch) && e in batch
    requires Lookup(s.events, e.core.id).Some? ==> Lookup(s.events, e.core.id).value.core == e.core
    requires Lookup(s.events, e.core.id).Some? ==> !LowSynced(Lookup(s.events, e.core.id).value)
    ensures Lookup(s.events, e.core.id).Some? ==>
      var r := Lookup(FailAll(c, s, batch, now).events, e.core.id);
      r.Some? && r.value.(syncedAt := e.syncedAt) == FailedOnce(c, e, now)
  {
    hide PatchAll, FailPatch, FailedOnce, Lookup;
    if Lookup(s.events, e.core.id).Some? {
      FailIsFail(c, e, now);
      PatchAllReaches(s, batch, (x: Event) => FailPatch(c, x, now), e);
      FailPatchMeans(c, e, Lookup(s.events, e.core.id).value, now);
    }
  }

  lemma FailIsFail(c: Config, e: Event, now: int)
    ensures FailPatch(c, e, now).Fail?
  {
  }

  /** A tick interrupted by an exception after any number of acknowledgements, all of them included, leaves
      every business event it sent failed once, from the row as it was read, whatever it was answered. */
  lemma InterruptedTick(c: Config, s: Site, env: TickEnv, e: Event)
    requires UniqueIds(s.store.events) && e in s.store.events && Waiting(e) && e in Sent(c, s, env) && e.core.key.priority != Low
    requires env.uploadsOk && env.raiseAfter.Some? && Reply(c, s, env).Some?
    ensures var r := Lookup(Tick(c, s, env).store.events, e.core.id);
      r.Some? && r.value.(syncedAt := e.syncedAt) == FailedOnce(c, e, env.now)
  {
    hide AckAll, RecoverAll, MarkAll, FailAll, Batch, Deliver, AckPatch, Lookup, FailedOnce;
    var batch, acks := Sent(c, s, env), Reply(c, s, env).value;
    var marked, part := MarkAll(RecoverAll(s.store), batch), Acknowledged(env, batch);
    MarkedRow(c, s, env, e);
    var applied := AckAll(c, marked, part, acks, env.now);
    AppliedRowStands(c, marked, batch, part, acks, env.now, e);
    FailAllOnRow(c, applied, batch, env.now, e);
  }

  lemma AppliedRowStands(c: Config, s: Store, batch: seq<Event>, part: seq<Event>, acks: map<Id, AckStatus>, now: int, e: Event)
    requires UniqueIds(s.events) && UniqueIds(batch) && part <= batch && e.core.key.priority != Low
    requires Lookup(s.events, e.core.id) == Some(ApplyPatch(e, MarkSyncing)) && e in batch
    ensures var applied := AckAll(c, s, part, acks, now);
      && UniqueIds(applied.events) && Lookup(applied.events, e.core.id).Some?
      && Lookup(applied.events, e.core.id).value.core == e.core
  {
    hide AckAll, AckPatch;
    var r := ApplyPatch(e, MarkSyncing);
    assert UniqueIds(part) by { assert forall i | 0 <= i < |part| :: part[i] == batch[i]; }
    if e in part {
      AckAllReaches(c, s, part, acks, now, e, r);
    } else {
      forall x | x in part ensures x.core.id != e.core.id {
        var i :| 0 <= i < |part| && part[i] == x;
        var j :| 0 <= j < |batch| && batch[j] == e;
        assert batch[i] == x;
      }
      AckAllSpares(c, s, part, acks, now, e.core.id, r);
    }
  }

  // ---- rows a tick does not send ----

  lemma {:induction false} PatchAllStands(s: Store, rows: seq<Event>, f: Event -> Patch, id: Id, r: Event)
    requires Stands(s, id, r) && forall x | x in rows :: x.core.id != id
    ensures Stands(PatchAll(s, rows, f), id, r)
    decreases |rows|
  {
    hide Update, Stands;
    if rows != [] {
      UpdateStands(s, rows[0].core.id, f(rows[0]), id, r);
      PatchAllStands(Update(s, rows[0].core.id, f(rows[0])), rows[1..], f, id, r);
    }
  }

  /** An interrupted send becomes a waiting event; every other row is as it was. */
  function Recovered(e: Event): Event {
    if e.status == Syncing then e.(status := Pending) else e
  }

  lemma {:induction false} RecoverReaches(s: Store, rows: seq<Event>, e: Event)
    requires Stands(s, e.core.id, e) && Lookup(s.events, e.core.id) == Some(e) && e.status == Syncing && UniqueIds(rows) && e in rows
    ensures Stands(PatchAll(s, rows, (x: Event) => Recover), e.core.id, e.(status := Pending))
    decreases |rows|
  {
    var i :| 0 <= i < |rows| && rows[i] == e;
    var rest, s1 := rows[1..], Update(s, rows[0].core.id, Recover);
    UpdateStands(s, rows[0].core.id, Recover, e.core.id, e);
    if i == 0 {
      forall x | x in rest ensures x.core.id != e.core.id {
        var j :| 0 <= j < |rest| && rest[j] == x;
        assert rows[j + 1] == x;
      }
      PatchAllStands(s1, rest, (x: Event) => Recover, e.core.id, e.(status := Pending));
    } else {
      assert rest[i - 1] == e;
      RecoverReaches(s1, rest, e);
    }
  }

  /** Recovery turns every SYNCING row back to PENDING, its retries and its due time as they were, and no
      other row changes. */
  lemma RecoveryStands(s: Store, e: Event)
    requires UniqueIds(s.events) && e in s.events
    ensures Stands(RecoverAll(s), e.core.id, Recovered(e))
  {
    LookupFinds(s.events, e);
    var rows := WithStatus(s.events, Syncing);
    if e.status == Syncing {
      FilterUnique(s.events, (x: Event) => x.status == Syncing);
      RecoverReaches(s, rows, e);
    } else {
      forall x | x in rows ensures x.core.id != e.core.id {
        LookupFinds(s.events, x);
      }
      PatchAllStands(s, rows, (x: Event) => Recover, e.core.id, e);
    }
  }

  /** Nothing but the recovery of interrupted sends happens to a row the tick does not send; and when files
      cannot be uploaded, nothing is sent at all. */
  lemma TickSparesOthers(c: Config, s: Site, env: TickEnv, e: Event)
    requires UniqueIds(s.store.events) && e in s.store.events
    requires env.uploadsOk ==> forall b | b in Sent(c, s, env) :: b.core.id != e.core.id
    ensures Stands(Tick(c, s, env).store, e.core.id, Recovered(e))
    ensures Tick(c, s, env).backend ==
      if env.uploadsOk && Sent(c, s, env) != [] then Deliver(s.backend, Cores(Sent(c, s, env)), env.delivery).0 else s.backend
  {
    hide AckAll, PatchAll, RecoverAll, Batch, Deliver, Stands, Recovered, Cores;
    RecoveryStands(s.store, e);
    if env.uploadsOk {
      var batch, r := Sent(c, s, env), Recovered(e);
      var marked := MarkAll(RecoverAll(s.store), batch);
      PatchAllStands(RecoverAll(s.store), batch, (x: Event) => MarkSyncing, e.core.id, r);
      PatchAllStands(marked, batch, (x: Event) => FailPatch(c, x, env.now), e.core.id, r);
      if Reply(c, s, env).Some? {
        var part, acks := Acknowledged(env, batch), Reply(c, s, env).value;
        AckAllSpares(c, marked, part, acks, env.now, e.core.id, r);
        PatchAllStands(AckAll(c, marked, part, acks, env.now), batch, (x: Event) => FailPatch(c, x, env.now), e.core.id, r);
      }
    }
  }

  // ---- conflict records ----

  lemma {:induction false} PatchAllKeepsConflicts(s: Store, rows: seq<Event>, f: Event -> Patch)
    ensures PatchAll(s, rows, f).conflicts == s.conflicts
    decreases |rows|
  {
    if rows != [] {
      PatchAllKeepsConflicts(Update(s, rows[0].core.id, f(rows[0])), rows[1..], f);
    }
  }

  /** The event was answered with a conflict. */
  ghost predicate ToldConflict(batch: seq<Event>, acks: map<Id, AckStatus>, id: Id) {
    id in acks && acks[id] == Conflict && exists b :: b in batch && b.core.id == id
  }

  lemma {:induction false} AckAllNotes(c: Config, s: Store, batch: seq<Event>, acks: map<Id, AckStatus>, now: int, id: Id)
    ensures id in AckAll(c, s, batch, acks, now).conflicts <==> id in s.conflicts || ToldConflict(batch, acks, id)
    decreases |batch|
  {
    hide Prune, PatchRow, AckPatch;
    if batch != [] {
      AckAllNotes(c, AckOne(c, s, batch[0], acks, now), batch[1..], acks, now, id);
      assert batch == [batch[0]] + batch[1..];
    }
  }

  /** The rows whose answers are worked through: all, or those before the exception. */
  function WorkedThrough(env: TickEnv, batch: seq<Event>): seq<Event> {
    match env.raiseAfter
    case None => batch
    case Some(k) => batch[..Min(k, |batch|)]
  }

  /** A tick notes a conflict for exactly the events whose answer it worked through and that were answered so. */
  lemma TickNotesConflicts(c: Config, s: Site, env: TickEnv, id: Id)
    ensures id in Tick(c, s, env).store.conflicts <==>
      || id in s.store.conflicts
      || (env.uploadsOk && Reply(c, s, env).Some? && ToldConflict(WorkedThrough(env, Sent(c, s, env)), Reply(c, s, env).value, id))
  {
    var recovered, batch := RecoverAll(s.store), Sent(c, s, env);
    PatchAllKeepsConflicts(s.store, WithStatus(s.store.events, Syncing), (x: Event) => Recover);
    PatchAllKeepsConflicts(recovered, batch, (x: Event) => MarkSyncing);
    PatchAllKeepsConflicts(MarkAll(recovered, batch), batch, (x: Event) => FailPatch(c, x, env.now));
    hide AckAll, PatchAll, Batch, Deliver, ToldConflict;
    if Reply(c, s, env).Some? {
      var acks, part := Reply(c, s, env).value, Acknowledged(env, batch);
      assert part == WorkedThrough(env, batch);
      var applied := AckAll(c, MarkAll(recovered, batch), part, acks, env.now);
      AckAllNotes(c, MarkAll(recovered, batch), part, acks, env.now, id);
      PatchAllKeepsConflicts(applied, batch, (x: Event) => FailPatch(c, x, env.now));
      NothingTold(acks, id);
    }
  }

  lemma NothingTold(acks: map<Id, AckStatus>, id: Id)
    ensures !ToldConflict([], acks, id)
  {
  }
}
