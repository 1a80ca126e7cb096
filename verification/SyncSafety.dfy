/**
 What every reachable state of the protocol satisfies: no event is lost or duplicated at the edge, a
 delivered event is on record at the backend, records are unique and in dependency order, and retry
 counters stay within their limit and mark exactly the dead letters.
 */
module SyncSafety {
  import opened Wrappers
  import opened Sequences
  import opened Priority
  import opened EdgeTypes
  import opened StoreSpec
  import opened CentralSync
  import opened SyncWorld
  import opened StoreLookup

  predicate EventOk(c: Config, e: Event) {
    && e.retryCount <= c.maxRetries
    && (e.status == DeadLetter <==> e.retryCount == c.maxRetries)
  }

  ghost predicate RowsOk(c: Config, events: seq<Event>) {
    && UniqueIds(events)
    && forall id | Lookup(events, id).Some? :: EventOk(c, Lookup(events, id).value)
  }

  /** Delivered rows, kept or pruned, are on record. */
  ghost predicate DeliveredOk(w: World) {
    && (forall id | Lookup(w.store.events, id).Some? && Lookup(w.store.events, id).value.status == Synced ::
          id in Ids(w.backend.recorded))
    && (forall d | d in w.dropped :: LowSynced(d) && d.core.id in Ids(w.backend.recorded))
  }

  /** Stored plus pruned is everything ever enqueued, with multiplicity and content. */
  ghost predicate Conserved(w: World) {
    multiset(Cores(w.store.events)) + multiset(Cores(w.dropped)) == multiset(w.log)
  }

  /** The backend records nothing that was not enqueued. */
  ghost predicate NoInvention(w: World) {
    forall r | r in w.backend.recorded :: r in w.log
  }

  predicate Waiting(e: Event) {
    e.status == Pending || e.status == Failed
  }

  /** Batch row j, as read, was below the retry limit and was enqueued; no two rows share an id. */
  ghost predicate BatchOk(c: Config, w: World, batch: seq<Event>) {
    && UniqueIds(batch)
    && (forall j | 0 <= j < |batch| :: batch[j].retryCount < c.maxRetries && batch[j].core in w.log)
  }

  ghost predicate RowIs(w: World, b: Event, syncing: bool) {
    var r := Lookup(w.store.events, b.core.id);
    r.Some? && r.value.retryCount == b.retryCount && (if syncing then r.value.status == Syncing else Waiting(r.value))
  }

  /** Retries of a batch row rise by at most one over the tick, however often it is failed. */
  ghost predicate AtMostOneRetry(w: World, batch: seq<Event>) {
    forall j | 0 <= j < |batch| :: Lookup(w.store.events, batch[j].core.id).Some? ==>
      Lookup(w.store.events, batch[j].core.id).value.retryCount <= batch[j].retryCount + 1
  }

  ghost predicate PhaseOk(c: Config, w: World) {
    match w.phase
    case Idle => true
    case Recovering => true
    case Marking(batch, next) =>
      && next <= |batch| && BatchOk(c, w, batch) && AtMostOneRetry(w, batch)
      && (forall j | 0 <= j < next :: RowIs(w, batch[j], true))
      && (forall j | next <= j < |batch| :: RowIs(w, batch[j], false))
    case Acking(batch, acks, next) =>
      && next <= |batch| && BatchOk(c, w, batch) && AtMostOneRetry(w, batch)
      && (forall j | next <= j < |batch| :: RowIs(w, batch[j], true))
      && (forall id | id in acks && Success(acks[id]) :: id in Ids(w.backend.recorded))
    case Failing(batch, next) =>
      next <= |batch| && BatchOk(c, w, batch) && AtMostOneRetry(w, batch)
  }

  ghost predicate Inv(c: Config, w: World) {
    && Valid(c) && w.backend.hasDevice && RecordedOk(w.backend.recorded)
    && RowsOk(c, w.store.events) && DeliveredOk(w) && Conserved(w) && NoInvention(w) && PhaseOk(c, w)
  }

  lemma StartOk(c: Config)
    requires Valid(c)
    ensures Inv(c, Start(true))
  {
    assert Cores([]) == [];
  }

  // ---- every change to a row is legal ----

  ghost predicate Allowed(c: Config, w: World, e: Event, p: Patch) {
    match p
    case Recover => e.status == Syncing
    case MarkSyncing => Waiting(e)
    case MarkSynced(_) => e.status == Syncing && e.core.id in Ids(w.backend.recorded)
    case Defer(_) => e.status == Syncing
    case Block => e.status == Syncing
    case Fail(r, dead, _, _) => r <= c.maxRetries && (dead <==> r == c.maxRetries)
  }

  ghost predicate Legal(c: Config, w: World, op: EventOp) {
    match op
    case Append(core) => Lookup(w.store.events, core.id) == None
    case Modify(id, p) => Lookup(w.store.events, id).Some? ==> Allowed(c, w, Lookup(w.store.events, id).value, p)
    case _ => true
  }

  lemma BatchRow(c: Config, w: World, batch: seq<Event>, j: nat)
    requires BatchOk(c, w, batch) && j < |batch|
    ensures batch[j].retryCount < c.maxRetries && batch[j].core in w.log
  {
  }

  lemma AckIsLegal(c: Config, w: World, now: int)
    requires Valid(c) && PhaseOk(c, w) && w.phase.Acking? && w.phase.next < |w.phase.batch|
    ensures var b := w.phase.batch[w.phase.next]; Legal(c, w, Modify(b.core.id, AckPatch(c, b, w.phase.acks, now)))
  {
    hide Ids, UniqueIds, AtMostOneRetry;
    assert RowIs(w, w.phase.batch[w.phase.next], true);
  }

  lemma QueueIsLegal(c: Config, w: World, core: Core)
    ensures Legal(c, w, QueueOp(w.store, core))
  {
  }

  lemma RecoverIsLegal(c: Config, w: World, id: Id)
    requires Enabled(c, w, RecoverRow(id))
    ensures Legal(c, w, Modify(id, Recover))
  {
  }

  lemma MarkIsLegal(c: Config, w: World)
    requires PhaseOk(c, w) && w.phase.Marking? && w.phase.next < |w.phase.batch|
    ensures Legal(c, w, Modify(w.phase.batch[w.phase.next].core.id, MarkSyncing))
  {
    hide UniqueIds, AtMostOneRetry;
    assert RowIs(w, w.phase.batch[w.phase.next], false);
  }

  lemma FailIsLegal(c: Config, w: World, now: int)
    requires Valid(c) && PhaseOk(c, w) && w.phase.Failing? && w.phase.next < |w.phase.batch|
    ensures var b := w.phase.batch[w.phase.next]; Legal(c, w, Modify(b.core.id, FailPatch(c, b, now)))
  {
    hide UniqueIds, AtMostOneRetry;
    BatchRow(c, w, w.phase.batch, w.phase.next);
  }

  lemma OpIsLegal(c: Config, w: World, step: Step)
    requires Inv(c, w) && Enabled(c, w, step)
    ensures Legal(c, w, OpOf(c, w, step))
  {
    hide Conserved, NoInvention, DeliveredOk, RecordedOk, RowsOk, PhaseOk, VisitAt, NewEvent, QueueOp, AckPatch, FailPatch,
      WithStatus, Allowed, Lookup, Valid;
    match step
    case Produce(core) => QueueIsLegal(c, w, core);
    case OpenVisit(_, _, core) => QueueIsLegal(c, w, core);
    case CaptureGross(_, _, core) => QueueIsLegal(c, w, core);
    case CaptureTare(_, _, core) => QueueIsLegal(c, w, core);
    case CompleteVisit(_, core) => QueueIsLegal(c, w, core);
    case AttachEvent(_, core) => QueueIsLegal(c, w, core);
    case RecoverRow(id) => RecoverIsLegal(c, w, id);
    case MarkRow => MarkIsLegal(c, w);
    case AckRow(now) => AckIsLegal(c, w, now);
    case FailRow(now) => FailIsLegal(c, w, now);
    case _ =>
  }

  lemma RowKept(c: Config, w: World, op: EventOp, id: Id)
    requires Valid(c) && RowsOk(c, w.store.events) && Legal(c, w, op) && Lookup(Applied(w.store.events, op), id).Some?
    ensures EventOk(c, Lookup(Applied(w.store.events, op), id).value)
  {
    hide Applied, Lookup, Ids;
    AppliedRow(w.store.events, op, id);
  }

  lemma RowsKept(c: Config, w: World, op: EventOp)
    requires Valid(c) && RowsOk(c, w.store.events) && Legal(c, w, op)
    ensures RowsOk(c, Applied(w.store.events, op))
  {
    hide Applied, Lookup, EventOk, UniqueIds;
    UniqueAfter(w.store.events, op);
    forall id | Lookup(Applied(w.store.events, op), id).Some?
      ensures EventOk(c, Lookup(Applied(w.store.events, op), id).value)
    {
      RowKept(c, w, op, id);
    }
  }

  lemma BackendKept(c: Config, w: World, step: Step)
    requires Inv(c, w) && Enabled(c, w, step)
    ensures var w' := Do(c, w, step);
      && w'.backend.hasDevice && RecordedOk(w'.backend.recorded)
      && Ids(w.backend.recorded) <= Ids(w'.backend.recorded)
      && NoInvention(w')
  {
    var w' := Do(c, w, step);
    if step.Send? {
      var items := Cores(w.phase.batch);
      DeliverKeeps(w.backend, items, step.delivery);
      DeliverRecordsItems(w.backend, items, step.delivery);
      forall r | r in w'.backend.recorded ensures r in w'.log {
        if r in items {
          var j :| 0 <= j < |items| && items[j] == r;
          assert w.phase.batch[j].core in w.log;
        }
      }
    }
  }

  lemma {:induction false} HandleBatchRecordsItems(b: Backend, accepted: set<Id>, items: seq<Core>, verdicts: map<Id, Verdict>)
    ensures forall r | r in HandleBatch(b, accepted, items, verdicts).0.recorded :: r in b.recorded || r in items
    decreases |items|
  {
    if items != [] {
      var h := HandleItem(b, accepted, items[0], VerdictFor(verdicts, items[0].id));
      HandleBatchRecordsItems(h.backend, h.accepted, items[1..], verdicts);
    }
  }

  lemma DeliverRecordsItems(b: Backend, items: seq<Core>, d: Delivery)
    ensures forall r | r in Deliver(b, items, d).0.recorded :: r in b.recorded || r in items
  {
    HandleBatchRecordsItems(b, {}, if d.handled < |items| then items[..d.handled] else items, d.verdicts);
  }

  /** The rows, the pruned rows and the log of w' come from w by op. */
  ghost predicate Wrote(w: World, w': World, op: EventOp) {
    && w'.store.events == Applied(w.store.events, op)
    && w'.dropped == w.dropped + DroppedBy(w.store.events, op)
    && w'.log == if op.Append? then w.log + [op.core] else w.log
  }

  lemma DoWrites(c: Config, w: World, step: Step)
    requires Enabled(c, w, step)
    ensures Wrote(w, Do(c, w, step), OpOf(c, w, step))
  {
  }

  lemma DeliveredRowKept(c: Config, w: World, op: EventOp, id: Id)
    requires RowsOk(c, w.store.events) && DeliveredOk(w) && Legal(c, w, op)
    requires Lookup(Applied(w.store.events, op), id).Some?
    requires Lookup(Applied(w.store.events, op), id).value.status == Synced
    ensures id in Ids(w.backend.recorded)
  {
    hide Applied, Lookup, Ids, RecordedOk;
    AppliedRow(w.store.events, op, id);
  }

  lemma DeliveredRowsKept(c: Config, w: World, w': World, op: EventOp)
    requires RowsOk(c, w.store.events) && DeliveredOk(w) && Legal(c, w, op) && Wrote(w, w', op)
    requires Ids(w.backend.recorded) <= Ids(w'.backend.recorded)
    ensures forall id | Lookup(w'.store.events, id).Some? && Lookup(w'.store.events, id).value.status == Synced ::
              id in Ids(w'.backend.recorded)
  {
    hide Applied, Lookup, Ids, RowsOk, DeliveredOk, Legal;
    forall id | Lookup(w'.store.events, id).Some? && Lookup(w'.store.events, id).value.status == Synced
      ensures id in Ids(w'.backend.recorded)
    {
      DeliveredRowKept(c, w, op, id);
    }
  }

  lemma DroppedOk(c: Config, w: World, op: EventOp)
    requires RowsOk(c, w.store.events) && DeliveredOk(w) && Legal(c, w, op)
    ensures forall d | d in DroppedBy(w.store.events, op) :: LowSynced(d) && d.core.id in Ids(w.backend.recorded)
  {
    hide Applied, DroppedBy, Lookup, Ids, UniqueIds, Unpruned;
    AppliedConserves(w.store.events, op);
    forall d | d in DroppedBy(w.store.events, op) ensures d.core.id in Ids(w.backend.recorded) {
      UniqueAfter(w.store.events, op);
      LookupFinds(Unpruned(w.store.events, op), d);
      UnprunedRow(w.store.events, op, d.core.id);
    }
  }

  lemma DeliveredKept(c: Config, w: World, w': World, op: EventOp)
    requires RowsOk(c, w.store.events) && DeliveredOk(w) && Legal(c, w, op) && Wrote(w, w', op)
    requires Ids(w.backend.recorded) <= Ids(w'.backend.recorded)
    ensures DeliveredOk(w')
  {
    hide Applied, DroppedBy, Lookup, Ids, Legal, RowsOk;
    DeliveredRowsKept(c, w, w', op);
    DroppedOk(c, w, op);
  }

  lemma CoresOfConcat(a: seq<Event>, b: seq<Event>)
    ensures multiset(Cores(a + b)) == multiset(Cores(a)) + multiset(Cores(b))
  {
    assert Cores(a + b) == Cores(a) + Cores(b);
  }

  lemma Rebalance(kept: multiset<Core>, gone: multiset<Core>, stored: multiset<Core>, added: multiset<Core>,
                  before: multiset<Core>, log: multiset<Core>)
    requires kept + gone == stored + added && stored + before == log
    ensures kept + (before + gone) == log + added
  {
    assert kept + (before + gone) == (kept + gone) + before == (stored + added) + before == (stored + before) + added;
  }

  lemma ConservedKept(w: World, w': World, op: EventOp)
    requires Conserved(w) && Wrote(w, w', op)
    ensures Conserved(w')
  {
    var events, gone := w.store.events, DroppedBy(w.store.events, op);
    var added := if op.Append? then multiset{op.core} else multiset{};
    AppliedConserves(events, op);
    CoresOfConcat(w.dropped, gone);
    Rebalance(multiset(Cores(w'.store.events)), multiset(Cores(gone)), multiset(Cores(events)), added,
              multiset(Cores(w.dropped)), multiset(w.log));
    assert multiset(w'.log) == multiset(w.log) + added;
  }

  // ---- the tick in progress ----

  lemma RowSpared(c: Config, w: World, w': World, op: EventOp, b: Event, syncing: bool)
    requires RowsOk(c, w.store.events) && Legal(c, w, op) && Wrote(w, w', op)
    requires RowIs(w, b, syncing) && (op.Modify? ==> op.id != b.core.id)
    ensures RowIs(w', b, syncing)
  {
    AppliedRow(w.store.events, op, b.core.id);
  }

  lemma RowMarked(c: Config, w: World, w': World, b: Event)
    requires RowsOk(c, w.store.events) && RowIs(w, b, false) && Wrote(w, w', Modify(b.core.id, MarkSyncing))
    ensures RowIs(w', b, true)
  {
    AppliedRow(w.store.events, Modify(b.core.id, MarkSyncing), b.core.id);
  }

  lemma RetryKept(c: Config, w: World, op: EventOp, b: Event)
    requires RowsOk(c, w.store.events) && Legal(c, w, op) && Lookup(Applied(w.store.events, op), b.core.id).Some?
    requires Lookup(w.store.events, b.core.id).Some? ==> Lookup(w.store.events, b.core.id).value.retryCount <= b.retryCount + 1
    requires op.Modify? && op.patch.Fail? && op.id == b.core.id ==> op.patch.retries <= b.retryCount + 1
    ensures Lookup(Applied(w.store.events, op), b.core.id).value.retryCount <= b.retryCount + 1
  {
    hide Applied, Lookup, Ids;
    AppliedRow(w.store.events, op, b.core.id);
  }

  /** No change but a failure of the row itself, counted from the row as read, raises a retry count. */
  lemma RetriesKept(c: Config, w: World, w': World, op: EventOp, batch: seq<Event>)
    requires RowsOk(c, w.store.events) && Legal(c, w, op) && Wrote(w, w', op) && AtMostOneRetry(w, batch)
    requires op.Modify? && op.patch.Fail? ==>
               forall j | 0 <= j < |batch| && batch[j].core.id == op.id :: op.patch.retries <= batch[j].retryCount + 1
    ensures AtMostOneRetry(w', batch)
  {
    hide Applied, Lookup, RowsOk, Legal;
    forall j | 0 <= j < |batch| && Lookup(w'.store.events, batch[j].core.id).Some?
      ensures Lookup(w'.store.events, batch[j].core.id).value.retryCount <= batch[j].retryCount + 1
    {
      RetryKept(c, w, op, batch[j]);
    }
  }

  lemma StoredIsLogged(w: World, e: Event)
    requires Conserved(w) && e in w.store.events
    ensures e.core in w.log
  {
    var i :| 0 <= i < |w.store.events| && w.store.events[i] == e;
    assert Cores(w.store.events)[i] == e.core;
    assert e.core in multiset(w.log);
  }

  lemma {:induction false} FilterUnique(events: seq<Event>, keep: Event -> bool)
    requires UniqueIds(events)
    ensures UniqueIds(Filter(events, keep))
  {
    if events != [] {
      FilterUnique(events[1..], keep);
      var r := Filter(events[1..], keep);
      forall j | 0 <= j < |r| ensures r[j].core.id != events[0].core.id {
        assert r[j] in events[1..];
      }
    }
  }

  lemma {:induction false} InsertUnique(x: Event, s: seq<Event>)
    requires UniqueIds(s) && forall e | e in s :: e.core.id != x.core.id
    ensures UniqueIds(Insert(x, s, SendsBefore))
  {
    if s != [] && !Le(x.core.key, s[0].core.key) {
      InsertUnique(x, s[1..]);
      var r := Insert(x, s[1..], SendsBefore);
      forall j | 0 <= j < |r| ensures r[j].core.id != s[0].core.id {
        assert r[j] in multiset(r);
        assert r[j] == x || r[j] in s[1..];
      }
    }
  }

  lemma {:induction false} SortUnique(s: seq<Event>)
    requires UniqueIds(s)
    ensures UniqueIds(SortEvents(s))
  {
    if s != [] {
      var t := SortEvents(s[1..]);
      SortUnique(s[1..]);
      forall e | e in t ensures e.core.id != s[0].core.id {
        assert e in multiset(t);
      }
      InsertUnique(s[0], t);
    }
  }

  lemma SortMembers(s: seq<Event>, e: Event)
    ensures e in SortEvents(s) <==> e in s
  {
    assert e in SortEvents(s) <==> e in multiset(SortEvents(s));
    assert e in s <==> e in multiset(s);
  }

  lemma SelectedOk(c: Config, w: World, now: int)
    requires RowsOk(c, w.store.events) && Conserved(w)
    ensures var batch := Batch(w.store.events, now, c.batchSize);
      && BatchOk(c, w, batch) && AtMostOneRetry(w, batch)
      && forall j | 0 <= j < |batch| :: RowIs(w, batch[j], false)
  {
    var pending := PendingForSync(w.store.events, now);
    var batch := Batch(w.store.events, now, c.batchSize);
    FilterUnique(w.store.events, e => Eligible(e, now));
    SortUnique(pending);
    forall j | 0 <= j < |batch|
      ensures batch[j].retryCount < c.maxRetries && batch[j].core in w.log && RowIs(w, batch[j], false)
    {
      assert batch[j] == SortEvents(pending)[j];
      SortMembers(pending, batch[j]);
      LookupFinds(w.store.events, batch[j]);
      StoredIsLogged(w, batch[j]);
    }
  }

  lemma BatchSpared(c: Config, w: World, w': World, op: EventOp, batch: seq<Event>)
    requires RowsOk(c, w.store.events) && Legal(c, w, op) && Wrote(w, w', op)
    requires BatchOk(c, w, batch) && AtMostOneRetry(w, batch)
    requires op.Modify? ==> op.patch.Fail? ==>
               forall j | 0 <= j < |batch| && batch[j].core.id == op.id :: op.patch.retries <= batch[j].retryCount + 1
    ensures BatchOk(c, w', batch) && AtMostOneRetry(w', batch)
  {
    RetriesKept(c, w, w', op, batch);
    forall j | 0 <= j < |batch| ensures batch[j].core in w'.log {
      assert batch[j].core in w.log;
    }
  }

  /** A write that changes no batch row leaves the tick's picture as it was. */
  lemma PhaseSpared(c: Config, w: World, w': World, op: EventOp)
    requires RowsOk(c, w.store.events) && PhaseOk(c, w) && Legal(c, w, op) && Wrote(w, w', op)
    requires !op.Modify? && w'.phase == w.phase && Ids(w.backend.recorded) <= Ids(w'.backend.recorded)
    ensures PhaseOk(c, w')
  {
    if !w.phase.Idle? && !w.phase.Recovering? {
      var batch := w.phase.batch;
      BatchSpared(c, w, w', op, batch);
      forall j, syncing | 0 <= j < |batch| && RowIs(w, batch[j], syncing) ensures RowIs(w', batch[j], syncing) {
        RowSpared(c, w, w', op, batch[j], syncing);
      }
    }
  }

  lemma MarkKeeps(c: Config, w: World, w': World)
    requires RowsOk(c, w.store.events) && PhaseOk(c, w) && w.phase.Marking? && w.phase.next < |w.phase.batch|
    requires var b := w.phase.batch[w.phase.next];
      Wrote(w, w', Modify(b.core.id, MarkSyncing)) && w'.phase == Marking(w.phase.batch, w.phase.next + 1)
    ensures PhaseOk(c, w')
  {
    var batch, next := w.phase.batch, w.phase.next;
    var op := Modify(batch[next].core.id, MarkSyncing);
    BatchSpared(c, w, w', op, batch);
    RowMarked(c, w, w', batch[next]);
    forall j, syncing | 0 <= j < |batch| && j != next && RowIs(w, batch[j], syncing) ensures RowIs(w', batch[j], syncing) {
      RowSpared(c, w, w', op, batch[j], syncing);
    }
  }

  lemma AckKeeps(c: Config, w: World, w': World, now: int)
    requires RowsOk(c, w.store.events) && PhaseOk(c, w) && w.phase.Acking? && w.phase.next < |w.phase.batch|
    requires var b := w.phase.batch[w.phase.next]; var op := Modify(b.core.id, AckPatch(c, b, w.phase.acks, now));
      Legal(c, w, op) && Wrote(w, w', op)
    requires w'.phase == Acking(w.phase.batch, w.phase.acks, w.phase.next + 1) && w'.backend == w.backend
    ensures PhaseOk(c, w')
  {
    var batch, next := w.phase.batch, w.phase.next;
    var op := Modify(batch[next].core.id, AckPatch(c, batch[next], w.phase.acks, now));
    BatchSpared(c, w, w', op, batch);
    forall j | next < j < |batch| ensures RowIs(w', batch[j], true) {
      RowSpared(c, w, w', op, batch[j], true);
    }
  }

  lemma FailKeeps(c: Config, w: World, w': World, now: int)
    requires RowsOk(c, w.store.events) && PhaseOk(c, w) && w.phase.Failing? && w.phase.next < |w.phase.batch|
    requires var b := w.phase.batch[w.phase.next]; var op := Modify(b.core.id, FailPatch(c, b, now));
      Legal(c, w, op) && Wrote(w, w', op)
    requires w'.phase == Failing(w.phase.batch, w.phase.next + 1)
    ensures PhaseOk(c, w')
  {
    var batch, next := w.phase.batch, w.phase.next;
    BatchSpared(c, w, w', Modify(batch[next].core.id, FailPatch(c, batch[next], now)), batch);
  }

  lemma SendKeeps(c: Config, w: World, w': World, d: Delivery)
    requires PhaseOk(c, w) && w.phase.Marking? && w.phase.next == |w.phase.batch|
    requires RecordedOk(w.backend.recorded) && w.backend.hasDevice
    requires Wrote(w, w', Keep)
    requires var (b', reply) := Deliver(w.backend, Cores(w.phase.batch), d);
      w'.backend == b' && w'.phase == if reply.None? then Failing(w.phase.batch, 0) else Acking(w.phase.batch, reply.value, 0)
    ensures PhaseOk(c, w')
  {
    DeliverKeeps(w.backend, Cores(w.phase.batch), d);
    var batch := w.phase.batch;
    forall j | 0 <= j < |batch| ensures RowIs(w', batch[j], true) {
      assert RowIs(w, batch[j], true);
    }
  }

  lemma SelectKeeps(c: Config, w: World, w': World, now: int)
    requires RowsOk(c, w.store.events) && Conserved(w)
    requires Wrote(w, w', Keep)
    requires var batch := Batch(w.store.events, now, c.batchSize); w'.phase == if batch == [] then Idle else Marking(batch, 0)
    ensures PhaseOk(c, w')
  {
    hide RowsOk, Conserved, Batch, Lookup;
    SelectedOk(c, w, now);
  }

  lemma PhaseKept(c: Config, w: World, step: Step)
    requires Inv(c, w) && Enabled(c, w, step)
    ensures PhaseOk(c, Do(c, w, step))
  {
    hide Applied, DroppedBy, Legal, Wrote, DeliveredOk, Conserved, NoInvention, RowsOk, RecordedOk, Valid, Ids, RowIs,
      BatchOk, AtMostOneRetry, Cores, InflightAfter, VisitsAfter, Batch;
    var w', op := Do(c, w, step), OpOf(c, w, step);
    DoWrites(c, w, step);
    OpIsLegal(c, w, step);
    match step
    case SelectBatch(now) => SelectKeeps(c, w, w', now);
    case MarkRow => MarkKeeps(c, w, w');
    case Send(d) => SendKeeps(c, w, w', d);
    case AckRow(now) => AckKeeps(c, w, w', now);
    case FailRow(now) => FailKeeps(c, w, w', now);
    case BeginTick =>
    case RecoverRow(_) =>
    case Raise => BatchSpared(c, w, w', op, w.phase.batch);
    case EndAcks =>
    case EndFails =>
    case Abandon =>
    case Crash =>
    case _ => PhaseSpared(c, w, w', op);
  }

  lemma StepKeeps(c: Config, w: World, step: Step)
    requires Inv(c, w) && Enabled(c, w, step)
    ensures Inv(c, Do(c, w, step))
  {
    var w', op := Do(c, w, step), OpOf(c, w, step);
    DoWrites(c, w, step);
    OpIsLegal(c, w, step);
    RowsKept(c, w, op);
    BackendKept(c, w, step);
    DeliveredKept(c, w, w', op);
    ConservedKept(w, w', op);
    PhaseKept(c, w, step);
  }

  // ---- the theorems ----

  /** Safety over whole runs: from an empty gateway, whatever the operator, the network, exceptions and
      crashes do. */
  lemma {:induction false} RunKeeps(c: Config, w: World, steps: seq<Step>)
    requires Inv(c, w) && Runs(c, w, steps)
    ensures Inv(c, End(c, w, steps))
    decreases |steps|
  {
    if steps != [] {
      StepKeeps(c, w, steps[0]);
      RunKeeps(c, Do(c, w, steps[0]), steps[1..]);
    }
  }
}
