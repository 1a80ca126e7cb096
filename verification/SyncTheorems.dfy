/** Properties of whole runs of the protocol, read off the invariant of SyncSafety. */
module SyncTheorems {
  import opened Wrappers
  import opened Priority
  import opened EdgeTypes
  import opened StoreSpec
  import opened CentralSync
  import opened SyncWorld
  import opened StoreLookup
  import opened SyncSafety
  import opened Backoff

  // ---- nothing is lost ----

  lemma {:induction false} HistoryGrows(c: Config, w: World, steps: seq<Step>)
    requires Runs(c, w, steps)
    ensures w.log <= End(c, w, steps).log && w.dropped <= End(c, w, steps).dropped
    decreases |steps|
  {
    if steps != [] {
      DoWrites(c, w, steps[0]);
      HistoryGrows(c, Do(c, w, steps[0]), steps[1..]);
    }
  }

  ghost predicate StoredOnce(w: World, core: Core) {
    && core in Cores(w.store.events)
    && forall i, j | 0 <= i < |w.store.events| && 0 <= j < |w.store.events|
         && w.store.events[i].core.id == core.id && w.store.events[j].core.id == core.id :: i == j
  }

  /** Rows pruned since w. */
  function PrunedSince(w: World, w': World): seq<Event>
    requires w.dropped <= w'.dropped
  {
    w'.dropped[|w.dropped|..]
  }

  lemma CountStays(stored: multiset<Core>, before: multiset<Core>, log: multiset<Core>,
                   stored': multiset<Core>, gone: multiset<Core>, log': multiset<Core>, x: Core)
    requires stored + before == log && stored' + (before + gone) == log' && log <= log'
    requires x in stored && x !in gone
    ensures x in stored'
  {
    assert stored'[x] + before[x] + gone[x] == log'[x];
    assert stored[x] + before[x] == log[x];
  }

  lemma StoredUnlessPruned(w: World, w': World, core: Core)
    requires Conserved(w) && Conserved(w') && w.log <= w'.log && w.dropped <= w'.dropped
    requires core in Cores(w.store.events) && core !in Cores(PrunedSince(w, w'))
    ensures core in Cores(w'.store.events)
  {
    hide Cores, Ids;
    var gone, grown := PrunedSince(w, w'), w'.log[|w.log|..];
    assert w'.dropped == w.dropped + gone && w'.log == w.log + grown;
    CoresOfConcat(w.dropped, gone);
    CountStays(multiset(Cores(w.store.events)), multiset(Cores(w.dropped)), multiset(w.log),
               multiset(Cores(w'.store.events)), multiset(Cores(gone)), multiset(w'.log), core);
  }

  lemma CoreOf(events: seq<Event>, core: Core) returns (e: Event)
    requires core in Cores(events)
    ensures e in events && e.core == core
  {
    var i :| 0 <= i < |Cores(events)| && Cores(events)[i] == core;
    e := events[i];
  }

  lemma HasCore(events: seq<Event>, e: Event)
    requires e in events
    ensures e.core in Cores(events)
  {
    var i :| 0 <= i < |events| && events[i] == e;
    assert Cores(events)[i] == e.core;
  }

  /** A stored event is still stored, once, with the identity it was enqueued with, however the run goes
      on, unless it was delivered low-priority telemetry that a prune removed. */
  lemma NoEventLost(c: Config, w: World, steps: seq<Step>, e: Event)
    requires Inv(c, w) && Runs(c, w, steps) && e in w.store.events
    ensures w.dropped <= End(c, w, steps).dropped
    ensures var w' := End(c, w, steps);
      StoredOnce(w', e.core) || exists d :: d in PrunedSince(w, w') && d.core == e.core && LowSynced(d)
  {
    var w' := End(c, w, steps);
    HistoryGrows(c, w, steps);
    RunKeeps(c, w, steps);
    HasCore(w.store.events, e);
    var gone := PrunedSince(w, w');
    if e.core in Cores(gone) {
      var d := CoreOf(gone, e.core);
      assert d in w'.dropped;
    } else {
      StoredUnlessPruned(w, w', e.core);
      assert UniqueIds(w'.store.events);
    }
  }

  /** Business events, anything above telemetry, are never removed. */
  lemma BusinessEventsStay(c: Config, w: World, steps: seq<Step>, e: Event)
    requires Inv(c, w) && Runs(c, w, steps) && e in w.store.events && e.core.key.priority != Low
    ensures StoredOnce(End(c, w, steps), e.core)
  {
    NoEventLost(c, w, steps, e);
  }

  ghost predicate IsStored(events: seq<Event>, id: Id) {
    exists e :: e in events && e.core.id == id
  }

  /** An event is turned away exactly when it is telemetry, its id is not stored yet, and 8000 rows are; then
      nothing changes at all. A repeated id changes no history. Any other event is in the rows at once, last in
      the history, and untried. */
  lemma EnqueueStores(c: Config, w: World, core: Core)
    requires Inv(c, w)
    ensures var w' := Do(c, w, Produce(core));
      if IsStored(w.store.events, core.id) then w'.log == w.log && w'.store.events == Prune(w.store.events)
      else if |w.store.events| >= 8000 && core.key.priority == Low then w' == w
      else
        && StoredOnce(w', core) && w'.log == w.log + [core]
        && Lookup(w'.store.events, core.id) == Some(Event(core, Pending, 0, None, None, None))
  {
    var w' := Do(c, w, Produce(core));
    StepKeeps(c, w, Produce(core));
    DoWrites(c, w, Produce(core));
    StoredIff(w.store.events, core.id);
    if EnqueueOutcomeOf(w.store, core) == Created {
      AppliedRow(w.store.events, Append(core), core.id);
      HasCore(w'.store.events, Lookup(w'.store.events, core.id).value);
    } else if EnqueueOutcomeOf(w.store, core) == AtCapacity {
      assert w.dropped + [] == w.dropped;
    }
  }

  lemma StoredIff(events: seq<Event>, id: Id)
    ensures IsStored(events, id) <==> IndexOf(events, id) < |events|
  {
  }

  /** One record per event, and none is ever removed. */
  ghost predicate NotedOnce(conflicts: seq<Id>) {
    forall i, j | 0 <= i < j < |conflicts| :: conflicts[i] != conflicts[j]
  }

  /** Over every run conflict records are only added, at most one for each event. */
  lemma {:induction false} ConflictsStay(c: Config, w: World, steps: seq<Step>)
    requires Runs(c, w, steps) && NotedOnce(w.store.conflicts)
    ensures w.store.conflicts <= End(c, w, steps).store.conflicts && NotedOnce(End(c, w, steps).store.conflicts)
    decreases |steps|
  {
    hide Enabled, OpOf, Applied, DroppedBy, VisitsAfter, InflightAfter, PhaseAfter;
    if steps != [] {
      ConflictsStay(c, Do(c, w, steps[0]), steps[1..]);
    }
  }

  // ---- exactly once, in order ----

  /** Position at which an id is on record. */
  ghost predicate RecordedAt(recorded: seq<Core>, k: int, id: Id) {
    0 <= k < |recorded| && recorded[k].id == id
  }

  /** From an empty gateway, over every run: a SYNCED row is on record at exactly one position, and
      everything the record depends on is recorded at an earlier one. */
  lemma ExactlyOnceInOrder(c: Config, steps: seq<Step>, e: Event)
    requires Valid(c) && Runs(c, Start(true), steps)
    requires e in End(c, Start(true), steps).store.events && e.status == Synced
    ensures var recorded := End(c, Start(true), steps).backend.recorded;
      exists k :: && RecordedAt(recorded, k, e.core.id)
                  && (forall j | RecordedAt(recorded, j, e.core.id) :: j == k)
                  && recorded[k] in End(c, Start(true), steps).log
                  && forall d | d in recorded[k].dependsOn :: exists j :: j < k && RecordedAt(recorded, j, d)
  {
    StartOk(c);
    RunKeeps(c, Start(true), steps);
    var w := End(c, Start(true), steps);
    LookupFinds(w.store.events, e);
    var r := w.backend.recorded;
    assert e.core.id in Ids(r);
    var k :| 0 <= k < |r| && r[k].id == e.core.id;
    assert RecordedAt(r, k, e.core.id);
    forall d | d in r[k].dependsOn ensures exists j :: j < k && RecordedAt(r, j, d) {
      assert d in Ids(r[..k]);
      var j :| 0 <= j < k && r[..k][j].id == d;
      assert RecordedAt(r, j, d);
    }
  }

  // ---- what is absorbing ----

  lemma DeadLetterRow(c: Config, w: World, w': World, op: EventOp, id: Id)
    requires RowsOk(c, w.store.events) && Legal(c, w, op) && Wrote(w, w', op)
    requires Lookup(w.store.events, id).Some? && Lookup(w.store.events, id).value.status == DeadLetter
    requires op.Modify? && op.id == id && op.patch.Fail? ==> op.patch.retries == c.maxRetries
    ensures var e, r := Lookup(w.store.events, id).value, Lookup(w'.store.events, id);
      r.Some? && r.value.status == DeadLetter && r.value.retryCount == e.retryCount && r.value.core == e.core
  {
    AppliedRow(w.store.events, op, id);
  }

  /** A dead letter keeps its status, its count and its content, whatever step comes next. */
  lemma DeadLetterStays(c: Config, w: World, step: Step, id: Id)
    requires Inv(c, w) && Enabled(c, w, step)
    requires Lookup(w.store.events, id).Some? && Lookup(w.store.events, id).value.status == DeadLetter
    ensures var e, r := Lookup(w.store.events, id).value, Lookup(Do(c, w, step).store.events, id);
      r.Some? && r.value.status == DeadLetter && r.value.retryCount == e.retryCount && r.value.core == e.core
  {
    var op := OpOf(c, w, step);
    OpIsLegal(c, w, step);
    DoWrites(c, w, step);
    if op.Modify? && op.id == id && op.patch.Fail? {
      FailingRow(c, w, step, id);
    }
    DeadLetterRow(c, w, Do(c, w, step), op, id);
  }

  /** So it does over every run. */
  lemma {:induction false} DeadLetterIsFinal(c: Config, w: World, steps: seq<Step>, id: Id)
    requires Inv(c, w) && Runs(c, w, steps)
    requires Lookup(w.store.events, id).Some? && Lookup(w.store.events, id).value.status == DeadLetter
    ensures var e, r := Lookup(w.store.events, id).value, Lookup(End(c, w, steps).store.events, id);
      r.Some? && r.value.status == DeadLetter && r.value.retryCount == e.retryCount && r.value.core == e.core
    decreases |steps|
  {
    hide Inv, Do, Lookup, Enabled;
    if steps != [] {
      DeadLetterStays(c, w, steps[0], id);
      StepKeeps(c, w, steps[0]);
      DeadLetterIsFinal(c, Do(c, w, steps[0]), steps[1..], id);
    }
  }

  /** A failure is counted from the row as the tick read it, which the stored count exceeds by at most
      one, so failing a row twice in a tick counts once. */
  lemma FailingRow(c: Config, w: World, step: Step, id: Id)
    requires Inv(c, w) && Enabled(c, w, step)
    requires var op := OpOf(c, w, step); op.Modify? && op.id == id && op.patch.Fail?
    requires Lookup(w.store.events, id).Some?
    ensures (step.FailRow? || step.AckRow?) && w.phase.batch[w.phase.next].core.id == id
    ensures var op, e := OpOf(c, w, step), Lookup(w.store.events, id).value;
      op.patch.retries == w.phase.batch[w.phase.next].retryCount + 1 && e.retryCount <= op.patch.retries <= c.maxRetries
    ensures step.AckRow? ==> Lookup(w.store.events, id).value.status == Syncing
  {
    hide RowsOk, DeliveredOk, Conserved, NoInvention, Ids, UniqueIds, NewEvent;
    var next := w.phase.next;
    assert AtMostOneRetry(w, w.phase.batch);
    assert w.phase.batch[next].core.id == id;
    assert w.phase.batch[next].retryCount < c.maxRetries;
    if step.AckRow? {
      assert RowIs(w, w.phase.batch[next], true);
    }
  }

  ghost predicate InBatch(w: World, id: Id) {
    (w.phase.Marking? || w.phase.Acking? || w.phase.Failing?) && exists b :: b in w.phase.batch && b.core.id == id
  }

  lemma SyncedRow(c: Config, w: World, w': World, op: EventOp, id: Id)
    requires RowsOk(c, w.store.events) && Legal(c, w, op) && Wrote(w, w', op)
    requires Lookup(w.store.events, id).Some? && Lookup(w.store.events, id).value.status == Synced
    ensures Lookup(w'.store.events, id).Some? ==>
      (Lookup(w'.store.events, id).value.status != Synced <==> op.Modify? && op.id == id && op.patch.Fail?)
  {
    AppliedRow(w.store.events, op, id);
  }

  /** The one way a delivered row stops being SYNCED: an exception later in the tick that delivered it,
      whose failure pass reaches the row. */
  lemma SyncedUndoneIff(c: Config, w: World, step: Step, id: Id)
    requires Inv(c, w) && Enabled(c, w, step)
    requires Lookup(w.store.events, id).Some? && Lookup(w.store.events, id).value.status == Synced
    requires Lookup(Do(c, w, step).store.events, id).Some?
    ensures Lookup(Do(c, w, step).store.events, id).value.status != Synced
      <==> step.FailRow? && w.phase.batch[w.phase.next].core.id == id
  {
    var op := OpOf(c, w, step);
    OpIsLegal(c, w, step);
    DoWrites(c, w, step);
    SyncedRow(c, w, Do(c, w, step), op, id);
    if op.Modify? && op.id == id && op.patch.Fail? {
      FailingRow(c, w, step, id);
    }
  }

  lemma SyncedNotPicked(c: Config, w: World, now: int, id: Id)
    requires RowsOk(c, w.store.events)
    requires Lookup(w.store.events, id).Some? && Lookup(w.store.events, id).value.status == Synced
    ensures forall b | b in Batch(w.store.events, now, c.batchSize) :: b.core.id != id
  {
    var pending := PendingForSync(w.store.events, now);
    forall b | b in Batch(w.store.events, now, c.batchSize) ensures b.core.id != id {
      assert b in SortEvents(pending);
      SortMembers(pending, b);
      LookupFinds(w.store.events, b);
    }
  }

  lemma UnbatchedStays(c: Config, w: World, step: Step, id: Id)
    requires Inv(c, w) && Enabled(c, w, step)
    requires Lookup(w.store.events, id).Some? && Lookup(w.store.events, id).value.status == Synced && !InBatch(w, id)
    ensures !InBatch(Do(c, w, step), id)
  {
    hide OpOf, Applied, DroppedBy, VisitsAfter, InflightAfter, DeliveredOk, Conserved, NoInvention, PhaseOk, Lookup, Batch;
    if step.SelectBatch? {
      SyncedNotPicked(c, w, step.now, id);
    }
  }

  lemma SyncedOutsideBatchStays(c: Config, w: World, step: Step, id: Id)
    requires Inv(c, w) && Enabled(c, w, step)
    requires Lookup(w.store.events, id).Some? && Lookup(w.store.events, id).value.status == Synced && !InBatch(w, id)
    ensures var w' := Do(c, w, step); var r := Lookup(w'.store.events, id);
      if r.Some? then r.value.status == Synced && !InBatch(w', id)
      else exists d :: d in DroppedBy(w.store.events, OpOf(c, w, step)) && d.core.id == id
  {
    var w', op := Do(c, w, step), OpOf(c, w, step);
    UnbatchedStays(c, w, step, id);
    if Lookup(w'.store.events, id).Some? {
      SyncedUndoneIff(c, w, step, id);
    } else {
      OpIsLegal(c, w, step);
      DoWrites(c, w, step);
      GoneIsDropped(w.store.events, op, id);
    }
  }

  lemma KeptIsFound(events: seq<Event>, op: EventOp, e: Event)
    requires UniqueIds(events) && (op.Append? ==> Lookup(events, op.core.id) == None) && !op.Keep?
    requires var u := Unpruned(events, op); Excess(u) <= |LowSyncedOf(u)| && e in LowSyncedOf(u)[Excess(u)..]
    ensures Lookup(Applied(events, op), e.core.id) == Some(e)
  {
    var u := Unpruned(events, op);
    UniqueAfter(events, op);
    DropOldestSplits(u, Excess(u));
    assert e in LowSyncedOf(Applied(events, op));
    LookupFinds(Applied(events, op), e);
  }

  lemma GoneIsDropped(events: seq<Event>, op: EventOp, id: Id)
    requires UniqueIds(events) && (op.Append? ==> Lookup(events, op.core.id) == None)
    requires LookupUnpruned(events, op, id).Some? && Lookup(Applied(events, op), id).None?
    ensures exists d :: d in DroppedBy(events, op) && d.core.id == id
  {
    hide DropOldest, PatchRow, Lookup;
    UnprunedRow(events, op, id);
    var u := Unpruned(events, op);
    var e := Lookup(u, id).value;
    AppliedRow(events, op, id);
    var low := LowSyncedOf(u);
    assert e in low && low == low[..Excess(u)] + low[Excess(u)..];
    if e !in low[..Excess(u)] {
      KeptIsFound(events, op, e);
      assert false;
    }
  }

  /** Across tick boundaries SYNCED is final: a row delivered when no tick is under way is SYNCED for
      the rest of the run, until it is pruned. */
  lemma {:induction false} SyncedIsFinal(c: Config, w: World, steps: seq<Step>, id: Id)
    requires Inv(c, w) && Runs(c, w, steps)
    requires Lookup(w.store.events, id).Some? && Lookup(w.store.events, id).value.status == Synced && !InBatch(w, id)
    ensures var w' := End(c, w, steps);
      || (Lookup(w'.store.events, id).Some? && Lookup(w'.store.events, id).value.status == Synced)
      || exists d :: d in w'.dropped && d.core.id == id
    decreases |steps|
  {
    if steps != [] {
      var w1 := Do(c, w, steps[0]);
      StepKeeps(c, w, steps[0]);
      SyncedOutsideBatchStays(c, w, steps[0], id);
      if Lookup(w1.store.events, id).Some? {
        SyncedIsFinal(c, w1, steps[1..], id);
      } else {
        var d :| d in DroppedBy(w.store.events, OpOf(c, w, steps[0])) && d.core.id == id;
        DoWrites(c, w, steps[0]);
        HistoryGrows(c, w1, steps[1..]);
        assert d in w1.dropped;
        assert d in End(c, w, steps).dropped;
      }
    }
  }

  // ---- crashes ----

  /** What a crash takes: the tick in progress, the ids drawn and the visit rows not stored yet. The store, the
      record at the backend and so every event queued stay; a row that fails to be stored is lost alone. */
  lemma CrashTakes(c: Config, w: World, id: string)
    ensures Do(c, w, Crash) == w.(phase := Idle, reserved := {}, inflight := map[])
    ensures id in w.inflight ==> Do(c, w, LoseVisit(id)) == w.(inflight := w.inflight - {id})
  {
    assert w.dropped + [] == w.dropped;
  }

  // ---- retries ----

  predicate CountsAsFailure(acks: map<Id, AckStatus>, id: Id) {
    id !in acks || acks[id] == Rejected
  }

  /** What an acknowledgement does to the row it is for. Only a rejection or a missing one costs a retry; a
      success delivers; a missing prerequisite makes the row due again two seconds later; a conflict leaves
      its due time alone, so it is sent again. */
  lemma AckOutcome(c: Config, e: Event, acks: map<Id, AckStatus>, now: int, at: int)
    requires EventOk(c, e) && e.retryCount < c.maxRetries
    ensures var id, e' := e.core.id, ApplyPatch(e, AckPatch(c, e, acks, now));
      && e'.core == e.core && EventOk(c, e')
      && e'.retryCount == e.retryCount + (if CountsAsFailure(acks, id) then 1 else 0)
      && (e'.status == Synced <==> id in acks && Success(acks[id]))
      && (e'.status == DeadLetter <==> CountsAsFailure(acks, id) && e.retryCount + 1 == c.maxRetries)
      && (id in acks && acks[id] == DependencyPending ==> (Eligible(e', at) <==> at >= now + 2000))
      && (id in acks && acks[id] == Conflict ==> (Eligible(e', at) <==> e.nextRetryAt.None? || e.nextRetryAt.value <= at))
  {
    if e.core.id in acks {
      match acks[e.core.id]
      case Accepted =>
      case AlreadyProcessed =>
      case DependencyPending =>
      case Conflict =>
      case Rejected =>
    }
  }

  /** An event whose prerequisites are not on record is never refused for it: the backend answers
      DEPENDENCY_PENDING and records nothing, and the row at the edge keeps its retries and waits. */
  lemma NotReadyWaits(c: Config, b: Backend, accepted: set<Id>, e: Event, v: Verdict, now: int)
    requires !v.Malformed? && exists d :: d in e.core.dependsOn && d !in accepted && d !in Ids(b.recorded)
    ensures var h := HandleItem(b, accepted, e.core, v); var acks := map[e.core.id := h.ack.status];
      && h.backend == b && h.accepted == accepted && h.ack.status == DependencyPending
      && ApplyPatch(e, AckPatch(c, e, acks, now)) == e.(status := Pending, nextRetryAt := Some(now + 2000))
  {
    var d :| d in e.core.dependsOn && d !in accepted && d !in Ids(b.recorded);
    assert d in Missing(e.core.dependsOn, accepted + Ids(b.recorded));
  }

  /** From the backend's handling to the row at the edge. The row loses a retry exactly when its event does
      not parse, or is new and neither waits for another request, nor conflicts, nor is worked on; it is
      delivered exactly when the event was on record already or its handler worked. An event that has to
      wait, for a prerequisite or for a handler that answered 409, keeps its retries and is due two seconds
      later, and the backend is as it was. */
  lemma AnswerAtTheEdge(c: Config, b: Backend, accepted: set<Id>, e: Event, v: Verdict, now: int)
    requires EventOk(c, e) && e.retryCount < c.maxRetries
    ensures var h := HandleItem(b, accepted, e.core, v);
      var e' := ApplyPatch(e, AckPatch(c, e, map[e.core.id := h.ack.status], now));
      var isNew := IsNew(b, accepted, e.core, v);
      && e'.retryCount == e.retryCount + (
           if v.Malformed? || (isNew && !v.Busy? && !Clashes(e.core, v) && !Worked(b, e.core, v)) then 1 else 0)
      && (e'.status == Synced <==>
            !v.Malformed? && HasPrerequisites(b, accepted, e.core) && (OnRecord(b, e.core.id) || Worked(b, e.core, v)))
      && (!v.Malformed? && (!HasPrerequisites(b, accepted, e.core) || (isNew && v.Busy?)) ==>
            h.backend == b && e' == e.(status := Pending, nextRetryAt := Some(now + 2000)))
  {
    hide HandleItem, HasPrerequisites, OnRecord, Special, FailPatch;
    AnswerIff(b, accepted, e.core, v);
    HandlingChanges(b, accepted, e.core, v);
    AckOutcome(c, e, map[e.core.id := HandleItem(b, accepted, e.core, v).ack.status], now, now);
  }

  /** The row after failing at each of the times given, starting from a row read as it was stored. */
  function Failures(c: Config, e: Event, times: seq<int>): Event
    decreases |times|
  {
    if times == [] then e
    else Failures(c, ApplyPatch(e, FailPatch(c, e, times[0])), times[1..])
  }

  /** A fresh event failed on each attempt carries its number of attempts, is dead exactly when they
      reach the limit, and otherwise waits a delay that the next one will not undercut. */
  lemma {:induction false} DeadAfterMaxRetries(c: Config, e: Event, times: seq<int>)
    requires Valid(c) && EventOk(c, e) && e.retryCount + |times| <= c.maxRetries
    ensures var r := Failures(c, e, times); EventOk(c, r) && r.core == e.core && r.retryCount == e.retryCount + |times|
    ensures var r := Failures(c, e, times);
      |times| > 0 && r.status != DeadLetter ==>
        && r.nextRetryAt == Some(times[|times| - 1] + NextRetryDelay(r.retryCount, c.baseMs, c.maxMs))
        && NextRetryDelay(r.retryCount, c.baseMs, c.maxMs) <= NextRetryDelay(r.retryCount + 1, c.baseMs, c.maxMs) <= c.maxMs
    ensures |times| > 0 ==> Failures(c, e, times).firstFailureAt == Some(e.firstFailureAt.GetOr(times[0]))
    decreases |times|
  {
    if times != [] {
      var e1 := ApplyPatch(e, FailPatch(c, e, times[0]));
      DeadAfterMaxRetries(c, e1, times[1..]);
      DelayNonDecreasing(Failures(c, e, times).retryCount, Failures(c, e, times).retryCount + 1, c.baseMs, c.maxMs);
    }
  }
}
