/**
 The store-and-forward protocol as a state machine: operator and producer calls, the sub-steps of a
 sync tick (apps/edge/src/sync/syncLoop.ts), requests to the backend, exceptions and crashes, in any
 interleaving. Each step makes at most one write of the store, which a crash cannot split
 (AtomicWrite). The fields log, dropped and issued record history for the theorems; no step reads them.
 */
module SyncWorld {
  import opened Wrappers
  import opened Sequences
  import opened Priority
  import opened EdgeTypes
  import opened StoreSpec
  import opened CentralSync
  import Backoff
  import LocalIds
  import Visits

  datatype Config = Config(maxRetries: nat, batchSize: nat, baseMs: nat, maxMs: nat)

  /** Every setting is a positive integer or the process does not start. */
  predicate Valid(c: Config) {
    c.maxRetries > 0 && c.batchSize > 0 && c.baseMs > 0 && c.maxMs > 0
  }

  /** Where the tick in progress stands. Batches hold the rows as they were read. */
  datatype Phase =
    | Idle
    | Recovering
    | Marking(batch: seq<Event>, next: nat)
    | Acking(batch: seq<Event>, acks: map<Id, AckStatus>, next: nat)
    | Failing(batch: seq<Event>, next: nat)

  datatype World = World(
    store: Store, backend: Backend, phase: Phase,
    reserved: set<string>,             // visit ids handed out to a call that has not queued its event
    inflight: map<string, Visit>,      // visit rows whose event is queued but which are not stored yet
    log: seq<Core>,                    // every event ever stored, in order
    dropped: seq<Event>,               // every row pruning removed
    issued: seq<string>)               // every visit id ever handed out

  function Start(hasDevice: bool): World {
    World(EMPTY_STORE, Backend([], hasDevice), Idle, {}, map[], [], [], [])
  }

  datatype Step =
    | Produce(core: Core)
    | AllocateId(code: string, iso: string)
    | OpenVisit(id: string, approvalRequired: bool, core: Core)
    | CaptureGross(id: string, milli: int, core: Core)
    | CaptureTare(id: string, milli: int, core: Core)
    | CompleteVisit(id: string, core: Core)
    | AttachEvent(id: string, core: Core)
    | PauseVisit(id: string)
    | SaveVisit(id: string)
    | LoseVisit(id: string)      // storing the row failed without a crash; the call throws
    | BeginTick
    | RecoverRow(id: Id)
    | SelectBatch(now: int)
    | MarkRow
    | Send(delivery: Delivery)
    | AckRow(now: int)
    | NoteConflict(id: Id)
    | Raise
    | EndAcks
    | FailRow(now: int)
    | EndFails
    | Abandon
    | Crash
    | Housekeep

  // ---- selecting a batch ----

  predicate SendsBefore(x: Event, y: Event) {
    Le(x.core.key, y.core.key)
  }

  function SortEvents(s: seq<Event>): (r: seq<Event>)
    ensures multiset(r) == multiset(s)
  {
    Sort(s, SendsBefore)
  }

  function Take<T>(s: seq<T>, n: nat): (r: seq<T>)
    ensures r <= s
  {
    if |s| <= n then s else s[..n]
  }

  function Batch(events: seq<Event>, now: int, size: nat): seq<Event> {
    Take(SortEvents(PendingForSync(events, now)), size)
  }

  // ---- acknowledgements and failures ----

  function FailPatch(c: Config, e: Event, now: int): Patch {
    var retries := e.retryCount + 1;
    var dead := !Backoff.ShouldRetry(retries, c.maxRetries);
    Fail(retries, dead,
         if dead then None else Some(now + Backoff.NextRetryDelay(retries, c.baseMs, c.maxMs)),
         e.firstFailureAt.GetOr(now))
  }

  function AckPatch(c: Config, e: Event, acks: map<Id, AckStatus>, now: int): Patch {
    if e.core.id !in acks then FailPatch(c, e, now)
    else
      match acks[e.core.id]
      case Accepted => MarkSynced(now)
      case AlreadyProcessed => MarkSynced(now)
      case DependencyPending => Defer(now + 2000)
      case Conflict => Block
      case Rejected => FailPatch(c, e, now)
  }

  // ---- what a step does to the event rows ----

  datatype EventOp = Keep | Rewrite | Append(core: Core) | Modify(id: Id, patch: Patch)

  function QueueOp(s: Store, core: Core): EventOp {
    match EnqueueOutcomeOf(s, core)
    case Existing => Rewrite
    case AtCapacity => Keep
    case Created => Append(core)
  }

  function OpOf(c: Config, w: World, step: Step): EventOp
    requires Enabled(c, w, step)
  {
    match step
    case Produce(core) => QueueOp(w.store, core)
    case OpenVisit(_, _, core) => QueueOp(w.store, core)
    case CaptureGross(_, _, core) => QueueOp(w.store, core)
    case CaptureTare(_, _, core) => QueueOp(w.store, core)
    case CompleteVisit(_, core) => QueueOp(w.store, core)
    case AttachEvent(_, core) => QueueOp(w.store, core)
    case RecoverRow(id) => Modify(id, Recover)
    case MarkRow => Modify(w.phase.batch[w.phase.next].core.id, MarkSyncing)
    case AckRow(now) => Modify(w.phase.batch[w.phase.next].core.id, AckPatch(c, w.phase.batch[w.phase.next], w.phase.acks, now))
    case FailRow(now) => Modify(w.phase.batch[w.phase.next].core.id, FailPatch(c, w.phase.batch[w.phase.next], now))
    case AllocateId(_, _) => Rewrite
    case PauseVisit(_) => Rewrite
    case SaveVisit(_) => Rewrite
    case NoteConflict(_) => Rewrite
    case Housekeep => Rewrite
    case _ => Keep
  }

  /** The rows a write is about to prune. */
  function Unpruned(events: seq<Event>, op: EventOp): seq<Event> {
    match op
    case Keep => events
    case Rewrite => events
    case Append(core) => events + [Fresh(core)]
    case Modify(id, patch) => PatchRow(events, id, patch)
  }

  function Applied(events: seq<Event>, op: EventOp): seq<Event> {
    if op.Keep? then events else Prune(Unpruned(events, op))
  }

  function DroppedBy(events: seq<Event>, op: EventOp): seq<Event> {
    if op.Keep? then [] else Pruned(Unpruned(events, op))
  }

  // ---- the rest of a step ----

  function VisitAt(w: World, id: string): Visit
    requires VisitIndex(w.store.visits, id) < |w.store.visits|
  {
    w.store.visits[VisitIndex(w.store.visits, id)]
  }

  /** A fresh operator event for a stored visit with no call in flight. */
  predicate Ready(w: World, id: string, core: Core) {
    && VisitIndex(w.store.visits, id) < |w.store.visits| && id !in w.inflight
    && NewEvent(w, core) && core.localTransactionId == Some(id)
  }

  predicate NewEvent(w: World, core: Core) {
    core.id !in Ids(w.log) && core.key.priority != Low
  }

  function CreationDependency(v: Visit): seq<Id> {
    if v.eventIds == [] then [] else [v.eventIds[0]]
  }

  /** Random event ids are taken to be fresh; everything else here is what the code checks or what its
      control flow guarantees. */
  predicate Enabled(c: Config, w: World, step: Step) {
    match step
    case Produce(_) => true
    case AllocateId(_, _) => true
    case OpenVisit(id, _, core) =>
      id in w.reserved && NewEvent(w, core) && core.localTransactionId == Some(id)
      && core.eventType == "LOCAL_TRANSACTION_CREATED" && core.dependsOn == []
    case CaptureGross(id, milli, core) =>
      Ready(w, id, core) && core.dependsOn == CreationDependency(VisitAt(w, id))
    case CaptureTare(id, milli, core) =>
      Ready(w, id, core) && core.dependsOn == CreationDependency(VisitAt(w, id))
      && Visits.CaptureTare(VisitAt(w, id), milli).Ok?
    case CompleteVisit(id, core) =>
      Ready(w, id, core) && core.dependsOn == CreationDependency(VisitAt(w, id))
      && Visits.Complete(VisitAt(w, id)).Ok?
    case AttachEvent(id, core) => Ready(w, id, core) && core.dependsOn == []
    case PauseVisit(id) => VisitIndex(w.store.visits, id) < |w.store.visits| && id !in w.inflight
    case SaveVisit(id) => id in w.inflight
    case LoseVisit(id) => id in w.inflight
    case BeginTick => w.phase.Idle?
    case RecoverRow(id) =>
      w.phase.Recovering? && var i := IndexOf(w.store.events, id); i < |w.store.events| && w.store.events[i].status == Syncing
    case SelectBatch(_) => w.phase.Recovering? && WithStatus(w.store.events, Syncing) == []
    case MarkRow => w.phase.Marking? && w.phase.next < |w.phase.batch|
    case Send(_) => w.phase.Marking? && w.phase.next == |w.phase.batch|
    case AckRow(_) => w.phase.Acking? && w.phase.next < |w.phase.batch|
    case NoteConflict(id) => w.phase.Acking? && id in w.phase.acks && w.phase.acks[id] == Conflict
    case Raise => w.phase.Acking?
    case EndAcks => w.phase.Acking? && w.phase.next == |w.phase.batch|
    case FailRow(_) => w.phase.Failing? && w.phase.next < |w.phase.batch|
    case EndFails => w.phase.Failing? && w.phase.next == |w.phase.batch|
    case Abandon => true
    case Crash => true
    case Housekeep => true
  }

  function PhaseAfter(c: Config, w: World, step: Step): Phase
    requires Enabled(c, w, step)
  {
    match step
    case BeginTick => Recovering
    case SelectBatch(now) =>
      var batch := Batch(w.store.events, now, c.batchSize);
      if batch == [] then Idle else Marking(batch, 0)
    case MarkRow => Marking(w.phase.batch, w.phase.next + 1)
    case Send(d) =>
      (match Deliver(w.backend, Cores(w.phase.batch), d).1
       case None => Failing(w.phase.batch, 0)
       case Some(acks) => Acking(w.phase.batch, acks, 0))
    case AckRow(_) => Acking(w.phase.batch, w.phase.acks, w.phase.next + 1)
    case Raise => Failing(w.phase.batch, 0)
    case FailRow(_) => Failing(w.phase.batch, w.phase.next + 1)
    case EndAcks => Idle
    case EndFails => Idle
    case Abandon => Idle
    case Crash => Idle
    case _ => w.phase
  }

  /** The visit row an operator call will store once its event is queued. */
  function InflightAfter(c: Config, w: World, step: Step): map<string, Visit>
    requires Enabled(c, w, step)
  {
    match step
    case OpenVisit(id, required, core) => w.inflight[id := Visits.Attach(Visits.Opened(id, required), core.id)]
    case CaptureGross(id, milli, core) => w.inflight[id := Visits.Attach(Visits.CaptureGross(VisitAt(w, id), milli), core.id)]
    case CaptureTare(id, milli, core) => w.inflight[id := Visits.Attach(Visits.CaptureTare(VisitAt(w, id), milli).value, core.id)]
    case CompleteVisit(id, core) => w.inflight[id := Visits.Attach(Visits.Complete(VisitAt(w, id)).value, core.id)]
    case AttachEvent(id, core) => w.inflight[id := Visits.Attach(VisitAt(w, id), core.id)]
    case SaveVisit(id) => w.inflight - {id}
    case LoseVisit(id) => w.inflight - {id}
    case Crash => map[]
    case _ => w.inflight
  }

  function VisitsAfter(c: Config, w: World, step: Step): seq<Visit>
    requires Enabled(c, w, step)
  {
    match step
    case SaveVisit(id) => UpsertVisit(w.store, w.inflight[id]).visits
    case PauseVisit(id) => UpsertVisit(w.store, Visits.Pause(VisitAt(w, id))).visits
    case _ => w.store.visits
  }

  function NewId(w: World, code: string, iso: string): string {
    var day := LocalIds.DayKey(iso);
    LocalIds.Format(LocalIds.Compact(code), day, NextSequence(w.store, day))
  }

  function Do(c: Config, w: World, step: Step): World
    requires Enabled(c, w, step)
  {
    var op := OpOf(c, w, step);
    World(
      Store(Applied(w.store.events, op),
            VisitsAfter(c, w, step),
            if step.AllocateId? then TakeSequence(w.store, LocalIds.DayKey(step.iso)).counters else w.store.counters,
            if step.NoteConflict? then AddConflict(w.store, step.id).conflicts else w.store.conflicts),
      if step.Send? then Deliver(w.backend, Cores(w.phase.batch), step.delivery).0 else w.backend,
      PhaseAfter(c, w, step),
      (match step
       case AllocateId(code, iso) => w.reserved + {NewId(w, code, iso)}
       case OpenVisit(id, _, _) => w.reserved - {id}
       case Crash => {}
       case _ => w.reserved),
      InflightAfter(c, w, step),
      if op.Append? then w.log + [op.core] else w.log,
      w.dropped + DroppedBy(w.store.events, op),
      if step.AllocateId? then w.issued + [NewId(w, step.code, step.iso)] else w.issued)
  }

  // ---- runs ----

  ghost predicate Runs(c: Config, w: World, steps: seq<Step>)
    decreases |steps|
  {
    steps == [] || (Enabled(c, w, steps[0]) && Runs(c, Do(c, w, steps[0]), steps[1..]))
  }

  ghost function End(c: Config, w: World, steps: seq<Step>): World
    requires Runs(c, w, steps)
    decreases |steps|
  {
    if steps == [] then w else End(c, Do(c, w, steps[0]), steps[1..])
  }

  lemma {:induction false} RunsConcat(c: Config, w: World, a: seq<Step>, b: seq<Step>)
    requires Runs(c, w, a) && Runs(c, End(c, w, a), b)
    ensures Runs(c, w, a + b) && End(c, w, a + b) == End(c, End(c, w, a), b)
    decreases |a|
  {
    if a == [] {
      assert a + b == b;
    } else {
      assert (a + b)[0] == a[0] && (a + b)[1..] == a[1..] + b;
      RunsConcat(c, Do(c, w, a[0]), a[1..], b);
    }
  }

  lemma RunsOne(c: Config, w: World, step: Step)
    requires Enabled(c, w, step)
    ensures Runs(c, w, [step]) && End(c, w, [step]) == Do(c, w, step)
  {
    assert [step][1..] == [];
    assert Runs(c, Do(c, w, step), []);
  }
}
