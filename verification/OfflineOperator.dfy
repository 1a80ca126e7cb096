/**
 The offline operator (apps/edge/src/offline/operator.ts): opening a visit, weighing it in and out,
 completing it, and attaching plate readings, while the central system is out of reach. The policy
 decision, the scale reading, random ids and clocks are inputs.
 */
module OfflineOperators {
  import opened Wrappers
  import opened Priority
  import opened EdgeTypes
  import opened StoreSpec
  import opened StoreLookup
  import opened SyncWorld
  import opened SyncSafety
  import opened VisitSafety
  import opened TickSpec
  import opened LocalStores
  import LocalIds
  import NetWeight
  import Visits

  datatype OperatorError = NotAllowed | NotFound | NoStableWeight | Refused(why: Visits.VisitError)

  /** What a call's envelope brings with it: a random id, a body and the clock. */
  datatype Slip = Slip(eventId: Id, payload: string, timestamp: int, receivedAt: int)

  datatype Kind = Gross | Tare

  // ---- specification ----

  /** Operator envelopes never carry a sequence. */
  function EventOf(slip: Slip, eventType: string, priority: Priority, visit: Option<string>, dependsOn: seq<Id>): Core {
    Core(slip.eventId, eventType, slip.payload, SortKey(priority, None, slip.timestamp, slip.receivedAt), visit, dependsOn)
  }

  /** Queue the event, then store the row with the event attached: two writes. */
  function QueueAndStore(s: Store, core: Core, row: Visit): Store {
    UpsertVisit(Enqueue(s, core), Visits.Attach(row, core.id))
  }

  function NextId(s: Store, code: string, iso: string): string {
    LocalIds.Format(LocalIds.Compact(code), LocalIds.DayKey(iso), NextSequence(s, LocalIds.DayKey(iso)))
  }

  function CreatedEvent(slip: Slip, id: string): Core {
    EventOf(slip, "LOCAL_TRANSACTION_CREATED", Critical, Some(id), [])
  }

  function Create(s: Store, allowed: bool, code: string, iso: string, required: bool, slip: Slip)
    : (Store, Result<Visit, OperatorError>)
  {
    if !allowed then (s, Err(NotAllowed))
    else
      var id := NextId(s, code, iso);
      var row := Visits.Opened(id, required);
      (QueueAndStore(TakeSequence(s, LocalIds.DayKey(iso)), CreatedEvent(slip, id), row),
       Ok(Visits.Attach(row, slip.eventId)))
  }

  function Weighed(v: Visit, kind: Kind, milli: int): Result<Visit, Visits.VisitError> {
    if kind.Gross? then Ok(Visits.CaptureGross(v, milli)) else Visits.CaptureTare(v, milli)
  }

  function WeighmentEvent(slip: Slip, v: Visit): Core {
    EventOf(slip, "DEVICE_WEIGHT_READING", Critical, Some(v.id), CreationDependency(v))
  }

  function Capture(s: Store, allowed: bool, id: string, kind: Kind, reading: Option<int>, slip: Slip)
    : (Store, Result<Visit, OperatorError>)
  {
    if !allowed then (s, Err(NotAllowed))
    else
      match FindVisit(s, id)
      case None => (s, Err(NotFound))
      case Some(v) =>
        if reading.None? then (s, Err(NoStableWeight))
        else
          match Weighed(v, kind, reading.value)
          case Err(e) => (s, Err(Refused(e)))
          case Ok(row) => (QueueAndStore(s, WeighmentEvent(slip, v), row), Ok(Visits.Attach(row, slip.eventId)))
  }

  function CompletionEvent(slip: Slip, v: Visit): Core {
    EventOf(slip, "LOCAL_TRANSACTION_STATE", Critical, Some(v.id), CreationDependency(v))
  }

  function Complete(s: Store, allowed: bool, id: string, slip: Slip): (Store, Result<Visit, OperatorError>) {
    match FindVisit(s, id)
    case None => (s, Err(NotFound))
    case Some(v) =>
      if !allowed then (UpsertVisit(s, Visits.Pause(v)), Err(NotAllowed))
      else
        match Visits.Complete(v)
        case Err(e) => (s, Err(Refused(e)))
        case Ok(row) => (QueueAndStore(s, CompletionEvent(slip, v), row), Ok(Visits.Attach(row, slip.eventId)))
  }

  function PlateEvent(slip: Slip, visit: Option<string>): Core {
    EventOf(slip, "DEVICE_ANPR_DETECTION", High, visit, [])
  }

  /** The reading is queued before the visit it names is looked up, so an unknown visit leaves it queued. */
  function CaptureAnpr(s: Store, allowed: bool, visit: Option<string>, slip: Slip): (Store, Result<Id, OperatorError>) {
    if !allowed then (s, Err(NotAllowed))
    else
      var queued := Enqueue(s, PlateEvent(slip, visit));
      if visit.None? then (queued, Ok(slip.eventId))
      else
        match FindVisit(queued, visit.value)
        case None => (queued, Err(NotFound))
        case Some(v) => (UpsertVisit(queued, Visits.Attach(v, slip.eventId)), Ok(slip.eventId))
  }

  /** The operator names each event's priority itself, and always the one its type has anyway. */
  lemma PrioritiesAgree(slip: Slip, id: string, v: Visit, visit: Option<string>)
    ensures forall core | core in {CreatedEvent(slip, id), WeighmentEvent(slip, v), CompletionEvent(slip, v), PlateEvent(slip, visit)} ::
      core.key.priority == PriorityForEventType(core.eventType)
  {
  }

  // ---- every call is a run of the protocol ----

  lemma SaveDone(c: Config, w: World, id: string)
    requires id in w.inflight
    ensures var w' := Do(c, w, SaveVisit(id));
      && w'.store == UpsertVisit(w.store, w.inflight[id]) && w'.inflight == w.inflight - {id}
      && w'.backend == w.backend && w'.phase == w.phase
  {
  }

  lemma AllocateDone(c: Config, w: World, code: string, iso: string)
    ensures var w' := Do(c, w, AllocateId(code, iso));
      && w'.store == TakeSequence(w.store, LocalIds.DayKey(iso)) && w'.inflight == w.inflight && w'.log == w.log
      && w'.backend == w.backend && w'.phase == w.phase && NextId(w.store, code, iso) in w'.reserved
  {
  }

  /** Queueing a fresh operator event writes what Enqueue writes and leaves the row to be stored. */
  lemma QueueDone(c: Config, w: World, step: Step, row: Visit)
    requires Conserved(w) && Enabled(c, w, step) && (step.OpenVisit? || EditsVisit(step))
    requires InflightAfter(c, w, step) == w.inflight[step.id := row] && NewEvent(w, step.core)
    ensures var w' := Do(c, w, step);
      && w'.store == Enqueue(w.store, step.core) && w'.inflight == w.inflight[step.id := row]
      && w'.backend == w.backend && w'.phase == w.phase
  {
    NewEventAppends(c, w, step.core);
  }

  /** Queue, then save: the two writes of a successful call, as two steps of the protocol. */
  lemma QueueAndSaveRun(c: Config, w: World, step: Step, row: Visit) returns (w': World)
    requires Conserved(w) && Enabled(c, w, step) && (step.OpenVisit? || EditsVisit(step))
    requires NewEvent(w, step.core) && step.id !in w.inflight
    requires InflightAfter(c, w, step) == w.inflight[step.id := Visits.Attach(row, step.core.id)]
    ensures Reaches(c, w, w') && w'.store == QueueAndStore(w.store, step.core, row)
    ensures w'.inflight == w.inflight && w'.backend == w.backend && w'.phase == w.phase
  {
    hide Do, Enabled, InflightAfter, Reaches, UpsertVisit, Enqueue;
    QueueDone(c, w, step, Visits.Attach(row, step.core.id));
    var queued := Do(c, w, step);
    ReachesOne(c, w, step);
    SaveEnabled(c, queued, step.id);
    SaveDone(c, queued, step.id);
    w' := Do(c, queued, SaveVisit(step.id));
    ReachesOne(c, queued, SaveVisit(step.id));
    ReachesOn(c, w, queued, w');
    assert w.inflight[step.id := Visits.Attach(row, step.core.id)] - {step.id} == w.inflight;
  }

  lemma SaveEnabled(c: Config, w: World, id: string)
    requires id in w.inflight
    ensures Enabled(c, w, SaveVisit(id))
  {
  }

  /** Opening a visit is a run of protocol steps with the same effect on the store. */
  lemma CreateIsRun(c: Config, w: World, allowed: bool, code: string, iso: string, required: bool, slip: Slip) returns (w': World)
    requires Inv(c, w) && VisitsOk(w) && slip.eventId !in Ids(w.log)
    ensures Reaches(c, w, w') && w'.store == Create(w.store, allowed, code, iso, required, slip).0
    ensures w'.inflight == w.inflight && w'.backend == w.backend && w'.phase == w.phase
  {
    if !allowed {
      w' := w;
      ReachesSelf(c, w);
    } else {
      hide Inv, VisitsOk, Do, Reaches, QueueAndStore, NextId, TakeSequence;
      var id := NextId(w.store, code, iso);
      StepKeeps(c, w, AllocateId(code, iso));
      NextIdUnused(w, code, iso);
      AllocateDone(c, w, code, iso);
      var taken := Do(c, w, AllocateId(code, iso));
      ReachesOne(c, w, AllocateId(code, iso));
      InvConserves(c, taken);
      w' := QueueAndSaveRun(c, taken, OpenVisit(id, required, CreatedEvent(slip, id)), Visits.Opened(id, required));
      ReachesOn(c, w, taken, w');
    }
  }

  lemma InvConserves(c: Config, w: World)
    requires Inv(c, w)
    ensures Conserved(w)
  {
  }

  lemma NextIdUnused(w: World, code: string, iso: string)
    requires VisitsOk(w)
    ensures NextId(w.store, code, iso) !in w.inflight
  {
    NewIdIsNew(w, code, iso);
  }

  lemma FoundVisit(w: World, id: string)
    requires VisitsOk(w) && FindVisit(w.store, id).Some?
    ensures VisitIndex(w.store.visits, id) < |w.store.visits|
    ensures VisitAt(w, id) == FindVisit(w.store, id).value && VisitAt(w, id).id == id
  {
  }

  /** Weighing a visit with no other call of its own under way is a run of protocol steps. */
  lemma CaptureIsRun(c: Config, w: World, allowed: bool, id: string, kind: Kind, reading: Option<int>, slip: Slip)
    returns (w': World)
    requires Inv(c, w) && VisitsOk(w) && slip.eventId !in Ids(w.log) && id !in w.inflight
    ensures Reaches(c, w, w') && w'.store == Capture(w.store, allowed, id, kind, reading, slip).0
    ensures w'.inflight == w.inflight && w'.backend == w.backend && w'.phase == w.phase
  {
    hide Reaches, QueueAndStore, VisitsOk, Visits.CaptureTare;
    if Capture(w.store, allowed, id, kind, reading, slip).1.Err? {
      w' := w;
      ReachesSelf(c, w);
    } else {
      FoundVisit(w, id);
      var v := VisitAt(w, id);
      var core := WeighmentEvent(slip, v);
      var step := if kind.Gross? then CaptureGross(id, reading.value, core) else CaptureTare(id, reading.value, core);
      w' := QueueAndSaveRun(c, w, step, Weighed(v, kind, reading.value).value);
    }
  }

  lemma PauseDone(c: Config, w: World, id: string)
    requires VisitIndex(w.store.visits, id) < |w.store.visits| && id !in w.inflight
    ensures var w' := Do(c, w, PauseVisit(id));
      && w'.store == UpsertVisit(w.store, Visits.Pause(VisitAt(w, id))) && w'.inflight == w.inflight
      && w'.backend == w.backend && w'.phase == w.phase
  {
  }

  /** Completing, or pausing, a visit is a run of protocol steps. */
  lemma CompleteIsRun(c: Config, w: World, allowed: bool, id: string, slip: Slip) returns (w': World)
    requires Inv(c, w) && VisitsOk(w) && slip.eventId !in Ids(w.log) && id !in w.inflight
    ensures Reaches(c, w, w') && w'.store == Complete(w.store, allowed, id, slip).0
    ensures w'.inflight == w.inflight && w'.backend == w.backend && w'.phase == w.phase
  {
    hide Reaches, QueueAndStore, VisitsOk, Do, UpsertVisit, DeliveredOk, NoInvention, PhaseOk, RowsOk;
    var r := Complete(w.store, allowed, id, slip);
    if FindVisit(w.store, id).None? {
      w' := w;
      ReachesSelf(c, w);
    } else {
      FoundVisit(w, id);
      if !allowed {
        PauseDone(c, w, id);
        w' := Do(c, w, PauseVisit(id));
        ReachesOne(c, w, PauseVisit(id));
      } else if r.1.Err? {
        w' := w;
        ReachesSelf(c, w);
      } else {
        var v := VisitAt(w, id);
        w' := QueueAndSaveRun(c, w, CompleteVisit(id, CompletionEvent(slip, v)), Visits.Complete(v).value);
      }
    }
  }

  lemma ProduceDone(c: Config, w: World, core: Core)
    ensures var w' := Do(c, w, Produce(core));
      && w'.store == Enqueue(w.store, core) && w'.inflight == w.inflight && w'.backend == w.backend && w'.phase == w.phase
  {
  }

  lemma EnqueueKeepsVisits(s: Store, core: Core)
    ensures Enqueue(s, core).visits == s.visits
  {
  }

  /** A plate reading is a run of protocol steps, whether or not it names a visit that exists. */
  lemma AnprIsRun(c: Config, w: World, allowed: bool, visit: Option<string>, slip: Slip) returns (w': World)
    requires Inv(c, w) && VisitsOk(w) && slip.eventId !in Ids(w.log) && (visit.Some? ==> visit.value !in w.inflight)
    ensures Reaches(c, w, w') && w'.store == CaptureAnpr(w.store, allowed, visit, slip).0
    ensures w'.inflight == w.inflight && w'.backend == w.backend && w'.phase == w.phase
  {
    hide Reaches, VisitsOk, Enqueue, UpsertVisit;
    var core := PlateEvent(slip, visit);
    EnqueueKeepsVisits(w.store, core);
    if !allowed {
      w' := w;
      ReachesSelf(c, w);
    } else if visit.None? || FindVisit(w.store, visit.value).None? {
      ProduceDone(c, w, core);
      w' := Do(c, w, Produce(core));
      ReachesOne(c, w, Produce(core));
    } else {
      FoundVisit(w, visit.value);
      w' := QueueAndSaveRun(c, w, AttachEvent(visit.value, core), VisitAt(w, visit.value));
    }
  }

  // ---- what a successful weighing leaves behind ----

  /** Afterwards the row is found, with the event attached, and every other visit is found as before. */
  lemma StoredRow(s: Store, core: Core, row: Visit, id: string)
    ensures FindVisit(QueueAndStore(s, core, row), id) ==
      if id == row.id then Some(Visits.Attach(row, core.id)) else FindVisit(s, id)
  {
    EnqueueKeepsVisits(s, core);
    UpsertChangesOne(Enqueue(s, core), Visits.Attach(row, core.id), id);
  }

  lemma QueuedLookup(s: Store, core: Core, row: Visit)
    requires UniqueIds(s.events) && Lookup(s.events, core.id) == None && core.key.priority != Low
    ensures Lookup(QueueAndStore(s, core, row).events, core.id) == Some(Fresh(core))
  {
    var queued := Enqueue(s, core);
    AppliedRow(s.events, Append(core), core.id);
    UniqueAfter(s.events, Append(core));
    assert queued.events == Applied(s.events, Append(core));
    AppliedRow(queued.events, Rewrite, core.id);
    assert UpsertVisit(queued, Visits.Attach(row, core.id)).events == Applied(queued.events, Rewrite);
  }

  /** The call's event is stored, never tried and due at once, with what the call brought with it. */
  ghost predicate Queued(s: Store, slip: Slip, eventType: string, visit: string, dependsOn: seq<Id>) {
    var r := Lookup(s.events, slip.eventId);
    && r.Some? && r.value.core.eventType == eventType && r.value.core.payload == slip.payload
    && r.value.core.localTransactionId == Some(visit) && r.value.core.dependsOn == dependsOn
    && r.value.core.key.timestamp == slip.timestamp && r.value.core.key.receivedAt == slip.receivedAt
    && r.value.core.key.sequence == None && r.value.core.key.priority == Critical
    && r.value.status == Pending && r.value.retryCount == 0 && r.value.nextRetryAt == None
    && r.value.firstFailureAt == None && r.value.syncedAt == None
  }

  /** A store a call can start from: the random id is new. */
  ghost predicate Accepts(s: Store, slip: Slip) {
    UniqueIds(s.events) && Lookup(s.events, slip.eventId) == None
  }

  /** The first event of the visit, if it has one. */
  function FirstEvent(v: Visit): seq<Id> {
    v.eventIds[..Min(1, |v.eventIds|)]
  }

  /** Opening stores an identified visit without weights under the next number of the day, and its event;
      every other visit is as it was. */
  lemma CreatedStored(s: Store, code: string, iso: string, required: bool, slip: Slip, other: string)
    requires Accepts(s, slip)
    ensures var (s', r) := Create(s, true, code, iso, required, slip);
      var id := LocalIds.Format(LocalIds.Compact(code), LocalIds.DayKey(iso), NextSequence(s, LocalIds.DayKey(iso)));
      && r == Ok(Visit(id, Identified, false, None, None, None, false, required, [slip.eventId]))
      && FindVisit(s', id) == Some(r.value)
      && (other != id ==> FindVisit(s', other) == FindVisit(s, other))
      && NextSequence(s', LocalIds.DayKey(iso)) == NextSequence(s, LocalIds.DayKey(iso)) + 1
      && Queued(s', slip, "LOCAL_TRANSACTION_CREATED", id, [])
  {
    hide QueueAndStore;
    var day := LocalIds.DayKey(iso);
    var taken, id := TakeSequence(s, day), NextId(s, code, iso);
    AppliedRow(s.events, Rewrite, slip.eventId);
    UniqueAfter(s.events, Rewrite);
    assert taken.events == Applied(s.events, Rewrite);
    StoredRow(taken, CreatedEvent(slip, id), Visits.Opened(id, required), id);
    StoredRow(taken, CreatedEvent(slip, id), Visits.Opened(id, required), other);
    QueuedLookup(taken, CreatedEvent(slip, id), Visits.Opened(id, required));
    CountersKept(taken, CreatedEvent(slip, id), Visits.Opened(id, required));
    assert [] + [slip.eventId] == [slip.eventId];
  }

  lemma CountersKept(s: Store, core: Core, row: Visit)
    ensures QueueAndStore(s, core, row).counters == s.counters
  {
  }

  /** A gross reading of a stored visit is always taken: the visit then carries its weight, to the thousandth,
      and the queued weighment, and is otherwise as it was; an earlier tare and net are not revised. */
  lemma GrossStored(s: Store, id: string, milli: int, slip: Slip, other: string)
    requires FindVisit(s, id).Some? && Accepts(s, slip)
    ensures var v := FindVisit(s, id).value; var (s', r) := Capture(s, true, id, Gross, Some(milli), slip);
      && r.Ok? && r.value.gross.Some? && NetWeight.KgToMilli(r.value.gross.value) == Ok(milli)
      && r.value == v.(gross := r.value.gross, localState := GrossCaptured, eventIds := v.eventIds + [slip.eventId])
      && FindVisit(s', id) == Some(r.value) && (other != id ==> FindVisit(s', other) == FindVisit(s, other))
      && Queued(s', slip, "DEVICE_WEIGHT_READING", id, FirstEvent(v))
  {
    hide QueueAndStore, NetWeight.KgToMilli, NetWeight.MilliToKg;
    var v := FindVisit(s, id).value;
    NetWeight.ParseOfPrint(milli);
    StoredRow(s, WeighmentEvent(slip, v), Visits.CaptureGross(v, milli), id);
    StoredRow(s, WeighmentEvent(slip, v), Visits.CaptureGross(v, milli), other);
    QueuedLookup(s, WeighmentEvent(slip, v), Visits.CaptureGross(v, milli));
  }

  /** A tare is accepted exactly when the visit has a gross the tare does not exceed; otherwise nothing
      changes and the reason is reported. The row stored and returned carries the tare and the exact net and
      ends with the queued weighment, which waits for the visit's first event. */
  lemma TareStored(s: Store, id: string, milli: int, slip: Slip, other: string)
    requires FindVisit(s, id).Some? && Visits.WeightsOk(FindVisit(s, id).value) && Accepts(s, slip)
    ensures var v := FindVisit(s, id).value; var (s', r) := Capture(s, true, id, Tare, Some(milli), slip);
      && (r.Ok? <==> v.gross.Some? && milli <= NetWeight.KgToMilli(v.gross.value).value)
      && (r.Err? ==> s' == s && r.error == Refused(if v.gross.None? then Visits.GrossMissing else Visits.TareExceedsGross))
      && (r.Ok? ==>
            && Visits.NetExact(r.value) && NetWeight.KgToMilli(r.value.tare.value) == Ok(milli)
            && r.value == v.(tare := r.value.tare, net := r.value.net, tareExceedsGross := false,
                             localState := TareCaptured, eventIds := v.eventIds + [slip.eventId])
            && FindVisit(s', id) == Some(r.value) && (other != id ==> FindVisit(s', other) == FindVisit(s, other))
            && Queued(s', slip, "DEVICE_WEIGHT_READING", id, FirstEvent(v)))
  {
    hide Visits.NetExact, Visits.WeightsOk, NetWeight.KgToMilli, QueueAndStore, Visits.CaptureTare;
    var v := FindVisit(s, id).value;
    Visits.CaptureTareExact(v, milli);
    if Visits.CaptureTare(v, milli).Ok? {
      var row := Visits.CaptureTare(v, milli).value;
      StoredRow(s, WeighmentEvent(slip, v), row, id);
      StoredRow(s, WeighmentEvent(slip, v), row, other);
      QueuedLookup(s, WeighmentEvent(slip, v), row);
      AttachKeepsExact(row, slip.eventId);
    }
  }

  /** A visit is completed exactly when it has gross, tare and net and the tare did not exceed; it is then
      marked so, with its weights as they were, and its completion is queued. */
  lemma CompletedStored(s: Store, id: string, slip: Slip, other: string)
    requires FindVisit(s, id).Some? && Accepts(s, slip)
    ensures var v := FindVisit(s, id).value; var (s', r) := Complete(s, true, id, slip);
      && (r.Ok? <==> v.gross.Some? && v.tare.Some? && v.net.Some? && !v.tareExceedsGross)
      && (r.Err? ==> s' == s && r.error == Refused(Visits.NotReady))
      && (r.Ok? ==>
            && r.value == v.(localState := LocalCompleted, locallyCompleted := true, eventIds := v.eventIds + [slip.eventId])
            && FindVisit(s', id) == Some(r.value) && (other != id ==> FindVisit(s', other) == FindVisit(s, other))
            && Queued(s', slip, "LOCAL_TRANSACTION_STATE", id, FirstEvent(v)))
  {
    hide QueueAndStore;
    var v := FindVisit(s, id).value;
    if Visits.Complete(v).Ok? {
      var row := Visits.Complete(v).value;
      StoredRow(s, CompletionEvent(slip, v), row, id);
      StoredRow(s, CompletionEvent(slip, v), row, other);
      QueuedLookup(s, CompletionEvent(slip, v), row);
    }
  }

  /** A completion the policy refuses is reported as refused, queues nothing, and leaves the visit paused and
      otherwise as it was. */
  lemma RefusalPauses(s: Store, id: string, slip: Slip, other: string)
    requires FindVisit(s, id).Some?
    ensures var v := FindVisit(s, id).value; var (s', r) := Complete(s, false, id, slip);
      && r == Err(NotAllowed) && s'.events == Prune(s.events)
      && FindVisit(s', id) == Some(v.(localState := PausedApproval))
      && (other != id ==> FindVisit(s', other) == FindVisit(s, other))
  {
    var v := FindVisit(s, id).value;
    UpsertChangesOne(s, Visits.Pause(v), id);
    UpsertChangesOne(s, Visits.Pause(v), other);
  }

  /** A plate reading is queued for the visit it names, whether there is one or not; if there is, the event is
      attached to it and nothing else about it changes. */
  lemma PlateStored(s: Store, visit: string, slip: Slip, other: string)
    requires Accepts(s, slip)
    ensures var found := FindVisit(s, visit); var (s', r) := CaptureAnpr(s, true, Some(visit), slip);
      var e := Lookup(s'.events, slip.eventId);
      && r == (if found.Some? then Ok(slip.eventId) else Err(NotFound))
      && e.Some? && e.value.core == Core(slip.eventId, "DEVICE_ANPR_DETECTION", slip.payload,
                                         SortKey(High, None, slip.timestamp, slip.receivedAt), Some(visit), [])
      && (found.Some? ==> FindVisit(s', visit) == Some(found.value.(eventIds := found.value.eventIds + [slip.eventId])))
      && (other != visit || found.None? ==> FindVisit(s', other) == FindVisit(s, other))
  {
    hide QueueAndStore;
    var core, found := PlateEvent(slip, Some(visit)), FindVisit(s, visit);
    PlateQueued(s, visit, slip);
    if found.Some? {
      QueuedLookup(s, core, found.value);
      StoredRow(s, core, found.value, visit);
      StoredRow(s, core, found.value, other);
    } else {
      EnqueueKeepsVisits(s, core);
      AppliedRow(s.events, Append(core), core.id);
    }
  }

  lemma PlateQueued(s: Store, visit: string, slip: Slip)
    ensures var core, found := PlateEvent(slip, Some(visit)), FindVisit(s, visit);
      CaptureAnpr(s, true, Some(visit), slip) == if found.Some? then (QueueAndStore(s, core, found.value), Ok(slip.eventId))
                                                 else (Enqueue(s, core), Err(NotFound))
  {
    hide Enqueue, UpsertVisit;
    EnqueueKeepsVisits(s, PlateEvent(slip, Some(visit)));
  }

  /** Which call is refused why, and that a refused call changes nothing, but for the pause and for the plate
      reading that names no stored visit. */
  lemma Refusals(s: Store, allowed: bool, id: string, kind: Kind, reading: Option<int>, slip: Slip, code: string, iso: string, required: bool)
    ensures var (s', r) := Create(s, allowed, code, iso, required, slip);
      (r.Err? <==> !allowed) && (r.Err? ==> s' == s && r.error == NotAllowed)
    ensures var (s', r) := Capture(s, allowed, id, kind, reading, slip);
      && (r.Err? ==> s' == s)
      && (r == Err(NotAllowed) <==> !allowed)
      && (r == Err(NotFound) <==> allowed && FindVisit(s, id).None?)
      && (r == Err(NoStableWeight) <==> allowed && FindVisit(s, id).Some? && reading.None?)
    ensures var (s', r) := Complete(s, allowed, id, slip);
      && (r == Err(NotFound) <==> FindVisit(s, id).None?)
      && (r == Err(NotAllowed) <==> FindVisit(s, id).Some? && !allowed)
      && (r.Err? && r.error != NotAllowed ==> s' == s)
    ensures var (s', r) := CaptureAnpr(s, allowed, Some(id), slip);
      (r == Err(NotAllowed) <==> !allowed) && (r == Err(NotAllowed) ==> s' == s)
  {
    hide QueueAndStore, UpsertVisit, Enqueue;
  }

  lemma AttachKeepsExact(v: Visit, id: Id)
    requires Visits.NetExact(v)
    ensures Visits.NetExact(Visits.Attach(v, id))
  {
  }

  // ---- the object ----

  class OfflineOperator {
    const store: LocalStore

    constructor (store: LocalStore)
      ensures this.store == store
    {
      this.store := store;
    }

    /** Draws an id, queues the creation event, stores the row. */
    method CreateTransaction(allowed: bool, code: string, iso: string, approvalRequired: bool, slip: Slip)
      returns (r: Result<Visit, OperatorError>)
      requires store.Valid()
      modifies store
      ensures store.Valid()
      ensures (store.Contents(), r) == Create(old(store.Contents()), allowed, code, iso, approvalRequired, slip)
    {
      if !allowed {
        return Err(NotAllowed);
      }
      var id := store.NextLocalTransactionId(code, iso);
      var row := Visits.Opened(id, approvalRequired);
      row := QueueAndUpsert(CreatedEvent(slip, id), row);
      r := Ok(row);
    }

    method QueueAndUpsert(core: Core, row: Visit) returns (stored: Visit)
      requires store.Valid() && core.key.priority != Low
      modifies store
      ensures store.Valid() && store.Contents() == QueueAndStore(old(store.Contents()), core, row)
      ensures stored == Visits.Attach(row, core.id)
    {
      var queued := store.Enqueue(core);
      stored := row.(eventIds := row.eventIds + [queued.value.core.id]);
      store.UpsertTransaction(stored);
    }

    method CaptureWeighment(allowed: bool, id: string, kind: Kind, reading: Option<int>, slip: Slip)
      returns (r: Result<Visit, OperatorError>)
      requires store.Valid()
      modifies store
      ensures store.Valid()
      ensures (store.Contents(), r) == Capture(old(store.Contents()), allowed, id, kind, reading, slip)
    {
      if !allowed {
        return Err(NotAllowed);
      }
      var found := store.GetTransaction(id);
      if found.None? {
        return Err(NotFound);
      }
      if reading.None? {
        return Err(NoStableWeight);
      }
      var row, decimal := found.value, NetWeight.MilliToKg(reading.value);
      if kind.Gross? {
        row := row.(gross := Some(decimal), localState := GrossCaptured);
      } else {
        if row.gross.None? {
          return Err(Refused(Visits.GrossMissing));
        }
        var net := NetWeight.CalculateNetWeight(row.gross.value, decimal);
        if net.Err? {
          return Err(Refused(Visits.BadWeight));
        }
        if net.value.tareExceedsGross {
          return Err(Refused(Visits.TareExceedsGross));
        }
        row := row.(tare := Some(decimal), net := Some(net.value.netAsDecimal),
                    tareExceedsGross := net.value.tareExceedsGross, localState := TareCaptured);
      }
      row := QueueAndUpsert(WeighmentEvent(slip, found.value), row);
      r := Ok(row);
    }

    /** A refused completion pauses the visit in the store before it reports the refusal. */
    method CompleteTransaction(allowed: bool, id: string, slip: Slip) returns (r: Result<Visit, OperatorError>)
      requires store.Valid()
      modifies store
      ensures store.Valid()
      ensures (store.Contents(), r) == Complete(old(store.Contents()), allowed, id, slip)
    {
      var found := store.GetTransaction(id);
      if found.None? {
        return Err(NotFound);
      }
      var row := found.value;
      if !allowed {
        row := row.(localState := PausedApproval);
        store.UpsertTransaction(row);
        return Err(NotAllowed);
      }
      if row.gross.None? || row.tare.None? || row.net.None? || row.tareExceedsGross {
        return Err(Refused(Visits.NotReady));
      }
      row := row.(localState := LocalCompleted, locallyCompleted := true);
      row := QueueAndUpsert(CompletionEvent(slip, found.value), row);
      r := Ok(row);
    }

    method CapturePlate(allowed: bool, visit: Option<string>, slip: Slip) returns (r: Result<Id, OperatorError>)
      requires store.Valid()
      modifies store
      ensures store.Valid()
      ensures (store.Contents(), r) == CaptureAnpr(old(store.Contents()), allowed, visit, slip)
    {
      if !allowed {
        return Err(NotAllowed);
      }
      var queued := store.Enqueue(PlateEvent(slip, visit));
      if visit.Some? {
        var found := store.GetTransaction(visit.value);
        if found.None? {
          return Err(NotFound);
        }
        store.UpsertTransaction(found.value.(eventIds := found.value.eventIds + [queued.value.core.id]));
      }
      r := Ok(queued.value.core.id);
    }
  }
}
