/**
 Offline visits in every reachable store: ids never repeat, each visit's events are stored with the
 creation event first, dependencies point backwards, and net weights are exact.
 */
module VisitSafety {
  import opened Wrappers
  import opened Priority
  import opened EdgeTypes
  import opened StoreSpec
  import opened SyncWorld
  import opened StoreLookup
  import opened SyncSafety
  import opened NetWeight
  import LocalIds
  import Visits

  // ---- ids ----

  ghost predicate Drawn(counters: map<string, nat>, id: string, compact: string, day: string, n: nat) {
    '-' !in compact && '-' !in day && day in counters && n <= counters[day] && id == LocalIds.Format(compact, day, n)
  }

  /** The id was built from a number its day's counter has passed. */
  ghost predicate FromCounter(counters: map<string, nat>, id: string) {
    exists compact, day, n :: Drawn(counters, id, compact, day, n)
  }

  ghost predicate IdsOk(w: World) {
    && (forall i, j | 0 <= i < j < |w.issued| :: w.issued[i] != w.issued[j])
    && (forall id | id in w.issued :: FromCounter(w.store.counters, id))
    && (forall id | id in w.reserved || id in w.inflight :: id in w.issued)
    && (forall v | v in w.store.visits :: v.id in w.issued && v.id !in w.reserved)
    && (forall id | id in w.inflight :: id !in w.reserved)
  }

  lemma NewIdIsNew(w: World, code: string, iso: string)
    requires IdsOk(w)
    ensures NewId(w, code, iso) !in w.issued
  {
    var day := LocalIds.DayKey(iso);
    var id, n := NewId(w, code, iso), NextSequence(w.store, day);
    if id in w.issued {
      var compact, day', n' :| Drawn(w.store.counters, id, compact, day', n');
      LocalIds.FormatInjective(LocalIds.Compact(code), day, n, compact, day', n');
      assert false;
    }
  }

  lemma UpsertedRows(s: Store, v: Visit)
    ensures forall x | x in UpsertVisit(s, v).visits :: x == v || x in s.visits
  {
  }

  lemma AllocationKeepsIds(w: World, w': World, code: string, iso: string)
    requires IdsOk(w) && w'.store.visits == w.store.visits && w'.inflight == w.inflight
    requires w'.store.counters == TakeSequence(w.store, LocalIds.DayKey(iso)).counters
    requires w'.issued == w.issued + [NewId(w, code, iso)] && w'.reserved == w.reserved + {NewId(w, code, iso)}
    ensures IdsOk(w')
  {
    NewIdIsNew(w, code, iso);
    var day := LocalIds.DayKey(iso);
    forall id | id in w'.issued ensures FromCounter(w'.store.counters, id) {
      if id in w.issued {
        var compact, day', n' :| Drawn(w.store.counters, id, compact, day', n');
        assert Drawn(w'.store.counters, id, compact, day', n');
      } else {
        assert Drawn(w'.store.counters, id, LocalIds.Compact(code), day, NextSequence(w.store, day));
      }
    }
  }

  lemma DoVisits(c: Config, w: World, step: Step)
    requires Enabled(c, w, step)
    ensures var w' := Do(c, w, step);
      w'.store.visits == VisitsAfter(c, w, step) && w'.inflight == InflightAfter(c, w, step)
  {
  }

  lemma DoIds(c: Config, w: World, step: Step)
    requires Enabled(c, w, step)
    ensures var w' := Do(c, w, step);
      && (step.AllocateId? ==>
            && w'.store.counters == TakeSequence(w.store, LocalIds.DayKey(step.iso)).counters
            && w'.issued == w.issued + [NewId(w, step.code, step.iso)]
            && w'.reserved == w.reserved + {NewId(w, step.code, step.iso)})
      && (!step.AllocateId? ==> w'.store.counters == w.store.counters && w'.issued == w.issued && w'.reserved <= w.reserved)
      && (step.OpenVisit? ==> step.id !in w'.reserved)
  {
    hide OpOf, Applied, DroppedBy, VisitsAfter, InflightAfter, PhaseAfter, NewId, NewEvent;
  }

  lemma InflightIds(w: World)
    requires VisitsOk(w)
    ensures forall id | id in w.inflight :: w.inflight[id].id == id
  {
  }

  lemma IdsKept(c: Config, w: World, step: Step)
    requires VisitsOk(w) && Enabled(c, w, step)
    ensures IdsOk(Do(c, w, step))
  {
    hide Do, OpOf, AllLinked, NewId, NewEvent, FromCounter, TakeSequence;
    var w' := Do(c, w, step);
    DoVisits(c, w, step);
    DoIds(c, w, step);
    if step.AllocateId? {
      AllocationKeepsIds(w, w', step.code, step.iso);
    } else {
      InflightNamed(c, w, step);
      VisitsNamed(c, w, step);
      IdsCarried(w, w');
    }
  }

  /** Without a new id, names only move from reserved to in flight to stored. */
  lemma IdsCarried(w: World, w': World)
    requires IdsOk(w) && w'.issued == w.issued && w'.store.counters == w.store.counters && w'.reserved <= w.reserved
    requires forall id | id in w'.inflight :: id in w.issued && id !in w'.reserved
    requires forall v | v in w'.store.visits :: v.id in w.issued && v.id !in w.reserved
    ensures IdsOk(w')
  {
    hide FromCounter;
  }

  lemma InflightNamed(c: Config, w: World, step: Step)
    requires VisitsOk(w) && Enabled(c, w, step)
    ensures forall id | id in InflightAfter(c, w, step) :: id in w.issued && (id in w.reserved ==> step.OpenVisit? && id == step.id)
  {
    hide AllLinked, NewEvent, FromCounter;
  }

  lemma VisitsNamed(c: Config, w: World, step: Step)
    requires VisitsOk(w) && Enabled(c, w, step)
    ensures forall v | v in VisitsAfter(c, w, step) :: v.id in w.issued && v.id !in w.reserved
  {
    hide NewEvent, FromCounter, Linked;
    InflightIds(w);
    if step.SaveVisit? {
      UpsertedRows(w.store, w.inflight[step.id]);
    } else if step.PauseVisit? {
      UpsertedRows(w.store, Visits.Pause(VisitAt(w, step.id)));
    }
  }

  // ---- links ----

  /** The event id names a stored business event of the visit. */
  ghost predicate OwnEvent(events: seq<Event>, visit: string, id: Id) {
    var r := Lookup(events, id);
    r.Some? && r.value.core.key.priority != Low && r.value.core.localTransactionId == Some(visit)
  }

  ghost predicate Linked(events: seq<Event>, v: Visit) {
    && v.eventIds != [] && Visits.WeightsOk(v)
    && (forall id | id in v.eventIds :: OwnEvent(events, v.id, id)) && OwnEvent(events, v.id, v.eventIds[0])
    && Lookup(events, v.eventIds[0]).value.core.eventType == "LOCAL_TRANSACTION_CREATED"
    && Lookup(events, v.eventIds[0]).value.core.dependsOn == []
    && forall id | id in v.eventIds :: forall d | d in Lookup(events, id).value.core.dependsOn :: d == v.eventIds[0]
  }

  ghost predicate AllLinked(events: seq<Event>, visits: seq<Visit>, inflight: map<string, Visit>) {
    && (forall v | v in visits :: Linked(events, v))
    && (forall id | id in inflight :: Linked(events, inflight[id]) && inflight[id].id == id)
  }

  ghost predicate VisitsOk(w: World) {
    IdsOk(w) && AllLinked(w.store.events, w.store.visits, w.inflight)
  }

  lemma OwnEventStays(c: Config, w: World, w': World, op: EventOp, visit: string, id: Id)
    requires RowsOk(c, w.store.events) && Legal(c, w, op) && Wrote(w, w', op) && OwnEvent(w.store.events, visit, id)
    ensures OwnEvent(w'.store.events, visit, id)
    ensures Lookup(w'.store.events, id).value.core == Lookup(w.store.events, id).value.core
  {
    hide Applied, Lookup, DroppedBy, Unpruned;
    AppliedRow(w.store.events, op, id);
  }

  /** No step removes or rewrites a business event, so links once good stay good. */
  lemma LinkedStays(c: Config, w: World, w': World, op: EventOp, v: Visit)
    requires RowsOk(c, w.store.events) && Legal(c, w, op) && Wrote(w, w', op) && Linked(w.store.events, v)
    ensures Linked(w'.store.events, v)
  {
    forall id | id in v.eventIds
      ensures OwnEvent(w'.store.events, v.id, id)
      ensures Lookup(w'.store.events, id).value.core == Lookup(w.store.events, id).value.core
    {
      OwnEventStays(c, w, w', op, v.id, id);
    }
    assert v.eventIds[0] in v.eventIds;
  }

  lemma AttachLinked(events: seq<Event>, v: Visit, v': Visit, core: Core)
    requires Linked(events, v) && v'.id == v.id && v'.eventIds == v.eventIds && Visits.WeightsOk(v')
    requires OwnEvent(events, v.id, core.id) && Lookup(events, core.id).value.core == core
    requires core.dependsOn == [] || core.dependsOn == [v.eventIds[0]]
    ensures Linked(events, Visits.Attach(v', core.id))
  {
    var r := Visits.Attach(v', core.id);
    assert r.eventIds[0] == v.eventIds[0];
    forall id | id in r.eventIds ensures id == core.id || id in v.eventIds {
    }
  }

  /** Appending the new event to a linked visit, whatever its other fields become, keeps it linked. */
  lemma AttachKeeps(c: Config, w: World, w': World, v: Visit, v': Visit, core: Core)
    requires RowsOk(c, w.store.events) && Wrote(w, w', Append(core)) && Lookup(w.store.events, core.id) == None
    requires Linked(w.store.events, v) && v'.id == v.id && v'.eventIds == v.eventIds && Visits.WeightsOk(v')
    requires core.key.priority != Low && core.localTransactionId == Some(v.id)
    requires core.dependsOn == [] || core.dependsOn == [v.eventIds[0]]
    ensures Linked(w'.store.events, Visits.Attach(v', core.id))
  {
    LinkedStays(c, w, w', Append(core), v);
    AppliedRow(w.store.events, Append(core), core.id);
    AttachLinked(w'.store.events, v, v', core);
  }

  lemma OpenedLinked(c: Config, w: World, w': World, id: string, required: bool, core: Core)
    requires RowsOk(c, w.store.events) && Wrote(w, w', Append(core)) && Lookup(w.store.events, core.id) == None
    requires core.key.priority != Low && core.localTransactionId == Some(id)
    requires core.eventType == "LOCAL_TRANSACTION_CREATED" && core.dependsOn == []
    ensures Linked(w'.store.events, Visits.Attach(Visits.Opened(id, required), core.id))
  {
    AppliedRow(w.store.events, Append(core), core.id);
  }

  /** Fresh operator events are always appended: never a repeat, never turned away at capacity. */
  lemma NewEventAppends(c: Config, w: World, core: Core)
    requires Conserved(w) && NewEvent(w, core)
    ensures QueueOp(w.store, core) == Append(core) && Lookup(w.store.events, core.id) == None
  {
    if Lookup(w.store.events, core.id).Some? {
      StoredIsLogged(w, Lookup(w.store.events, core.id).value);
    }
  }

  lemma CapturedWeightsOk(w: World, step: Step, v: Visit)
    requires Visits.WeightsOk(v)
    ensures step.CaptureGross? ==> Visits.WeightsOk(Visits.CaptureGross(v, step.milli))
    ensures step.CaptureTare? && Visits.CaptureTare(v, step.milli).Ok? ==>
      var r := Visits.CaptureTare(v, step.milli).value; Visits.WeightsOk(r) && r.eventIds == v.eventIds && r.id == v.id
    ensures step.CompleteVisit? && Visits.Complete(v).Ok? ==> Visits.WeightsOk(Visits.Complete(v).value)
    ensures Visits.WeightsOk(Visits.Pause(v))
  {
    if step.CaptureGross? { Visits.CaptureGrossKeeps(v, step.milli); }
    if step.CaptureTare? { Visits.CaptureTareExact(v, step.milli); }
  }

  lemma PausedLinked(events: seq<Event>, v: Visit)
    requires Linked(events, v)
    ensures Linked(events, Visits.Pause(v))
  {
  }

  /** The row as the call changes it, before its event id is attached. */
  function Changed(v: Visit, step: Step): Visit {
    match step
    case CaptureGross(_, milli, _) => Visits.CaptureGross(v, milli)
    case CaptureTare(_, milli, _) => if Visits.CaptureTare(v, milli).Ok? then Visits.CaptureTare(v, milli).value else v
    case CompleteVisit(_, _) => if Visits.Complete(v).Ok? then Visits.Complete(v).value else v
    case _ => v
  }

  predicate EditsVisit(step: Step) {
    step.CaptureGross? || step.CaptureTare? || step.CompleteVisit? || step.AttachEvent?
  }

  lemma EditFacts(c: Config, w: World, step: Step)
    requires Conserved(w) && VisitsOk(w) && Enabled(c, w, step) && EditsVisit(step)
    ensures var v := VisitAt(w, step.id);
      && v.id == step.id && v.eventIds != []
      && OpOf(c, w, step) == Append(step.core) && Lookup(w.store.events, step.core.id) == None
      && InflightAfter(c, w, step) == w.inflight[step.id := Visits.Attach(Changed(v, step), step.core.id)]
      && step.core.key.priority != Low && step.core.localTransactionId == Some(step.id)
      && (step.core.dependsOn == [] || step.core.dependsOn == [v.eventIds[0]])
  {
    NewEventAppends(c, w, step.core);
    VisitLinked(w, step.id);
  }

  lemma EditKeeps(c: Config, w: World, step: Step)
    requires Inv(c, w) && VisitsOk(w) && Enabled(c, w, step) && EditsVisit(step)
    ensures var row := Visits.Attach(Changed(VisitAt(w, step.id), step), step.core.id);
      && InflightAfter(c, w, step) == w.inflight[step.id := row]
      && row.id == step.id && Linked(Do(c, w, step).store.events, row)
  {
    hide Do, Linked, OpOf, InflightAfter;
    var w', v := Do(c, w, step), VisitAt(w, step.id);
    EditFacts(c, w, step);
    DoWrites(c, w, step);
    VisitLinked(w, step.id);
    CapturedWeightsOk(w, step, v);
    AttachKeeps(c, w, w', v, Changed(v, step), step.core);
  }

  lemma AllLinkedStay(c: Config, w: World, w': World, op: EventOp)
    requires RowsOk(c, w.store.events) && Legal(c, w, op) && Wrote(w, w', op) && VisitsOk(w)
    ensures AllLinked(w'.store.events, w.store.visits, w.inflight)
  {
    forall v | Linked(w.store.events, v) ensures Linked(w'.store.events, v) {
      LinkedStays(c, w, w', op, v);
    }
  }

  lemma OpenKeeps(c: Config, w: World, step: Step)
    requires Inv(c, w) && VisitsOk(w) && Enabled(c, w, step) && step.OpenVisit?
    ensures var row := Visits.Attach(Visits.Opened(step.id, step.approvalRequired), step.core.id);
      InflightAfter(c, w, step) == w.inflight[step.id := row] && Linked(Do(c, w, step).store.events, row)
  {
    hide Do, Linked;
    NewEventAppends(c, w, step.core);
    DoWrites(c, w, step);
    OpenedLinked(c, w, Do(c, w, step), step.id, step.approvalRequired, step.core);
  }

  lemma SavedLinked(events: seq<Event>, s: Store, inflight: map<string, Visit>, id: string)
    requires AllLinked(events, s.visits, inflight) && id in inflight
    ensures AllLinked(events, UpsertVisit(s, inflight[id]).visits, inflight - {id})
  {
    hide Linked;
    UpsertedRows(s, inflight[id]);
  }

  lemma PauseLinked(events: seq<Event>, s: Store, inflight: map<string, Visit>, v: Visit)
    requires AllLinked(events, s.visits, inflight) && v in s.visits
    ensures AllLinked(events, UpsertVisit(s, Visits.Pause(v)).visits, inflight)
  {
    UpsertedRows(s, Visits.Pause(v));
    PausedLinked(events, v);
    hide Linked;
  }

  lemma LinksKept(c: Config, w: World, step: Step)
    requires Inv(c, w) && VisitsOk(w) && Enabled(c, w, step)
    ensures AllLinked(Do(c, w, step).store.events, VisitsAfter(c, w, step), InflightAfter(c, w, step))
  {
    hide Do, Linked, OpOf, IdsOk, RowsOk, Legal, Wrote, Conserved, DeliveredOk, NoInvention, PhaseOk, Valid, AllLinked,
      VisitsAfter, InflightAfter, UpsertVisit, Changed, VisitAt;
    var w', op := Do(c, w, step), OpOf(c, w, step);
    DoWrites(c, w, step);
    OpIsLegal(c, w, step);
    AllLinkedStay(c, w, w', op);
    VisitChanges(c, w, step);
    if EditsVisit(step) {
      EditKeeps(c, w, step);
      AddedLinked(w'.store.events, w.store.visits, w.inflight, Visits.Attach(Changed(VisitAt(w, step.id), step), step.core.id));
    } else if step.OpenVisit? {
      OpenKeeps(c, w, step);
      AddedLinked(w'.store.events, w.store.visits, w.inflight, Visits.Attach(Visits.Opened(step.id, step.approvalRequired), step.core.id));
    } else if step.SaveVisit? {
      SavedLinked(w'.store.events, w.store, w.inflight, step.id);
    } else if step.PauseVisit? {
      PauseLinked(w'.store.events, w.store, w.inflight, VisitAt(w, step.id));
    } else {
      FewerLinked(w'.store.events, w.store.visits, w.inflight, InflightAfter(c, w, step));
    }
  }

  ghost predicate Fewer(fewer: map<string, Visit>, inflight: map<string, Visit>) {
    forall id | id in fewer :: id in inflight && fewer[id] == inflight[id]
  }

  /** What a step does to the stored visits and to the rows in flight. */
  lemma VisitChanges(c: Config, w: World, step: Step)
    requires Enabled(c, w, step)
    ensures var visits, inflight := VisitsAfter(c, w, step), InflightAfter(c, w, step);
      if step.SaveVisit? then visits == UpsertVisit(w.store, w.inflight[step.id]).visits && inflight == w.inflight - {step.id}
      else if step.PauseVisit? then
        VisitAt(w, step.id) in w.store.visits
        && visits == UpsertVisit(w.store, Visits.Pause(VisitAt(w, step.id))).visits && inflight == w.inflight
      else visits == w.store.visits && (EditsVisit(step) || step.OpenVisit? || inflight == w.inflight || Fewer(inflight, w.inflight))
  {
    hide NewEvent, UpsertVisit, Changed;
  }

  lemma AddedLinked(events: seq<Event>, visits: seq<Visit>, inflight: map<string, Visit>, row: Visit)
    requires AllLinked(events, visits, inflight) && Linked(events, row)
    ensures AllLinked(events, visits, inflight[row.id := row])
  {
    hide Linked;
  }

  lemma FewerLinked(events: seq<Event>, visits: seq<Visit>, inflight: map<string, Visit>, fewer: map<string, Visit>)
    requires AllLinked(events, visits, inflight) && Fewer(fewer, inflight)
    ensures AllLinked(events, visits, fewer)
  {
    hide Linked;
  }

  lemma VisitsKept(c: Config, w: World, step: Step)
    requires Inv(c, w) && VisitsOk(w) && Enabled(c, w, step)
    ensures VisitsOk(Do(c, w, step))
  {
    hide Do;
    IdsKept(c, w, step);
    LinksKept(c, w, step);
    DoVisits(c, w, step);
  }

  // ---- backward dependencies ----

  ghost predicate Backward(log: seq<Core>) {
    forall j | 0 <= j < |log| :: forall d | d in log[j].dependsOn :: d in Ids(log[..j])
  }

  /** Producers other than the operator declare no dependencies. */
  ghost predicate PlainProducers(steps: seq<Step>) {
    forall i | 0 <= i < |steps| && steps[i].Produce? :: steps[i].core.dependsOn == []
  }

  lemma BackwardAppend(log: seq<Core>, core: Core)
    requires Backward(log) && forall d | d in core.dependsOn :: d in Ids(log)
    ensures Backward(log + [core])
  {
    var s := log + [core];
    forall j | 0 <= j < |s| ensures forall d | d in s[j].dependsOn :: d in Ids(s[..j]) {
      assert s[..j] == log[..j];
      if j == |log| { assert log[..j] == log; }
    }
  }

  lemma DependencyLogged(w: World, id: string)
    requires Conserved(w) && VisitsOk(w) && VisitIndex(w.store.visits, id) < |w.store.visits|
    ensures forall d | d in CreationDependency(VisitAt(w, id)) :: d in Ids(w.log)
  {
    VisitLinked(w, id);
    var v := VisitAt(w, id);
    StoredIsLogged(w, Lookup(w.store.events, v.eventIds[0]).value);
  }

  lemma BackwardKept(c: Config, w: World, step: Step)
    requires Inv(c, w) && VisitsOk(w) && Enabled(c, w, step) && Backward(w.log)
    requires step.Produce? ==> step.core.dependsOn == []
    ensures Backward(Do(c, w, step).log)
  {
    hide Do, Backward, Ids, RowsOk, DeliveredOk, NoInvention, PhaseOk, Conserved, VisitsOk, VisitAt;
    var op := OpOf(c, w, step);
    DoWrites(c, w, step);
    if op.Append? {
      if step.CaptureGross? || step.CaptureTare? || step.CompleteVisit? {
        DependencyLogged(w, step.id);
      }
      BackwardAppend(w.log, op.core);
    }
  }

  // ---- net weights ----

  /** The step does not recapture, with another weight, the gross of a visit that has its tare. */
  ghost predicate KeepsGross(c: Config, w: World, step: Step)
    requires Enabled(c, w, step)
  {
    step.CaptureGross? ==>
      var v := VisitAt(w, step.id); v.net.None? || KgToMilli(v.gross.GetOr("")) == Ok(step.milli)
  }

  ghost predicate NeverRegrossed(c: Config, w: World, steps: seq<Step>)
    requires Runs(c, w, steps)
    decreases |steps|
  {
    steps == [] || (KeepsGross(c, w, steps[0]) && NeverRegrossed(c, Do(c, w, steps[0]), steps[1..]))
  }

  ghost predicate NetOk(v: Visit) {
    (v.net.Some? ==> Visits.NetExact(v)) && !v.tareExceedsGross
  }

  ghost predicate NetsOk(w: World) {
    (forall v | v in w.store.visits :: NetOk(v)) && (forall id | id in w.inflight :: NetOk(w.inflight[id]))
  }

  lemma AttachKeepsNet(v: Visit, id: Id)
    requires NetOk(v)
    ensures NetOk(Visits.Attach(v, id))
  {
  }

  lemma DoneKeepsNet(v: Visit)
    requires NetOk(v) && Visits.Complete(v).Ok?
    ensures NetOk(Visits.Complete(v).value)
  {
  }

  lemma GrossKeepsNet(v: Visit, milli: int)
    requires NetOk(v) && (v.net.None? || KgToMilli(v.gross.GetOr("")) == Ok(milli))
    ensures NetOk(Visits.CaptureGross(v, milli))
  {
    if v.net.Some? {
      assert v.gross.GetOr("") == v.gross.value;
      Visits.RegrossKeepsNetIff(v, milli);
    }
  }

  lemma TareKeepsNet(v: Visit, milli: int)
    requires Visits.WeightsOk(v) && Visits.CaptureTare(v, milli).Ok?
    ensures NetOk(Visits.CaptureTare(v, milli).value)
  {
    Visits.CaptureTareExact(v, milli);
    hide Visits.NetExact, KgToMilli;
  }

  lemma ChangeKeepsNet(c: Config, w: World, step: Step)
    requires NetsOk(w) && Enabled(c, w, step) && KeepsGross(c, w, step) && EditsVisit(step)
    requires Visits.WeightsOk(VisitAt(w, step.id))
    ensures NetOk(Visits.Attach(Changed(VisitAt(w, step.id), step), step.core.id))
  {
    hide Visits.NetExact, Visits.CaptureTare, NewEvent, KgToMilli;
    var v := VisitAt(w, step.id);
    assert v in w.store.visits;
    match step {
      case CaptureGross(_, milli, _) => GrossKeepsNet(v, milli);
      case CaptureTare(_, milli, _) => TareKeepsNet(v, milli);
      case CompleteVisit(_, _) => DoneKeepsNet(v);
      case AttachEvent(_, _) =>
    }
    AttachKeepsNet(Changed(v, step), step.core.id);
  }

  lemma NetsKept(c: Config, w: World, step: Step)
    requires Inv(c, w) && VisitsOk(w) && NetsOk(w) && Enabled(c, w, step) && KeepsGross(c, w, step)
    ensures NetsOk(Do(c, w, step))
  {
    hide Do, Linked, Visits.NetExact, NetOk, Visits.WeightsOk, IdsOk, AllLinked, RowsOk, Conserved, DeliveredOk, NoInvention, PhaseOk,
      Valid, KeepsGross, Changed, OpOf;
    DoVisits(c, w, step);
    if EditsVisit(step) {
      VisitLinked(w, step.id);
      ChangeKeepsNet(c, w, step);
      EditKeeps(c, w, step);
    } else {
      match step
      case OpenVisit(id, required, core) => OpenedNet(id, required, core.id);
      case SaveVisit(id) => UpsertedRows(w.store, w.inflight[id]);
      case PauseVisit(id) =>
        UpsertedRows(w.store, Visits.Pause(VisitAt(w, id)));
        PausedNet(VisitAt(w, id));
      case _ =>
    }
  }

  lemma OpenedNet(id: string, required: bool, eventId: Id)
    ensures NetOk(Visits.Attach(Visits.Opened(id, required), eventId))
  {
  }

  lemma PausedNet(v: Visit)
    requires NetOk(v)
    ensures NetOk(Visits.Pause(v))
  {
  }

  lemma VisitLinked(w: World, id: string)
    requires VisitsOk(w) && VisitIndex(w.store.visits, id) < |w.store.visits|
    ensures Linked(w.store.events, VisitAt(w, id)) && Visits.WeightsOk(VisitAt(w, id))
  {
  }

  // ---- stored visits stay ----

  /** b is a later state of the visit a: what was captured stays captured, and events are only added. */
  ghost predicate Continues(a: Visit, b: Visit) {
    && b.id == a.id && b.approvalRequired == a.approvalRequired && a.eventIds <= b.eventIds
    && (a.gross.Some? ==> b.gross.Some?) && (a.tare.Some? ==> b.tare.Some?) && (a.net.Some? ==> b.net.Some?)
    && (a.locallyCompleted ==> b.locallyCompleted)
  }

  lemma ContinuesOn(a: Visit, b: Visit, c: Visit)
    requires Continues(a, b) && Continues(b, c)
    ensures Continues(a, c)
  {
  }

  lemma ChangeContinues(v: Visit, step: Step, eventId: Id)
    ensures Continues(v, Visits.Attach(Changed(v, step), eventId))
  {
    hide NetWeight.CalculateNetWeight, MilliToKg;
  }

  /** A row about to be stored continues the row stored now. */
  ghost predicate Ahead(s: Store, inflight: map<string, Visit>) {
    forall id | id in inflight && FindVisit(s, id).Some? :: Continues(FindVisit(s, id).value, inflight[id])
  }

  ghost predicate RowsAhead(w: World) {
    Ahead(w.store, w.inflight)
  }

  lemma AheadReads(s: Store, s': Store, inflight: map<string, Visit>, fewer: map<string, Visit>)
    requires Ahead(s, inflight) && s'.visits == s.visits && Fewer(fewer, inflight)
    ensures Ahead(s', fewer)
  {
    hide Continues;
    assert forall id :: FindVisit(s', id) == FindVisit(s, id);
  }

  lemma AheadAdded(s: Store, inflight: map<string, Visit>, row: Visit)
    requires Ahead(s, inflight) && (FindVisit(s, row.id).Some? ==> Continues(FindVisit(s, row.id).value, row))
    ensures Ahead(s, inflight[row.id := row])
  {
    hide Continues, FindVisit;
  }

  lemma AheadSaved(s: Store, inflight: map<string, Visit>, id: string)
    requires Ahead(s, inflight) && id in inflight && inflight[id].id == id
    ensures Ahead(UpsertVisit(s, inflight[id]), inflight - {id})
  {
    hide Continues, FindVisit, UpsertVisit;
    forall x ensures FindVisit(UpsertVisit(s, inflight[id]), x) == if x == id then Some(inflight[id]) else FindVisit(s, x) {
      UpsertChangesOne(s, inflight[id], x);
    }
  }

  lemma AheadPaused(s: Store, inflight: map<string, Visit>, v: Visit)
    requires Ahead(s, inflight) && v.id !in inflight
    ensures Ahead(UpsertVisit(s, Visits.Pause(v)), inflight)
  {
    hide Continues, FindVisit, UpsertVisit;
    forall x ensures x != v.id ==> FindVisit(UpsertVisit(s, Visits.Pause(v)), x) == FindVisit(s, x) {
      UpsertChangesOne(s, Visits.Pause(v), x);
    }
  }

  lemma VisitContinues(c: Config, w: World, step: Step, id: string)
    requires VisitsOk(w) && RowsAhead(w) && Enabled(c, w, step) && FindVisit(w.store, id).Some?
    ensures var w' := Do(c, w, step);
      FindVisit(w'.store, id).Some? && Continues(FindVisit(w.store, id).value, FindVisit(w'.store, id).value)
  {
    hide Do, Linked, IdsOk, NewEvent, UpsertVisit, Changed;
    var w' := Do(c, w, step);
    DoVisits(c, w, step);
    VisitChanges(c, w, step);
    InflightIds(w);
    if step.SaveVisit? {
      UpsertChangesOne(w.store, w.inflight[step.id], id);
    } else if step.PauseVisit? {
      UpsertChangesOne(w.store, Visits.Pause(VisitAt(w, step.id)), id);
    }
  }

  lemma EditAhead(c: Config, w: World, step: Step)
    requires Inv(c, w) && VisitsOk(w) && RowsAhead(w) && Enabled(c, w, step) && EditsVisit(step)
    ensures Ahead(w.store, InflightAfter(c, w, step))
  {
    hide Do, Linked, Continues, Changed, InflightAfter, NewEvent, RowsOk, DeliveredOk, NoInvention, Conserved, PhaseOk;
    EditKeeps(c, w, step);
    ChangeContinues(VisitAt(w, step.id), step, step.core.id);
    AheadAdded(w.store, w.inflight, Visits.Attach(Changed(VisitAt(w, step.id), step), step.core.id));
  }

  lemma OpenAhead(c: Config, w: World, step: Step)
    requires VisitsOk(w) && RowsAhead(w) && Enabled(c, w, step) && step.OpenVisit?
    ensures Ahead(w.store, InflightAfter(c, w, step))
  {
    hide Linked, Continues, NewEvent, FromCounter;
    AheadAdded(w.store, w.inflight, Visits.Attach(Visits.Opened(step.id, step.approvalRequired), step.core.id));
  }

  lemma AheadKept(c: Config, w: World, step: Step)
    requires Inv(c, w) && VisitsOk(w) && RowsAhead(w) && Enabled(c, w, step)
    ensures RowsAhead(Do(c, w, step))
  {
    hide Do, Linked, IdsOk, NewEvent, UpsertVisit, Changed, Inv, Ahead, FindVisit, InflightAfter, VisitsAfter;
    var w' := Do(c, w, step);
    DoVisits(c, w, step);
    VisitChanges(c, w, step);
    InflightIds(w);
    if EditsVisit(step) {
      EditAhead(c, w, step);
      AheadReads(w.store, w'.store, w'.inflight, w'.inflight);
    } else if step.SaveVisit? {
      AheadSaved(w.store, w.inflight, step.id);
      AheadReads(UpsertVisit(w.store, w.inflight[step.id]), w'.store, w'.inflight, w'.inflight);
    } else if step.PauseVisit? {
      AheadPaused(w.store, w.inflight, VisitAt(w, step.id));
      AheadReads(UpsertVisit(w.store, Visits.Pause(VisitAt(w, step.id))), w'.store, w'.inflight, w'.inflight);
    } else if step.OpenVisit? {
      OpenAhead(c, w, step);
      AheadReads(w.store, w'.store, w'.inflight, w'.inflight);
    } else {
      AheadReads(w.store, w'.store, w.inflight, w'.inflight);
    }
  }

  // ---- the theorems ----

  /** Every visit stored at w is stored at w', continued. */
  ghost predicate AllContinue(w: World, w': World) {
    forall id | FindVisit(w.store, id).Some? ::
      FindVisit(w'.store, id).Some? && Continues(FindVisit(w.store, id).value, FindVisit(w'.store, id).value)
  }

  lemma AllContinueOn(w: World, w1: World, w2: World)
    requires AllContinue(w, w1) && AllContinue(w1, w2)
    ensures AllContinue(w, w2)
  {
    hide FindVisit, Continues;
    forall id | FindVisit(w.store, id).Some?
      ensures FindVisit(w2.store, id).Some? && Continues(FindVisit(w.store, id).value, FindVisit(w2.store, id).value)
    {
      ContinuesOn(FindVisit(w.store, id).value, FindVisit(w1.store, id).value, FindVisit(w2.store, id).value);
    }
  }

  /** No visit is ever lost: over every run a stored visit stays stored under its id, its events the first of
      its events later, and every weight captured and the completion recorded stay so. */
  lemma {:induction false} VisitsStay(c: Config, w: World, steps: seq<Step>)
    requires Inv(c, w) && VisitsOk(w) && RowsAhead(w) && Runs(c, w, steps)
    ensures RowsAhead(End(c, w, steps)) && AllContinue(w, End(c, w, steps))
    decreases |steps|
  {
    hide Inv, VisitsOk, RowsAhead, Do, FindVisit, Enabled;
    if steps != [] {
      var w1 := Do(c, w, steps[0]);
      StepKeeps(c, w, steps[0]);
      VisitsKept(c, w, steps[0]);
      AheadKept(c, w, steps[0]);
      forall id | FindVisit(w.store, id).Some?
        ensures FindVisit(w1.store, id).Some? && Continues(FindVisit(w.store, id).value, FindVisit(w1.store, id).value)
      {
        VisitContinues(c, w, steps[0], id);
      }
      VisitsStay(c, w1, steps[1..]);
      AllContinueOn(w, w1, End(c, w, steps));
    }
  }

  /** How many ids of the day the steps take. */
  function Draws(steps: seq<Step>, day: string): nat {
    if steps == [] then 0
    else (if steps[0].AllocateId? && LocalIds.DayKey(steps[0].iso) == day then 1 else 0) + Draws(steps[1..], day)
  }

  /** The numbers of a day leave no gaps: the next one follows those already taken, and a day begins at 1. */
  lemma {:induction false} NumbersFollow(c: Config, w: World, steps: seq<Step>, day: string)
    requires Runs(c, w, steps)
    ensures NextSequence(End(c, w, steps).store, day) == NextSequence(w.store, day) + Draws(steps, day)
    ensures NextSequence(EMPTY_STORE, day) == 1
    decreases |steps|
  {
    hide Do, Enabled, LocalIds.DayKey;
    if steps != [] {
      DoIds(c, w, steps[0]);
      NumbersFollow(c, Do(c, w, steps[0]), steps[1..], day);
    }
  }

  /** From an empty gateway, over every run: ids never repeat, visits stay linked to their stored events,
      and dependencies point backwards in the order of enqueueing. */
  lemma {:induction false} VisitIntegrity(c: Config, w: World, steps: seq<Step>)
    requires Inv(c, w) && VisitsOk(w) && Runs(c, w, steps)
    ensures VisitsOk(End(c, w, steps))
    ensures Backward(w.log) && PlainProducers(steps) ==> Backward(End(c, w, steps).log)
    decreases |steps|
  {
    if steps != [] {
      StepKeeps(c, w, steps[0]);
      VisitsKept(c, w, steps[0]);
      if Backward(w.log) && PlainProducers(steps) {
        BackwardKept(c, w, steps[0]);
      }
      VisitIntegrity(c, Do(c, w, steps[0]), steps[1..]);
    }
  }

  lemma StartVisits()
    ensures VisitsOk(Start(true)) && NetsOk(Start(true)) && Backward(Start(true).log) && RowsAhead(Start(true))
  {
  }

  /** As long as no weighed-out visit has its gross recaptured with another weight, every net stored or
      about to be stored is exact, in whatever state its visit is, local completion included. */
  lemma {:induction false} NetsExactUnlessRegrossed(c: Config, w: World, steps: seq<Step>)
    requires Inv(c, w) && VisitsOk(w) && NetsOk(w) && Runs(c, w, steps) && NeverRegrossed(c, w, steps)
    ensures NetsOk(End(c, w, steps))
    decreases |steps|
  {
    if steps != [] {
      StepKeeps(c, w, steps[0]);
      VisitsKept(c, w, steps[0]);
      NetsKept(c, w, steps[0]);
      NetsExactUnlessRegrossed(c, Do(c, w, steps[0]), steps[1..]);
    }
  }

  /** So for every run of a new gateway: visits whole, dependencies backwards, and nets exact as long as no
      weighed-out visit has its gross recaptured with another weight. */
  lemma NewGatewayVisits(c: Config, steps: seq<Step>)
    requires Valid(c) && Runs(c, Start(true), steps)
    ensures VisitsOk(End(c, Start(true), steps))
    ensures PlainProducers(steps) ==> Backward(End(c, Start(true), steps).log)
    ensures NeverRegrossed(c, Start(true), steps) ==> NetsOk(End(c, Start(true), steps))
  {
    StartOk(c);
    StartVisits();
    VisitIntegrity(c, Start(true), steps);
    if NeverRegrossed(c, Start(true), steps) {
      NetsExactUnlessRegrossed(c, Start(true), steps);
    }
  }

  /** And for any moment of any run of a new gateway: what is stored then is stored ever after, continued. */
  lemma NewGatewayKeepsVisits(c: Config, steps: seq<Step>, more: seq<Step>)
    requires Valid(c) && Runs(c, Start(true), steps) && Runs(c, End(c, Start(true), steps), more)
    ensures AllContinue(End(c, Start(true), steps), End(c, End(c, Start(true), steps), more))
  {
    StartOk(c);
    StartVisits();
    RunKeeps(c, Start(true), steps);
    VisitIntegrity(c, Start(true), steps);
    VisitsStay(c, Start(true), steps);
    VisitsStay(c, End(c, Start(true), steps), more);
  }
}
