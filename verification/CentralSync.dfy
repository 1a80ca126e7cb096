/**
 The backend's side of a batch (apps/api/src/modules/sync/batch.ts). What a handler does with one
 event beyond the checks shown there is a Verdict chosen by the environment.
 */
module CentralSync {
  import opened Wrappers
  import opened Priority
  import opened EdgeTypes
  import opened StoreSpec

  datatype AckStatus = Accepted | AlreadyProcessed | Conflict | Rejected | DependencyPending

  datatype Ack = Ack(id: Id, status: AckStatus)

  datatype Verdict =
    | Malformed                   // the envelope does not parse
    | Conflicts                   // the central visit is REJECTED, CANCELLED or EXCEPTION
    | Busy                        // a handler answers 409
    | Refused                     // a handler fails in any other way
    | FailsAfterRecording         // the event row is written, then a later write fails
    | Processes(already: bool)    // handled; `already` when the handler found its effect in place

  /** recorded: processed event rows, oldest first. hasDevice: the gateway has a registered device. */
  datatype Backend = Backend(recorded: seq<Core>, hasDevice: bool)

  datatype Handled = Handled(backend: Backend, accepted: set<Id>, ack: Ack)

  const MAX_BATCH := 50

  predicate Special(eventType: string) {
    eventType in {"LOCAL_TRANSACTION_CREATED", "LOCAL_TRANSACTION_STATE", "LOCAL_WEIGHT_ANOMALY",
                  "LOCAL_FILE_CAPTURED", "CONNECTIVITY_CHANGED"}
  }

  /** What the backend handles itself, and so what visits depend on, is never telemetry at the edge: those
      events are never turned away and never pruned. */
  lemma SpecialIsBusiness(eventType: string)
    ensures Special(eventType) ==> PriorityForEventType(eventType) != Low
    ensures PriorityForEventType(eventType) == Critical <==>
      eventType in {"DEVICE_WEIGHT_READING", "LOCAL_TRANSACTION_CREATED", "LOCAL_TRANSACTION_STATE"}
    ensures PriorityForEventType(eventType) == Normal <==> eventType in {"DEVICE_STATUS_CHANGED", "CONNECTIVITY_CHANGED"}
  {
  }

  function Missing(dependsOn: seq<Id>, known: set<Id>): set<Id> {
    set d | d in dependsOn && d !in known
  }

  /** Special events are remembered under any device of the gateway, and silently not at all when it
      has none; other events need their own device. */
  function Remember(b: Backend, item: Core): Backend {
    if b.hasDevice then b.(recorded := b.recorded + [item]) else b
  }

  function HandleItem(b: Backend, accepted: set<Id>, item: Core, v: Verdict): Handled {
    if v.Malformed? then Handled(b, accepted, Ack(item.id, Rejected))
    else if Missing(item.dependsOn, accepted + Ids(b.recorded)) != {} then Handled(b, accepted, Ack(item.id, DependencyPending))
    else if item.id in Ids(b.recorded) then Handled(b, accepted + {item.id}, Ack(item.id, AlreadyProcessed))
    else if v.Conflicts? && item.eventType == "LOCAL_TRANSACTION_STATE" && item.localTransactionId.Some? then
      Handled(b, accepted, Ack(item.id, Conflict))
    else if v.Busy? then Handled(b, accepted, Ack(item.id, DependencyPending))
    else if v.Refused? || (!b.hasDevice && !Special(item.eventType)) then Handled(b, accepted, Ack(item.id, Rejected))
    else if v.FailsAfterRecording? then Handled(Remember(b, item), accepted, Ack(item.id, Rejected))
    else
      var already := v.Processes? && v.already && Special(item.eventType);
      Handled(Remember(b, item), accepted + {item.id}, Ack(item.id, if already then AlreadyProcessed else Accepted))
  }

  ghost predicate OnRecord(b: Backend, id: Id) {
    exists r :: r in b.recorded && r.id == id
  }

  /** Everything the item depends on is on record or was accepted earlier in the request. */
  ghost predicate HasPrerequisites(b: Backend, accepted: set<Id>, item: Core) {
    forall d | d in item.dependsOn :: d in accepted || OnRecord(b, d)
  }

  /** The item parses, may be handled now and was not handled before. */
  ghost predicate IsNew(b: Backend, accepted: set<Id>, item: Core, v: Verdict) {
    !v.Malformed? && HasPrerequisites(b, accepted, item) && !OnRecord(b, item.id)
  }

  /** A conflict is only looked for when a visit's state is reported. */
  predicate Clashes(item: Core, v: Verdict) {
    v.Conflicts? && item.eventType == "LOCAL_TRANSACTION_STATE" && item.localTransactionId.Some?
  }

  /** The handler does its work, and the event may be remembered under some device. */
  predicate Worked(b: Backend, item: Core, v: Verdict) {
    (v.Processes? || (v.Conflicts? && !Clashes(item, v))) && (b.hasDevice || Special(item.eventType))
  }

  /** Each answer, and when an item gets it. A handler's 409 is an event that waits, not one that failed; a
      repeat is a success; any other failure of a new item is a rejection. */
  lemma AnswerIff(b: Backend, accepted: set<Id>, item: Core, v: Verdict)
    ensures var isNew, answer := IsNew(b, accepted, item, v), HandleItem(b, accepted, item, v).ack;
      && answer.id == item.id
      && (answer.status == DependencyPending <==>
            !v.Malformed? && (!HasPrerequisites(b, accepted, item) || (isNew && v.Busy?)))
      && (answer.status == Conflict <==> isNew && Clashes(item, v))
      && (answer.status == Rejected <==>
            v.Malformed? || (isNew && !v.Busy? && !Clashes(item, v) && !Worked(b, item, v)))
      && (answer.status == AlreadyProcessed <==>
            || (!v.Malformed? && HasPrerequisites(b, accepted, item) && OnRecord(b, item.id))
            || (isNew && Worked(b, item, v) && v == Processes(true) && Special(item.eventType)))
  {
    MissingIff(b, accepted, item);
  }

  /** What handling an item changes: it is recorded, last, exactly when it is new, there is a device and its
      handler worked or failed only after the event row was written; and it counts as accepted for the items
      after it exactly when it was answered with a success. */
  lemma HandlingChanges(b: Backend, accepted: set<Id>, item: Core, v: Verdict)
    ensures var h := HandleItem(b, accepted, item, v);
      && h.backend == (
           if IsNew(b, accepted, item, v) && b.hasDevice && (Worked(b, item, v) || v.FailsAfterRecording?)
           then Backend(b.recorded + [item], true) else b)
      && h.accepted == (if Success(h.ack.status) then accepted + {item.id} else accepted)
  {
    MissingIff(b, accepted, item);
  }

  /** Without any device a gateway gets a new event accepted exactly if it is one of five local kinds, and even
      then nothing is recorded. */
  lemma WithoutDevice(b: Backend, accepted: set<Id>, item: Core, already: bool)
    requires !b.hasDevice && IsNew(b, accepted, item, Processes(already))
    ensures var h := HandleItem(b, accepted, item, Processes(already));
      && h.backend == b
      && (Success(h.ack.status) <==>
            item.eventType in {"LOCAL_TRANSACTION_CREATED", "LOCAL_TRANSACTION_STATE", "LOCAL_WEIGHT_ANOMALY",
                               "LOCAL_FILE_CAPTURED", "CONNECTIVITY_CHANGED"})
  {
    MissingIff(b, accepted, item);
  }

  lemma MissingIff(b: Backend, accepted: set<Id>, item: Core)
    ensures Missing(item.dependsOn, accepted + Ids(b.recorded)) == {} <==> HasPrerequisites(b, accepted, item)
    ensures item.id in Ids(b.recorded) <==> OnRecord(b, item.id)
  {
    var known := accepted + Ids(b.recorded);
    forall d | d in item.dependsOn ensures d in known <==> d in accepted || OnRecord(b, d) {
    }
    if Missing(item.dependsOn, known) == {} {
      forall d | d in item.dependsOn ensures d in known {
        assert d !in Missing(item.dependsOn, known);
      }
    }
  }

  function VerdictFor(verdicts: map<Id, Verdict>, id: Id): Verdict {
    if id in verdicts then verdicts[id] else Processes(false)
  }

  function HandleBatch(b: Backend, accepted: set<Id>, items: seq<Core>, verdicts: map<Id, Verdict>): (r: (Backend, seq<Ack>))
    ensures |r.1| == |items|
    decreases |items|
  {
    if items == [] then (b, [])
    else
      var h := HandleItem(b, accepted, items[0], VerdictFor(verdicts, items[0].id));
      var (b', acks) := HandleBatch(h.backend, h.accepted, items[1..], verdicts);
      (b', [h.ack] + acks)
  }

  /** The request handler's own loop over the batch. */
  method IngestSyncBatch(b: Backend, items: seq<Core>, verdicts: map<Id, Verdict>) returns (after: Backend, results: seq<Ack>)
    ensures (after, results) == HandleBatch(b, {}, items, verdicts)
  {
    after, results := b, [];
    var accepted: set<Id> := {};
    assert items[0..] == items && [] + HandleBatch(b, {}, items, verdicts).1 == HandleBatch(b, {}, items, verdicts).1;
    for i := 0 to |items|
      invariant HandleBatch(b, {}, items, verdicts) ==
        var rest := HandleBatch(after, accepted, items[i..], verdicts); (rest.0, results + rest.1)
    {
      var h := HandleItem(after, accepted, items[i], VerdictFor(verdicts, items[i].id));
      assert items[i..][0] == items[i] && items[i..][1..] == items[i + 1..];
      assert results + ([h.ack] + HandleBatch(h.backend, h.accepted, items[i + 1..], verdicts).1)
          == results + [h.ack] + HandleBatch(h.backend, h.accepted, items[i + 1..], verdicts).1;
      after, accepted := h.backend, h.accepted;
      results := results + [h.ack];
    }
    assert items[|items|..] == [] && results + [] == results;
  }

  /** How one request fares: how many items the backend gets through, whether the reply arrives, and
      which acknowledgements it lacks. */
  datatype Delivery = Delivery(verdicts: map<Id, Verdict>, handled: nat, replyArrives: bool, lost: set<Id>)

  function ById(acks: seq<Ack>): map<Id, AckStatus> {
    if acks == [] then map[] else ById(acks[..|acks| - 1])[acks[|acks| - 1].id := acks[|acks| - 1].status]
  }

  function Deliver(b: Backend, items: seq<Core>, d: Delivery): (Backend, Option<map<Id, AckStatus>>) {
    if |items| > MAX_BATCH then (b, None)
    else if d.handled < |items| then (HandleBatch(b, {}, items[..d.handled], d.verdicts).0, None)
    else
      var (b', acks) := HandleBatch(b, {}, items, d.verdicts);
      (b', if d.replyArrives then Some(ById(acks) - d.lost) else None)
  }

  lemma {:induction false} AcksNameItems(b: Backend, accepted: set<Id>, items: seq<Core>, verdicts: map<Id, Verdict>)
    ensures forall j | 0 <= j < |items| :: HandleBatch(b, accepted, items, verdicts).1[j].id == items[j].id
    decreases |items|
  {
    if items != [] {
      var h := HandleItem(b, accepted, items[0], VerdictFor(verdicts, items[0].id));
      AcksNameItems(h.backend, h.accepted, items[1..], verdicts);
    }
  }

  lemma {:induction false} ByIdKeys(acks: seq<Ack>, id: Id)
    ensures id in ById(acks) <==> exists j :: 0 <= j < |acks| && acks[j].id == id
  {
    if acks != [] {
      var front := acks[..|acks| - 1];
      ByIdKeys(front, id);
      if exists j :: 0 <= j < |acks| && acks[j].id == id && j < |acks| - 1 {
        var j :| 0 <= j < |acks| && acks[j].id == id && j < |acks| - 1;
        assert front[j].id == id;
      }
    }
  }

  /** When a reply arrives and for whom it speaks: the request was of at most 50 events, the backend got through
      all of them and the answer was not lost; it then answers for every event sent whose acknowledgement was
      not dropped, and for no other. An oversized request leaves the backend untouched. */
  lemma ReplyIff(b: Backend, items: seq<Core>, d: Delivery, id: Id)
    ensures var (b', reply) := Deliver(b, items, d);
      && (reply.Some? <==> |items| <= 50 && d.handled >= |items| && d.replyArrives)
      && (reply.Some? ==> (id in reply.value <==> id !in d.lost && exists j :: 0 <= j < |items| && items[j].id == id))
      && (|items| > 50 ==> b' == b)
  {
    AcksNameItems(b, {}, items, d.verdicts);
    ByIdKeys(HandleBatch(b, {}, items, d.verdicts).1, id);
  }

  // ---- what the backend keeps ----

  /** No event is recorded twice, and each follows everything it depends on. */
  ghost predicate RecordedOk(recorded: seq<Core>) {
    && (forall i, j | 0 <= i < j < |recorded| :: recorded[i].id != recorded[j].id)
    && (forall j | 0 <= j < |recorded| :: forall d | d in recorded[j].dependsOn :: d in Ids(recorded[..j]))
  }

  predicate Success(s: AckStatus) {
    s == Accepted || s == AlreadyProcessed
  }

  lemma IdsOfAppend(a: seq<Core>, c: Core)
    ensures Ids(a + [c]) == Ids(a) + {c.id}
  {
    var s := a + [c];
    assert s[|a|] == c;
    forall x | x in a ensures x in s {
      var i :| 0 <= i < |a| && a[i] == x;
      assert s[i] == x;
    }
  }

  lemma RecordedOkAppend(r: seq<Core>, item: Core)
    requires RecordedOk(r) && item.id !in Ids(r) && Missing(item.dependsOn, Ids(r)) == {}
    ensures RecordedOk(r + [item])
  {
    var s := r + [item];
    forall j | 0 <= j < |s| ensures forall d | d in s[j].dependsOn :: d in Ids(s[..j]) {
      assert s[..j] == r[..j];
      if j == |r| {
        assert r[..j] == r;
        forall d | d in item.dependsOn ensures d in Ids(r) {
          assert d !in Missing(item.dependsOn, Ids(r));
        }
      }
    }
    forall i | 0 <= i < |r| ensures r[i].id != item.id {
      assert r[i] in r;
    }
  }

  lemma HandleItemKeeps(b: Backend, accepted: set<Id>, item: Core, v: Verdict)
    requires RecordedOk(b.recorded) && accepted <= Ids(b.recorded) && b.hasDevice
    ensures var h := HandleItem(b, accepted, item, v);
      && RecordedOk(h.backend.recorded) && h.backend.hasDevice
      && b.recorded <= h.backend.recorded
      && Ids(b.recorded) <= Ids(h.backend.recorded)
      && h.accepted <= Ids(h.backend.recorded)
      && (Success(h.ack.status) ==> item.id in Ids(h.backend.recorded))
  {
    var h := HandleItem(b, accepted, item, v);
    if h.backend != b {
      assert accepted + Ids(b.recorded) == Ids(b.recorded);
      RecordedOkAppend(b.recorded, item);
      IdsOfAppend(b.recorded, item);
    }
  }

  /** A batch, wholly or partly handled, keeps every record, adds none twice and none before its
      dependencies, and every success it reports is on record. */
  lemma {:induction false} HandleBatchKeeps(b: Backend, accepted: set<Id>, items: seq<Core>, verdicts: map<Id, Verdict>)
    requires RecordedOk(b.recorded) && accepted <= Ids(b.recorded) && b.hasDevice
    ensures var (b', acks) := HandleBatch(b, accepted, items, verdicts);
      && RecordedOk(b'.recorded) && b'.hasDevice
      && b.recorded <= b'.recorded
      && Ids(b.recorded) <= Ids(b'.recorded)
      && (forall a | a in acks && Success(a.status) :: a.id in Ids(b'.recorded))
    decreases |items|
  {
    if items != [] {
      var v := VerdictFor(verdicts, items[0].id);
      HandleItemKeeps(b, accepted, items[0], v);
      var h := HandleItem(b, accepted, items[0], v);
      HandleBatchKeeps(h.backend, h.accepted, items[1..], verdicts);
    }
  }

  lemma {:induction false} ByIdSource(acks: seq<Ack>, id: Id)
    requires id in ById(acks)
    ensures Ack(id, ById(acks)[id]) in acks
  {
    var n := |acks| - 1;
    if acks[n].id != id {
      ByIdSource(acks[..n], id);
    }
  }

  /** Whatever becomes of a request, the records stay sound and a success in the reply is on record. */
  lemma DeliverKeeps(b: Backend, items: seq<Core>, d: Delivery)
    requires RecordedOk(b.recorded) && b.hasDevice
    ensures var (b', reply) := Deliver(b, items, d);
      && RecordedOk(b'.recorded) && b'.hasDevice
      && Ids(b.recorded) <= Ids(b'.recorded)
      && (reply.Some? ==> forall id | id in reply.value && Success(reply.value[id]) :: id in Ids(b'.recorded))
  {
    if |items| <= MAX_BATCH {
      HandleBatchKeeps(b, {}, if d.handled < |items| then items[..d.handled] else items, d.verdicts);
      var (b', reply) := Deliver(b, items, d);
      if reply.Some? {
        var acks := HandleBatch(b, {}, items, d.verdicts).1;
        forall id | id in reply.value && Success(reply.value[id]) ensures id in Ids(b'.recorded) {
          ByIdSource(acks, id);
        }
      }
    }
  }

  /** Success implies a record for every batch and every outcome exactly when the gateway has a
      device; without one the backend acknowledges local events it never remembers. */
  lemma SuccessRecordedIffDevice(hasDevice: bool)
    ensures hasDevice <==>
      forall items: seq<Core>, d: Delivery :: SuccessesRecorded(Backend([], hasDevice), items, d)
  {
    var b := Backend([], hasDevice);
    if hasDevice {
      forall items: seq<Core>, d: Delivery ensures SuccessesRecorded(b, items, d) {
        DeliverKeeps(b, items, d);
      }
    } else {
      var key := SortKey(Critical, None, 0, 0);
      var core := Core("E1", "LOCAL_TRANSACTION_CREATED", "", key, None, []);
      var d := Delivery(map[], 1, true, {});
      assert Missing([], {} + Ids([])) == {};
      var h := HandleItem(b, {}, core, Processes(false));
      assert h == Handled(b, {"E1"}, Ack("E1", Accepted));
      var items := [core];
      assert items[0] == core && items[1..] == [] && VerdictFor(d.verdicts, core.id) == Processes(false);
      assert HandleBatch(b, {}, items, d.verdicts) == (b, [h.ack] + HandleBatch(b, {"E1"}, items[1..], d.verdicts).1);
      assert [h.ack] + [] == [h.ack] && [h.ack][..0] == [];
      assert ById([h.ack]) == map["E1" := Accepted];
      assert map["E1" := Accepted] - {} == map["E1" := Accepted];
      assert Deliver(b, [core], d) == (b, Some(map["E1" := Accepted]));
      assert !SuccessesRecorded(b, [core], d);
    }
  }

  ghost predicate SuccessesRecorded(b: Backend, items: seq<Core>, d: Delivery) {
    var (b', reply) := Deliver(b, items, d);
    reply.Some? ==> forall id | id in reply.value && Success(reply.value[id]) :: id in Ids(b'.recorded)
  }
}
