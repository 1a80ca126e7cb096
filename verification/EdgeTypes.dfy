/** Rows of the edge gateway's durable store (apps/edge/src/queue/types.ts, apps/edge/src/store/types.ts). */
module EdgeTypes {
  import opened Wrappers
  import opened Priority

  type Id = string

  /** What an event is: fixed when it is enqueued. The payload stands for the whole envelope body. */
  datatype Core = Core(
    id: Id, eventType: string, payload: string, key: SortKey,
    localTransactionId: Option<string>, dependsOn: seq<Id>)

  datatype Status = Pending | Syncing | Synced | Failed | DeadLetter

  datatype Event = Event(
    core: Core, status: Status, retryCount: nat,
    nextRetryAt: Option<int>, firstFailureAt: Option<int>, syncedAt: Option<int>)

  datatype LocalState = Identified | GrossCaptured | TareCaptured | PausedApproval | LocalCompleted

  datatype Visit = Visit(
    id: string, localState: LocalState, locallyCompleted: bool,
    gross: Option<string>, tare: Option<string>, net: Option<string>,
    tareExceedsGross: bool, approvalRequired: bool, eventIds: seq<Id>)

  datatype Store = Store(
    events: seq<Event>, visits: seq<Visit>, counters: map<string, nat>, conflicts: seq<Id>)

  const EMPTY_STORE := Store([], [], map[], [])

  function Fresh(core: Core): Event {
    Event(core, Pending, 0, None, None, None)
  }
}
