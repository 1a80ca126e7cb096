/**
 What each LocalStore call does to the stored value (apps/edge/src/store/localStore.ts). Every call
 that writes goes through `mutate`: apply the change, prune old telemetry, replace the file.
 */
module StoreSpec {
  import opened Wrappers
  import opened Sequences
  import opened Priority
  import opened EdgeTypes

  const MAX_LOW_PRIORITY := 2000
  const DEFAULT_QUEUE_LIMIT := 8000

  // ---- event ids ----

  function IndexOf(events: seq<Event>, id: Id): (i: nat)
    ensures i <= |events|
    ensures i < |events| ==> events[i].core.id == id
    ensures forall j | 0 <= j < i :: events[j].core.id != id
  {
    if events == [] || events[0].core.id == id then 0 else 1 + IndexOf(events[1..], id)
  }

  ghost predicate UniqueIds(events: seq<Event>) {
    forall i, j | 0 <= i < j < |events| :: events[i].core.id != events[j].core.id
  }

  function Cores(events: seq<Event>): (cores: seq<Core>)
    ensures |cores| == |events|
    ensures forall i | 0 <= i < |events| :: cores[i] == events[i].core
  {
    seq(|events|, i requires 0 <= i < |events| => events[i].core)
  }

  function Ids(cores: seq<Core>): set<Id> {
    set c | c in cores :: c.id
  }

  // ---- pruning ----

  predicate LowSynced(e: Event) {
    e.core.key.priority == Low && e.status == Synced
  }

  function LowSyncedOf(events: seq<Event>): seq<Event> {
    Filter(events, LowSynced)
  }

  /** events without its k oldest delivered telemetry rows. */
  function DropOldest(events: seq<Event>, k: nat): (r: seq<Event>)
    ensures forall e | e in r :: e in events
    ensures forall e | e in events && !LowSynced(e) :: e in r
  {
    if k == 0 || events == [] then events
    else if LowSynced(events[0]) then DropOldest(events[1..], k - 1)
    else [events[0]] + DropOldest(events[1..], k)
  }

  function Excess(events: seq<Event>): nat {
    Max(0, |LowSyncedOf(events)| - MAX_LOW_PRIORITY)
  }

  function Prune(events: seq<Event>): seq<Event> {
    DropOldest(events, Excess(events))
  }

  /** The rows a prune removes. */
  function Pruned(events: seq<Event>): seq<Event> {
    LowSyncedOf(events)[..Excess(events)]
  }

  lemma {:induction false} DropOldestUnique(events: seq<Event>, k: nat)
    requires UniqueIds(events)
    ensures UniqueIds(DropOldest(events, k))
  {
    if k > 0 && events != [] {
      var t := events[1..];
      if LowSynced(events[0]) {
        DropOldestUnique(t, k - 1);
      } else {
        DropOldestUnique(t, k);
        var r := DropOldest(t, k);
        forall j | 0 <= j < |r| ensures r[j].core.id != events[0].core.id {
          assert r[j] in t;
        }
      }
    }
  }

  lemma DropOldestOfCons(x: Event, t: seq<Event>, k: nat)
    requires 0 < k <= |LowSyncedOf([x] + t)|
    ensures LowSynced(x) ==>
      k - 1 <= |LowSyncedOf(t)| && DropOldest([x] + t, k) == DropOldest(t, k - 1)
      && LowSyncedOf([x] + t)[..k] == [x] + LowSyncedOf(t)[..k - 1]
    ensures !LowSynced(x) ==>
      k <= |LowSyncedOf(t)| && DropOldest([x] + t, k) == [x] + DropOldest(t, k) && LowSyncedOf([x] + t) == LowSyncedOf(t)
  {
    assert ([x] + t)[1..] == t;
  }

  predicate Kept(e: Event) {
    !LowSynced(e)
  }

  lemma FilterOfCons(x: Event, t: seq<Event>, keep: Event -> bool)
    ensures Filter([x] + t, keep) == if keep(x) then [x] + Filter(t, keep) else Filter(t, keep)
  {
    assert ([x] + t)[1..] == t;
  }

  lemma LowSyncedOfCons(x: Event, t: seq<Event>)
    ensures LowSyncedOf([x] + t) == if LowSynced(x) then [x] + LowSyncedOf(t) else LowSyncedOf(t)
  {
    FilterOfCons(x, t, LowSynced);
  }

  /** Dropping takes a prefix of the delivered telemetry and no other row. */
  lemma {:induction false} DropOldestSplits(events: seq<Event>, k: nat)
    requires k <= |LowSyncedOf(events)|
    ensures LowSyncedOf(DropOldest(events, k)) == LowSyncedOf(events)[k..]
    ensures Filter(DropOldest(events, k), Kept) == Filter(events, Kept)
    decreases |events|, 0
  {
    if k > 0 {
      SplitsStep(events[0], events[1..], k);
      assert events == [events[0]] + events[1..];
    }
  }

  lemma {:induction false} SplitsStep(x: Event, t: seq<Event>, k: nat)
    requires 0 < k <= |LowSyncedOf([x] + t)|
    ensures LowSyncedOf(DropOldest([x] + t, k)) == LowSyncedOf([x] + t)[k..]
    ensures Filter(DropOldest([x] + t, k), Kept) == Filter([x] + t, Kept)
    decreases |t|, 1
  {
    hide DropOldest, Filter, LowSyncedOf;
    LowSyncedOfCons(x, t);
    FilterOfCons(x, t, Kept);
    DropOldestOfCons(x, t, k);
    if LowSynced(x) {
      DropOldestSplits(t, k - 1);
    } else {
      DropOldestSplits(t, k);
      LowSyncedOfCons(x, DropOldest(t, k));
      FilterOfCons(x, DropOldest(t, k), Kept);
    }
  }

  lemma CoresOfNone()
    ensures Cores([]) == []
  {
  }

  lemma CoresOfCons(x: Event, t: seq<Event>)
    ensures multiset(Cores([x] + t)) == multiset{x.core} + multiset(Cores(t))
  {
    assert Cores([x] + t) == [x.core] + Cores(t);
  }

  lemma AddToEither(kept: multiset<Core>, gone: multiset<Core>, x: multiset<Core>)
    ensures (x + kept) + gone == x + (kept + gone) == kept + (x + gone)
  {
  }

  /** Dropped and kept rows together are the rows there were. */
  lemma {:induction false} DropOldestConserves(events: seq<Event>, k: nat)
    requires k <= |LowSyncedOf(events)|
    ensures multiset(Cores(DropOldest(events, k))) + multiset(Cores(LowSyncedOf(events)[..k])) == multiset(Cores(events))
    decreases |events|, 0
  {
    if k == 0 {
      assert LowSyncedOf(events)[..0] == [];
      CoresOfNone();
    } else {
      ConservesStep(events[0], events[1..], k);
      assert events == [events[0]] + events[1..];
    }
  }

  lemma {:induction false} ConservesStep(x: Event, t: seq<Event>, k: nat)
    requires 0 < k <= |LowSyncedOf([x] + t)|
    ensures multiset(Cores(DropOldest([x] + t, k))) + multiset(Cores(LowSyncedOf([x] + t)[..k])) == multiset(Cores([x] + t))
    decreases |t|, 1
  {
    hide Cores, DropOldest, LowSyncedOf;
    DropOldestOfCons(x, t, k);
    CoresOfCons(x, t);
    if LowSynced(x) {
      var gone := LowSyncedOf(t)[..k - 1];
      DropOldestConserves(t, k - 1);
      CoresOfCons(x, gone);
      AddToEither(multiset(Cores(DropOldest(t, k - 1))), multiset(Cores(gone)), multiset{x.core});
    } else {
      var kept := DropOldest(t, k);
      DropOldestConserves(t, k);
      CoresOfCons(x, kept);
      AddToEither(multiset(Cores(kept)), multiset(Cores(LowSyncedOf(t)[..k])), multiset{x.core});
    }
  }

  /** Pruning keeps exactly min(count, 2000) delivered telemetry rows, the newest ones, and every
      other row in its place. */
  lemma PruneKeepsNewest(events: seq<Event>)
    ensures var low, kept := LowSyncedOf(events), LowSyncedOf(Prune(events));
      && |kept| == Min(|low|, 2000)
      && kept == low[|low| - |kept|..]
      && Pruned(events) == low[..|low| - |kept|]
    ensures Filter(Prune(events), Kept) == Filter(events, Kept)
    ensures Prune(Prune(events)) == Prune(events)
  {
    DropOldestSplits(events, Excess(events));
  }

  // ---- updates ----

  datatype Patch =
    | Recover
    | MarkSyncing
    | MarkSynced(at: int)
    | Defer(until: int)
    | Block
    | Fail(retries: nat, dead: bool, retryAt: Option<int>, firstFailure: int)

  function ApplyPatch(e: Event, p: Patch): Event {
    match p
    case Recover => e.(status := Pending)
    case MarkSyncing => e.(status := Syncing)
    case MarkSynced(at) => e.(status := Synced, syncedAt := Some(at))
    case Defer(until) => e.(status := Pending, nextRetryAt := Some(until))
    case Block => e.(status := Failed)
    case Fail(retries, dead, retryAt, first) =>
      e.(status := if dead then DeadLetter else Failed, retryCount := retries,
         nextRetryAt := retryAt, firstFailureAt := Some(first))
  }

  function PatchRow(events: seq<Event>, id: Id, p: Patch): (r: seq<Event>)
    ensures |r| == |events|
    ensures Cores(r) == Cores(events)
  {
    var i := IndexOf(events, id);
    if i < |events| then events[i := ApplyPatch(events[i], p)] else events
  }

  function Write(s: Store): Store {
    s.(events := Prune(s.events))
  }

  function Update(s: Store, id: Id, p: Patch): Store {
    Write(s.(events := PatchRow(s.events, id, p)))
  }

  datatype EnqueueOutcome = Created | Existing | AtCapacity

  function EnqueueOutcomeOf(s: Store, core: Core): EnqueueOutcome {
    if IndexOf(s.events, core.id) < |s.events| then Existing
    else if |s.events| >= DEFAULT_QUEUE_LIMIT && core.key.priority == Low then AtCapacity
    else Created
  }

  function Enqueue(s: Store, core: Core): Store {
    match EnqueueOutcomeOf(s, core)
    case Existing => Write(s)
    case AtCapacity => s
    case Created => Write(s.(events := s.events + [Fresh(core)]))
  }

  // ---- reads ----

  predicate Eligible(e: Event, now: int) {
    (e.status == Pending || e.status == Failed) && (e.nextRetryAt.None? || e.nextRetryAt.value <= now)
  }

  function PendingForSync(events: seq<Event>, now: int): seq<Event> {
    Filter(events, e => Eligible(e, now))
  }

  function WithStatus(events: seq<Event>, status: Status): seq<Event> {
    Filter(events, (e: Event) => e.status == status)
  }

  // ---- visits, counters, conflicts ----

  function VisitIndex(visits: seq<Visit>, id: string): (i: nat)
    ensures i <= |visits|
    ensures i < |visits| ==> visits[i].id == id
    ensures forall j | 0 <= j < i :: visits[j].id != id
  {
    if visits == [] || visits[0].id == id then 0 else 1 + VisitIndex(visits[1..], id)
  }

  function FindVisit(s: Store, id: string): Option<Visit> {
    var i := VisitIndex(s.visits, id);
    if i < |s.visits| then Some(s.visits[i]) else None
  }

  function Upserted(visits: seq<Visit>, v: Visit): seq<Visit> {
    var i := VisitIndex(visits, v.id);
    if i == |visits| then visits + [v] else visits[i := v]
  }

  function UpsertVisit(s: Store, v: Visit): Store {
    Write(s.(visits := Upserted(s.visits, v)))
  }

  lemma {:induction false} UpsertedIndex(visits: seq<Visit>, v: Visit, id: string)
    ensures var after := Upserted(visits, v);
      if id == v.id then VisitIndex(after, id) == VisitIndex(visits, id) < |after| && after[VisitIndex(after, id)] == v
      else if VisitIndex(visits, id) < |visits| then
        VisitIndex(after, id) == VisitIndex(visits, id) && after[VisitIndex(after, id)] == visits[VisitIndex(visits, id)]
      else VisitIndex(after, id) == |after|
  {
    if visits != [] && visits[0].id != v.id {
      UpsertedIndex(visits[1..], v, id);
      assert Upserted(visits, v)[0] == visits[0] && Upserted(visits, v)[1..] == Upserted(visits[1..], v);
    } else if visits == [] {
      assert Upserted(visits, v)[1..] == [];
    } else {
      assert Upserted(visits, v)[1..] == visits[1..];
    }
  }

  /** Storing a visit is found under its id and changes nothing that is found under any other: no other
      visit is lost, replaced or made up. Counters and conflicts stay as they were. */
  lemma UpsertChangesOne(s: Store, v: Visit, id: string)
    ensures FindVisit(UpsertVisit(s, v), id) == if id == v.id then Some(v) else FindVisit(s, id)
    ensures UpsertVisit(s, v).counters == s.counters && UpsertVisit(s, v).conflicts == s.conflicts
  {
    UpsertedIndex(s.visits, v, id);
  }

  function NextSequence(s: Store, day: string): nat {
    (if day in s.counters then s.counters[day] else 0) + 1
  }

  function TakeSequence(s: Store, day: string): Store {
    Write(s.(counters := s.counters[day := NextSequence(s, day)]))
  }

  function AddConflict(s: Store, id: Id): Store {
    Write(if id in s.conflicts then s else s.(conflicts := s.conflicts + [id]))
  }
}
