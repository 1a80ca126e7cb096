/**
 The durable store object (apps/edge/src/store/localStore.ts). Its fields are the file's content; every
 writing method applies its change and prunes before the file is replaced.
 */
module LocalStores {
  import opened Wrappers
  import opened Sequences
  import opened Priority
  import opened EdgeTypes
  import opened StoreSpec
  import LocalIds

  function NotAmong(remove: set<Id>): Event -> bool {
    (e: Event) => e.core.id !in remove
  }

  lemma AbsentFromPrefix(id: Id, s: seq<Event>, k: nat)
    requires k <= |s| && forall e | e in s :: e.core.id != id
    ensures id !in Ids(Cores(s[..k]))
  {
    forall c | c in Cores(s[..k]) ensures c.id != id {
      var i :| 0 <= i < k && Cores(s[..k])[i] == c;
      assert s[i] in s;
    }
  }

  function Oldest(events: seq<Event>, k: nat): set<Id>
    requires k <= |LowSyncedOf(events)|
  {
    Ids(Cores(LowSyncedOf(events)[..k]))
  }

  lemma OldestOfCons(x: Event, t: seq<Event>, k: nat)
    requires k <= |LowSyncedOf([x] + t)|
    ensures LowSynced(x) && k > 0 ==> k - 1 <= |LowSyncedOf(t)| && Oldest([x] + t, k) == {x.core.id} + Oldest(t, k - 1)
    ensures !LowSynced(x) ==> k <= |LowSyncedOf(t)| && Oldest([x] + t, k) == Oldest(t, k)
  {
    assert ([x] + t)[1..] == t;
    if LowSynced(x) && k > 0 {
      var rest := LowSyncedOf(t)[..k - 1];
      assert LowSyncedOf([x] + t)[..k] == [x] + rest;
      assert Cores([x] + rest) == [x.core] + Cores(rest);
    }
  }

  /** Filtering out the ids of the k oldest delivered telemetry rows drops exactly those rows. */
  lemma {:induction false} RemovingIdsDropsOldest(events: seq<Event>, k: nat)
    requires UniqueIds(events) && k <= |LowSyncedOf(events)|
    ensures Filter(events, NotAmong(Oldest(events, k))) == DropOldest(events, k)
  {
    if k == 0 {
      assert Cores(LowSyncedOf(events)[..0]) == [];
      FilterAll(events, NotAmong(Oldest(events, k)));
    } else {
      var x, t := events[0], events[1..];
      assert events == [x] + t;
      OldestOfCons(x, t, k);
      var k' := if LowSynced(x) then k - 1 else k;
      RemovingIdsDropsOldest(t, k');
      forall e | e in t ensures e.core.id != x.core.id {
        var i :| 0 <= i < |t| && t[i] == e;
        assert events[i + 1] == e;
      }
      FilterAgrees(t, NotAmong(Oldest(events, k)), NotAmong(Oldest(t, k')));
      AbsentFromPrefix(x.core.id, LowSyncedOf(t), k');
    }
  }

  class LocalStore {
    var events: seq<Event>
    var visits: seq<Visit>
    var counters: map<string, nat>
    var conflicts: seq<Id>

    ghost predicate Valid()
      reads this
    {
      UniqueIds(events)
    }

    ghost function Contents(): Store
      reads this
    {
      Store(events, visits, counters, conflicts)
    }

    constructor ()
      ensures Valid() && Contents() == EMPTY_STORE
    {
      events, visits, counters, conflicts := [], [], map[], [];
    }

    method PruneLowPriority()
      requires Valid()
      modifies this`events
      ensures Valid() && Contents() == Write(old(Contents()))
    {
      var low := LowSyncedOf(events);
      DropOldestUnique(events, Excess(events));
      if |low| > MAX_LOW_PRIORITY {
        var oldest := low[..|low| - MAX_LOW_PRIORITY];
        RemovingIdsDropsOldest(events, |low| - MAX_LOW_PRIORITY);
        assert Ids(Cores(oldest)) == Oldest(events, |oldest|);
        events := Filter(events, NotAmong(Ids(Cores(oldest))));
      }
    }

    /** The stored event, or nothing when telemetry is turned away at capacity. */
    method Enqueue(core: Core) returns (stored: Option<Event>)
      requires Valid()
      modifies this`events
      ensures Valid() && Contents() == StoreSpec.Enqueue(old(Contents()), core)
      ensures match EnqueueOutcomeOf(old(Contents()), core)
        case Existing => stored == Some(old(events)[IndexOf(old(events), core.id)])
        case AtCapacity => stored == None
        case Created => stored == Some(Fresh(core))
    {
      var i := IndexOf(events, core.id);
      if i < |events| {
        stored := Some(events[i]);
      } else if |events| >= DEFAULT_QUEUE_LIMIT && core.key.priority == Low {
        return None;
      } else {
        events := events + [Fresh(core)];
        stored := Some(Fresh(core));
      }
      PruneLowPriority();
    }

    method Update(id: Id, patch: Patch) returns (found: bool)
      requires Valid()
      modifies this`events
      ensures Valid() && Contents() == StoreSpec.Update(old(Contents()), id, patch)
      ensures found <==> exists e :: e in old(events) && e.core.id == id
    {
      var i := IndexOf(events, id);
      found := i < |events|;
      if found {
        assert Cores(PatchRow(events, id, patch)) == Cores(events);
        events := events[i := ApplyPatch(events[i], patch)];
      } else {
        assert forall e | e in events :: e.core.id != id;
      }
      PruneLowPriority();
    }

    method ListByStatus(status: Status) returns (rows: seq<Event>)
      ensures rows == WithStatus(events, status)
    {
      rows := WithStatus(events, status);
    }

    method ListPendingForSync(now: int) returns (rows: seq<Event>)
      ensures rows == PendingForSync(events, now)
    {
      rows := PendingForSync(events, now);
    }

    method NextLocalTransactionId(code: string, iso: string) returns (id: string)
      requires Valid()
      modifies this`events, this`counters
      ensures Valid() && Contents() == TakeSequence(old(Contents()), LocalIds.DayKey(iso))
      ensures id == LocalIds.Format(LocalIds.Compact(code), LocalIds.DayKey(iso), counters[LocalIds.DayKey(iso)])
    {
      var day := LocalIds.DayKey(iso);
      var sequence := (if day in counters then counters[day] else 0) + 1;
      counters := counters[day := sequence];
      id := LocalIds.Format(LocalIds.Compact(code), day, sequence);
      PruneLowPriority();
    }

    method UpsertTransaction(row: Visit)
      requires Valid()
      modifies this`events, this`visits
      ensures Valid() && Contents() == UpsertVisit(old(Contents()), row)
      ensures forall id: string ::
        FindVisit(Contents(), id) == if id == row.id then Some(row) else FindVisit(old(Contents()), id)
    {
      forall id: string
        ensures FindVisit(UpsertVisit(Contents(), row), id) == if id == row.id then Some(row) else FindVisit(Contents(), id)
      {
        UpsertChangesOne(Contents(), row, id);
      }
      var i := VisitIndex(visits, row.id);
      visits := if i == |visits| then visits + [row] else visits[i := row];
      PruneLowPriority();
    }

    method GetTransaction(id: string) returns (row: Option<Visit>)
      ensures row.Some? ==> row.value in visits && row.value.id == id
      ensures row == FindVisit(Contents(), id)
    {
      var i := VisitIndex(visits, id);
      row := if i < |visits| then Some(visits[i]) else None;
    }

    /** One conflict record per event. */
    method AddConflict(id: Id)
      requires Valid()
      modifies this`events, this`conflicts
      ensures Valid() && Contents() == StoreSpec.AddConflict(old(Contents()), id)
    {
      if id !in conflicts {
        conflicts := conflicts + [id];
      }
      PruneLowPriority();
    }
  }
}
