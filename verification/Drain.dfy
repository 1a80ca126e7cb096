/**
 Liveness of the queue: with a reachable backend that accepts every ready event, undelivered events go
 out in dependency order and each tick delivers a full batch of them.
 */
module Drain {
  import opened Wrappers
  import opened Sequences
  import opened Priority
  import opened EdgeTypes
  import opened StoreSpec
  import opened CentralSync
  import opened SyncWorld
  import opened StoreLookup
  import opened SyncSafety
  import opened TickSpec

  // ---- undelivered rows ----

  predicate IsOpen(e: Event) {
    e.status != Synced
  }

  function Open(events: seq<Event>): seq<Event> {
    Filter(events, IsOpen)
  }

  function Other(id: Id): Event -> bool {
    (e: Event) => e.core.id != id
  }

  function Outside(ids: set<Id>): Event -> bool {
    (e: Event) => e.core.id !in ids
  }

  function Without(events: seq<Event>, id: Id): seq<Event> {
    Filter(events, Other(id))
  }

  function WithoutAll(events: seq<Event>, ids: set<Id>): seq<Event> {
    Filter(events, Outside(ids))
  }

  predicate OpenRow(events: seq<Event>, id: Id) {
    Lookup(events, id).Some? && IsOpen(Lookup(events, id).value)
  }

  lemma {:induction false} DropKeepsOpen(events: seq<Event>, k: nat)
    ensures Open(DropOldest(events, k)) == Open(events)
  {
    if k > 0 && events != [] {
      DropKeepsOpen(events[1..], if LowSynced(events[0]) then k - 1 else k);
    }
  }

  lemma PatchRowCons(x: Event, t: seq<Event>, id: Id, p: Patch)
    ensures PatchRow([x] + t, id, p) == if x.core.id == id then [ApplyPatch(x, p)] + t else [x] + PatchRow(t, id, p)
  {
    assert ([x] + t)[1..] == t;
  }

  lemma OpenCons(x: Event, t: seq<Event>)
    ensures Open([x] + t) == if IsOpen(x) then [x] + Open(t) else Open(t)
  {
    assert ([x] + t)[1..] == t;
  }

  lemma OpenRowCons(x: Event, t: seq<Event>, id: Id)
    ensures OpenRow([x] + t, id) <==> if x.core.id == id then IsOpen(x) else OpenRow(t, id)
  {
    assert ([x] + t)[1..] == t;
  }

  /** A patch that leaves an undelivered row undelivered edits it in place among the undelivered rows. */
  lemma {:induction false} OpenPatched(events: seq<Event>, id: Id, p: Patch)
    requires OpenRow(events, id) && !p.MarkSynced?
    ensures Open(PatchRow(events, id, p)) == PatchRow(Open(events), id, p)
  {
    assert events != [];
    hide PatchRow, Open, OpenRow;
    var x, t := events[0], events[1..];
    assert events == [x] + t;
    OpenRowCons(x, t, id);
    PatchRowCons(x, t, id, p);
    OpenCons(x, t);
    PatchRowCons(x, Open(t), id, p);
    if x.core.id == id {
      OpenCons(ApplyPatch(x, p), t);
    } else {
      OpenPatched(t, id, p);
      OpenCons(x, PatchRow(t, id, p));
    }
  }

  lemma WithoutCons(x: Event, t: seq<Event>, id: Id)
    ensures Without([x] + t, id) == if x.core.id == id then Without(t, id) else [x] + Without(t, id)
  {
    assert ([x] + t)[1..] == t;
  }

  lemma WithoutAbsent(events: seq<Event>, id: Id)
    requires forall e | e in events :: e.core.id != id
    ensures Without(events, id) == events
  {
    FilterAll(events, Other(id));
  }

  lemma OpenHeadAlone(x: Event, t: seq<Event>)
    requires UniqueIds([x] + t)
    ensures forall e | e in Open(t) :: e.core.id != x.core.id
  {
    forall e | e in Open(t) ensures e.core.id != x.core.id {
      var i :| 0 <= i < |t| && t[i] == e;
      assert ([x] + t)[i + 1] == e && ([x] + t)[0] == x;
    }
  }

  lemma OpenDeliveredHead(x: Event, t: seq<Event>, at: int)
    requires UniqueIds([x] + t) && IsOpen(x)
    ensures Open(PatchRow([x] + t, x.core.id, MarkSynced(at))) == Open(t)
    ensures Open([x] + t) == [x] + Open(t) && Without(Open([x] + t), x.core.id) == Open(t)
  {
    hide Open, Without, PatchRow;
    PatchRowCons(x, t, x.core.id, MarkSynced(at));
    OpenCons(ApplyPatch(x, MarkSynced(at)), t);
    OpenCons(x, t);
    WithoutCons(x, Open(t), x.core.id);
    OpenHeadAlone(x, t);
    WithoutAbsent(Open(t), x.core.id);
  }

  /** Delivering a row removes it, and nothing else, from the undelivered ones. */
  lemma {:induction false} OpenDelivered(events: seq<Event>, id: Id, at: int)
    requires UniqueIds(events) && OpenRow(events, id)
    ensures Open(PatchRow(events, id, MarkSynced(at))) == Without(Open(events), id)
    ensures |Without(Open(events), id)| == |Open(events)| - 1
  {
    var x, t := events[0], events[1..];
    assert events == [x] + t;
    if x.core.id == id {
      OpenDeliveredHead(x, t, at);
    } else {
      OpenDelivered(t, id, at);
      PatchRowCons(x, t, id, MarkSynced(at));
      OpenCons(x, t);
      OpenCons(x, PatchRow(t, id, MarkSynced(at)));
      WithoutCons(x, Open(t), id);
    }
  }

  lemma UpdateUnique(s: Store, id: Id, p: Patch)
    requires UniqueIds(s.events)
    ensures UniqueIds(Update(s, id, p).events)
  {
    UniqueAfter(s.events, Modify(id, p));
  }

  // ---- sorting keeps dependencies first ----

  /** The sort is stable, whatever the comparator does elsewhere: a row stored first and not ordered
      after another is sent first. */
  lemma SortKeepsOrder(s: seq<Event>, x: Event, y: Event)
    requires Precedes(s, x, y) && Le(x.core.key, y.core.key)
    ensures Precedes(SortEvents(s), x, y)
  {
    SortIsStable(s, x, y, SendsBefore);
  }

  // ---- batch selection ----

  ghost predicate SortedBy(s: seq<Event>) {
    forall i, j | 0 <= i < j < |s| :: Le(s[i].core.key, s[j].core.key)
  }

  function Keys(s: seq<Event>): set<SortKey> {
    set e | e in s :: e.core.key
  }

  lemma {:induction false} InsertSorts(x: Event, s: seq<Event>, keys: set<SortKey>)
    requires Transitive(keys) && x.core.key in keys && Keys(s) <= keys && SortedBy(s)
    ensures SortedBy(Insert(x, s, SendsBefore))
  {
    if s != [] {
      assert s[0].core.key in Keys(s);
      CompareSwaps(x.core.key, s[0].core.key);
      if Le(x.core.key, s[0].core.key) {
        forall j | 0 <= j < |s| ensures Le(x.core.key, s[j].core.key) {
          assert s[j].core.key in Keys(s);
        }
      } else {
        assert Keys(s[1..]) <= Keys(s);
        InsertSorts(x, s[1..], keys);
        var r := Insert(x, s[1..], SendsBefore);
        forall j | 0 <= j < |r| ensures Le(s[0].core.key, r[j].core.key) {
          assert r[j] in multiset(r);
          assert r[j] == x || r[j] in s[1..];
        }
      }
    }
  }

  lemma {:induction false} SortSorts(s: seq<Event>, keys: set<SortKey>)
    requires Transitive(keys) && Keys(s) <= keys
    ensures SortedBy(SortEvents(s))
  {
    if s != [] {
      assert s[0].core.key in Keys(s) && Keys(s[1..]) <= Keys(s);
      SortSorts(s[1..], keys);
      var t := SortEvents(s[1..]);
      assert Keys(t) <= keys by {
        forall e | e in t ensures e.core.key in keys {
          SortMembers(s[1..], e);
          assert e in s;
        }
      }
      InsertSorts(s[0], t, keys);
    }
  }

  lemma NotTakenLater(sorted: seq<Event>, batch: seq<Event>, x: Event, y: Event)
    requires SortedBy(sorted) && batch <= sorted && x in sorted && x !in batch && y in batch
    ensures Compare(x.core.key, y.core.key) >= 0
  {
    hide Compare;
    var i :| 0 <= i < |sorted| && sorted[i] == x;
    var j :| 0 <= j < |batch| && batch[j] == y;
    assert sorted[j] == y;
    assert forall k | 0 <= k < |batch| :: batch[k] == sorted[k];
    CompareSwaps(x.core.key, y.core.key);
  }

  /** The rows sent are due, in order, as many as fit, and no due row left behind goes strictly before
      one taken, whenever no due triple straddles (Priority.TransitiveIffConsistent): of the same priority,
      a row taken has no later number, or, without numbers, is not the later one. */
  lemma BatchSelection(events: seq<Event>, now: int, size: nat)
    requires Consistent(Keys(PendingForSync(events, now)))
    ensures var batch, due := Batch(events, now, size), PendingForSync(events, now);
      && SortedBy(batch) && |batch| == Min(|due|, size)
      && (forall e | e in batch :: e in events && Eligible(e, now))
      && multiset(batch) <= multiset(due)
      && forall x, y | x in due && x !in batch && y in batch :: NotAfter(y.core.key, x.core.key)
  {
    hide Eligible, Compare, SortEvents, Consistent, NotAfter;
    var due := PendingForSync(events, now);
    var sorted, batch := SortEvents(due), Batch(events, now, size);
    TransitiveIffConsistent(Keys(due));
    SortSorts(due, Keys(due));
    assert |multiset(sorted)| == |multiset(due)|;
    assert sorted == batch + sorted[|batch|..];
    forall e | e in batch ensures e in events && Eligible(e, now) {
      assert e in sorted;
      SortMembers(due, e);
    }
    forall x, y | x in due && x !in batch && y in batch ensures NotAfter(y.core.key, x.core.key) {
      SortMembers(due, x);
      NotTakenLater(sorted, batch, x, y);
      TakenNotAfter(y.core.key, x.core.key);
    }
  }

  /** Taken before: nothing in the other's priority, number or clock says it should have been second. */
  predicate NotAfter(taken: SortKey, left: SortKey) {
    && !MoreUrgent(left.priority, taken.priority)
    && (taken.priority == left.priority ==>
          if taken.sequence.Some? && left.sequence.Some? && taken.sequence != left.sequence
          then taken.sequence.value < left.sequence.value
          else !Earlier(left, taken))
  }

  predicate MoreUrgent(p: Priority, q: Priority) {
    match p
    case Critical => q != Critical
    case High => q == Normal || q == Low
    case Normal => q == Low
    case Low => false
  }

  lemma TakenNotAfter(taken: SortKey, left: SortKey)
    requires Compare(left, taken) >= 0
    ensures NotAfter(taken, left)
  {
    UrgentFirst(left, taken);
    UrgentFirst(taken, left);
  }

  ghost predicate UrgentOrder(s: seq<Event>) {
    forall i, j | 0 <= i < j < |s| :: !MoreUrgent(s[j].core.key.priority, s[i].core.key.priority)
  }

  lemma {:induction false} InsertUrgent(x: Event, s: seq<Event>)
    requires UrgentOrder(s)
    ensures UrgentOrder(Insert(x, s, SendsBefore))
  {
    if s != [] {
      UrgentFirst(x.core.key, s[0].core.key);
      UrgentFirst(s[0].core.key, x.core.key);
      if !SendsBefore(x, s[0]) {
        InsertUrgent(x, s[1..]);
        var r := Insert(x, s[1..], SendsBefore);
        forall j | 0 <= j < |r| ensures !MoreUrgent(r[j].core.key.priority, s[0].core.key.priority) {
          assert r[j] in multiset(r);
          assert r[j] == x || r[j] in s[1..];
        }
      }
    }
  }

  lemma {:induction false} SortUrgent(s: seq<Event>)
    ensures UrgentOrder(SortEvents(s))
  {
    if s != [] {
      SortUrgent(s[1..]);
      InsertUrgent(s[0], SortEvents(s[1..]));
    }
  }

  /** Which priorities go out first, over any rows whatever, straddling or not: if a due CRITICAL row is left
      behind, every row taken is CRITICAL; if a HIGH one is, every row taken is CRITICAL or HIGH; and no LOW
      row is taken while a NORMAL one waits. */
  lemma UrgentTakenFirst(events: seq<Event>, now: int, size: nat)
    ensures forall x, y | x in PendingForSync(events, now) && x !in Batch(events, now, size) && y in Batch(events, now, size) ::
      && (x.core.key.priority == Critical ==> y.core.key.priority == Critical)
      && (x.core.key.priority == High ==> y.core.key.priority in {Critical, High})
      && (x.core.key.priority == Normal ==> y.core.key.priority != Low)
  {
    hide SortEvents, Compare;
    var due, batch := PendingForSync(events, now), Batch(events, now, size);
    var sorted := SortEvents(due);
    SortUrgent(due);
    forall x, y | x in due && x !in batch && y in batch ensures !MoreUrgent(x.core.key.priority, y.core.key.priority) {
      SortMembers(due, x);
      var i :| 0 <= i < |sorted| && sorted[i] == x;
      var j :| 0 <= j < |batch| && batch[j] == y;
      assert sorted[j] == y && forall k | 0 <= k < |batch| :: batch[k] == sorted[k];
    }
  }

  // ---- what a good tick does to the undelivered rows ----

  function OpenIds(events: seq<Event>): set<Id> {
    Ids(Cores(Open(events)))
  }

  lemma IdOf(events: seq<Event>, e: Event)
    requires e in events
    ensures e.core.id in Ids(Cores(events))
  {
    var i :| 0 <= i < |events| && events[i] == e;
    assert Cores(events)[i] in Cores(events);
  }

  lemma RowWithId(events: seq<Event>, id: Id) returns (e: Event)
    requires id in Ids(Cores(events))
    ensures e in events && e.core.id == id
  {
    var core :| core in Cores(events) && core.id == id;
    var i :| 0 <= i < |events| && Cores(events)[i] == core;
    e := events[i];
  }

  lemma OpenIdHasRow(events: seq<Event>, id: Id)
    requires UniqueIds(events) && id in OpenIds(events)
    ensures OpenRow(events, id)
  {
    var e := RowWithId(Open(events), id);
    LookupFinds(events, e);
  }

  lemma OpenUpdated(s: Store, id: Id, p: Patch)
    requires UniqueIds(s.events) && id in OpenIds(s.events) && !p.MarkSynced?
    ensures var s' := Update(s, id, p);
      UniqueIds(s'.events) && Open(s'.events) == PatchRow(Open(s.events), id, p)
  {
    OpenIdHasRow(s.events, id);
    OpenPatched(s.events, id, p);
    var u := PatchRow(s.events, id, p);
    DropKeepsOpen(u, Excess(u));
    UpdateUnique(s, id, p);
  }

  ghost predicate Edited(before: seq<Event>, after: seq<Event>, ids: set<Id>, p: Patch) {
    && |after| == |before|
    && forall i | 0 <= i < |before| :: after[i] == if before[i].core.id in ids then ApplyPatch(before[i], p) else before[i]
  }

  lemma PatchRowEdits(open: seq<Event>, id: Id, p: Patch)
    requires UniqueIds(open)
    ensures Edited(open, PatchRow(open, id, p), {id}, p)
  {
  }

  lemma EditedCores(before: seq<Event>, after: seq<Event>, ids: set<Id>, p: Patch)
    requires Edited(before, after, ids, p)
    ensures Cores(after) == Cores(before)
  {
  }

  lemma EditedTwice(a: seq<Event>, b: seq<Event>, c: seq<Event>, id: Id, ids: set<Id>, p: Patch)
    requires p in {Recover, MarkSyncing} && Edited(a, b, {id}, p) && Edited(b, c, ids, p)
    ensures Edited(a, c, {id} + ids, p)
  {
  }

  lemma IdsOfCons(x: Event, t: seq<Event>)
    ensures Ids(Cores([x] + t)) == {x.core.id} + Ids(Cores(t))
  {
    assert Cores([x] + t) == [x.core] + Cores(t);
  }

  lemma NothingEdited(open: seq<Event>, p: Patch)
    ensures Edited(open, open, Ids(Cores([])), p)
  {
    assert Cores([]) == [];
  }

  /** Marking or recovering a list of undelivered rows edits just those. */
  lemma {:induction false} PatchAllEdits(s: Store, rows: seq<Event>, f: Event -> Patch, p: Patch)
    requires UniqueIds(s.events) && p in {Recover, MarkSyncing}
    requires forall r | r in rows :: f(r) == p && r.core.id in OpenIds(s.events)
    ensures var s' := PatchAll(s, rows, f);
      UniqueIds(s'.events) && Edited(Open(s.events), Open(s'.events), Ids(Cores(rows)), p)
    decreases |rows|
  {
    hide Update, UniqueIds, Open, OpenIds, Cores;
    if rows == [] {
      NothingEdited(Open(s.events), p);
    } else {
      var id, rest := rows[0].core.id, rows[1..];
      var s1 := EditOne(s, id, p);
      PatchAllEdits(s1, rest, f, p);
      EditedTwice(Open(s.events), Open(s1.events), Open(PatchAll(s1, rest, f).events), id, Ids(Cores(rest)), p);
      assert rows == [rows[0]] + rest;
      IdsOfCons(rows[0], rest);
    }
  }

  lemma EditOne(s: Store, id: Id, p: Patch) returns (s1: Store)
    requires UniqueIds(s.events) && p in {Recover, MarkSyncing} && id in OpenIds(s.events)
    ensures s1 == Update(s, id, p) && UniqueIds(s1.events)
    ensures Edited(Open(s.events), Open(s1.events), {id}, p) && OpenIds(s1.events) == OpenIds(s.events)
  {
    s1 := Update(s, id, p);
    OpenUpdated(s, id, p);
    FilterUnique(s.events, IsOpen);
    PatchRowEdits(Open(s.events), id, p);
    EditedCores(Open(s.events), Open(s1.events), {id}, p);
  }

  lemma WithoutThenAll(events: seq<Event>, id: Id, ids: set<Id>)
    ensures WithoutAll(Without(events, id), ids) == WithoutAll(events, {id} + ids)
  {
    FilterTwice(events, Other(id), Outside(ids), Outside({id} + ids));
  }

  lemma DeliverOne(c: Config, s: Store, e: Event, acks: map<Id, AckStatus>, now: int)
    requires UniqueIds(s.events) && e.core.id in OpenIds(s.events)
    requires e.core.id in acks && Success(acks[e.core.id])
    ensures var s' := AckOne(c, s, e, acks, now);
      && UniqueIds(s'.events) && Open(s'.events) == Without(Open(s.events), e.core.id)
      && |Open(s'.events)| == |Open(s.events)| - 1
      && OpenIds(s'.events) == OpenIds(s.events) - {e.core.id}
  {
    var id := e.core.id;
    OpenIdHasRow(s.events, id);
    OpenDelivered(s.events, id, now);
    var u := PatchRow(s.events, id, MarkSynced(now));
    DropKeepsOpen(u, Excess(u));
    UpdateUnique(s, id, MarkSynced(now));
    var s' := AckOne(c, s, e, acks, now);
    forall i | i in OpenIds(s.events) && i != id ensures i in OpenIds(s'.events) {
      var r := RowWithId(Open(s.events), i);
      IdOf(Open(s'.events), r);
    }
    forall i | i in OpenIds(s'.events) ensures i in OpenIds(s.events) && i != id {
      var r := RowWithId(Open(s'.events), i);
      IdOf(Open(s.events), r);
    }
  }

  /** Acknowledging every row of a batch delivers exactly those rows. */
  lemma {:induction false} DeliverAll(c: Config, s: Store, batch: seq<Event>, acks: map<Id, AckStatus>, now: int)
    requires UniqueIds(s.events) && UniqueIds(batch)
    requires forall e | e in batch :: e.core.id in OpenIds(s.events) && e.core.id in acks && Success(acks[e.core.id])
    ensures var s' := AckAll(c, s, batch, acks, now);
      && UniqueIds(s'.events) && Open(s'.events) == WithoutAll(Open(s.events), Ids(Cores(batch)))
      && |Open(s'.events)| == |Open(s.events)| - |batch|
    decreases |batch|
  {
    if batch == [] {
      FilterAll(Open(s.events), Outside(Ids(Cores([]))));
    } else {
      var e, rest := batch[0], batch[1..];
      assert batch == [e] + rest;
      var s1 := AckOne(c, s, e, acks, now);
      DeliverOne(c, s, e, acks, now);
      forall r | r in rest ensures r.core.id != e.core.id {
        var i :| 0 <= i < |rest| && rest[i] == r;
        assert batch[i + 1] == r;
      }
      DeliverAll(c, s1, rest, acks, now);
      IdsOfCons(e, rest);
      WithoutThenAll(Open(s.events), e.core.id, Ids(Cores(rest)));
    }
  }

  // ---- the backend accepts a batch in dependency order ----

  ghost predicate DepsInOrder(items: seq<Core>, known: set<Id>) {
    forall j, d | 0 <= j < |items| && d in items[j].dependsOn :: d in known || d in Ids(items[..j])
  }

  lemma HeadAccepted(b: Backend, accepted: set<Id>, items: seq<Core>)
    requires b.hasDevice && items != [] && DepsInOrder(items, accepted + Ids(b.recorded))
    ensures var h := HandleItem(b, accepted, items[0], Processes(false));
      && h.ack.id == items[0].id && Success(h.ack.status) && h.backend.hasDevice
      && h.accepted == accepted + {items[0].id}
      && Ids(h.backend.recorded) == Ids(b.recorded) + {items[0].id}
      && DepsInOrder(items[1..], h.accepted + Ids(h.backend.recorded))
  {
    var x, rest := items[0], items[1..];
    var h := HandleItem(b, accepted, x, Processes(false));
    assert Missing(x.dependsOn, accepted + Ids(b.recorded)) == {} by {
      assert items[..0] == [];
    }
    IdsOfAppend(b.recorded, x);
    var known, known' := accepted + Ids(b.recorded), h.accepted + Ids(h.backend.recorded);
    assert known' == known + {x.id};
    forall j, d | 0 <= j < |rest| && d in rest[j].dependsOn
      ensures d in known' || d in Ids(rest[..j])
    {
      assert items[j + 1] == rest[j] && items[..j + 1] == [x] + rest[..j];
      if d !in known {
        assert d in Ids(items[..j + 1]);
        var c :| c in items[..j + 1] && c.id == d;
        assert c == x || c in rest[..j];
      }
    }
  }

  lemma CoreIdsOfCons(x: Core, t: seq<Core>)
    ensures Ids([x] + t) == {x.id} + Ids(t)
  {
    assert forall c :: c in [x] + t <==> c == x || c in t;
  }

  lemma {:induction false} AllAccepted(b: Backend, accepted: set<Id>, items: seq<Core>)
    requires b.hasDevice && DepsInOrder(items, accepted + Ids(b.recorded))
    ensures var (b', acks) := HandleBatch(b, accepted, items, map[]);
      && (forall j | 0 <= j < |items| :: acks[j].id == items[j].id && Success(acks[j].status))
      && Ids(b'.recorded) == Ids(b.recorded) + Ids(items)
    decreases |items|
  {
    assert Ids([]) == {};
    hide DepsInOrder, HandleItem, Ids;
    if items != [] {
      var h := HandleItem(b, accepted, items[0], Processes(false));
      HeadAccepted(b, accepted, items);
      AllAccepted(h.backend, h.accepted, items[1..]);
      CoreIdsOfCons(items[0], items[1..]);
      assert items == [items[0]] + items[1..];
    }
  }

  lemma {:induction false} ByIdHas(acks: seq<Ack>, a: Ack)
    requires a in acks
    ensures a.id in ById(acks)
  {
    var n := |acks| - 1;
    if acks[n].id != a.id {
      assert a in acks[..n];
      ByIdHas(acks[..n], a);
    }
  }

  /** Everything arrives and nothing is refused. */
  predicate Good(env: TickEnv) {
    && env.uploadsOk && env.raiseAfter.None?
    && env.delivery.verdicts == map[] && env.delivery.handled >= MAX_BATCH
    && env.delivery.replyArrives && env.delivery.lost == {}
  }

  lemma GoodDelivery(b: Backend, items: seq<Core>, env: TickEnv)
    requires Good(env) && |items| <= MAX_BATCH && b.hasDevice && RecordedOk(b.recorded)
    requires DepsInOrder(items, Ids(b.recorded))
    ensures var (b', reply) := Deliver(b, items, env.delivery);
      && reply.Some? && (forall core | core in items :: core.id in reply.value && Success(reply.value[core.id]))
      && Ids(b'.recorded) == Ids(b.recorded) + Ids(items)
  {
    var (b', acks) := HandleBatch(b, {}, items, map[]);
    assert {} + Ids(b.recorded) == Ids(b.recorded);
    AllAccepted(b, {}, items);
    assert items[..|items|] == items;
    assert ById(acks) - {} == ById(acks);
    forall core | core in items ensures core.id in ById(acks) && Success(ById(acks)[core.id]) {
      var j :| 0 <= j < |items| && items[j] == core;
      ByIdHas(acks, acks[j]);
      ByIdSource(acks, core.id);
      var st := ById(acks)[core.id];
      var k :| 0 <= k < |acks| && acks[k] == Ack(core.id, st);
    }
  }

  // ---- a request sent again ----

  /** The items not on record yet, each once, in order. */
  function Unrecorded(items: seq<Core>, known: set<Id>): seq<Core>
    decreases |items|
  {
    if items == [] then []
    else if items[0].id in known then Unrecorded(items[1..], known)
    else [items[0]] + Unrecorded(items[1..], known + {items[0].id})
  }

  lemma {:induction false} UnrecordedSplits(a: seq<Core>, b: seq<Core>, known: set<Id>)
    ensures Unrecorded(a + b, known) == Unrecorded(a, known) + Unrecorded(b, known + Ids(a))
    decreases |a|
  {
    if a == [] {
      assert a + b == b && known + Ids(a) == known;
    } else {
      assert (a + b)[0] == a[0] && (a + b)[1..] == a[1..] + b;
      assert a == [a[0]] + a[1..];
      assert Ids(a) == {a[0].id} + Ids(a[1..]);
      var known' := if a[0].id in known then known else known + {a[0].id};
      UnrecordedSplits(a[1..], b, known');
      assert known' + Ids(a[1..]) == known + Ids(a);
    }
  }

  lemma {:induction false} UnrecordedNone(a: seq<Core>, known: set<Id>)
    requires Ids(a) <= known
    ensures Unrecorded(a, known) == []
    decreases |a|
  {
    if a != [] {
      assert a[0].id in Ids(a) && Ids(a[1..]) <= Ids(a);
      UnrecordedNone(a[1..], known);
    }
  }

  /** Items in dependency order whose handlers work are recorded exactly once, in order. */
  lemma {:induction false} RecordsNew(b: Backend, accepted: set<Id>, items: seq<Core>)
    requires b.hasDevice && accepted <= Ids(b.recorded) && DepsInOrder(items, accepted + Ids(b.recorded))
    ensures HandleBatch(b, accepted, items, map[]).0 == Backend(b.recorded + Unrecorded(items, Ids(b.recorded)), true)
    decreases |items|
  {
    hide DepsInOrder, Ids;
    if items == [] {
      assert b.recorded + [] == b.recorded;
    } else {
      var x, h := items[0], HandleItem(b, accepted, items[0], Processes(false));
      HeadAccepted(b, accepted, items);
      HeadRecorded(b, accepted, items);
      RecordsNew(h.backend, h.accepted, items[1..]);
      if x.id !in Ids(b.recorded) {
        assert (b.recorded + [x]) + Unrecorded(items[1..], Ids(h.backend.recorded))
            == b.recorded + ([x] + Unrecorded(items[1..], Ids(h.backend.recorded)));
      } else {
        assert Ids(b.recorded) + {x.id} == Ids(b.recorded);
      }
    }
  }

  lemma HeadRecorded(b: Backend, accepted: set<Id>, items: seq<Core>)
    requires b.hasDevice && items != [] && DepsInOrder(items, accepted + Ids(b.recorded))
    ensures var h := HandleItem(b, accepted, items[0], Processes(false));
      h.backend == if items[0].id in Ids(b.recorded) then b else Backend(b.recorded + [items[0]], true)
  {
    assert items[..0] == [];
    forall d | d in items[0].dependsOn ensures d in accepted || OnRecord(b, d) {
      assert d in accepted + Ids(b.recorded);
    }
    HandlingChanges(b, accepted, items[0], Processes(false));
    MissingIff(b, accepted, items[0]);
  }

  /** The handlers work. */
  predicate Works(d: Delivery) {
    d.verdicts == map[]
  }

  /** What a request, cut short or not, leaves on record: the items handled. */
  lemma DeliverRecords(b: Backend, items: seq<Core>, d: Delivery)
    requires b.hasDevice && |items| <= MAX_BATCH && DepsInOrder(items, Ids(b.recorded)) && Works(d)
    ensures Deliver(b, items, d).0 == Backend(b.recorded + Unrecorded(items[..Min(d.handled, |items|)], Ids(b.recorded)), true)
  {
    hide HandleBatch, DepsInOrder, Unrecorded, Ids;
    var part := items[..Min(d.handled, |items|)];
    assert {} + Ids(b.recorded) == Ids(b.recorded);
    PrefixInOrder(items, |part|, Ids(b.recorded));
    RecordsNew(b, {}, part);
    assert d.handled >= |items| ==> part == items;
  }

  lemma UnrecordedAgain(part: seq<Core>, rest: seq<Core>, known: set<Id>)
    ensures Unrecorded(part, known) + Unrecorded(part + rest, known + Ids(part)) == Unrecorded(part + rest, known)
  {
    hide Unrecorded, Ids;
    UnrecordedSplits(part, rest, known);
    UnrecordedSplits(part, rest, known + Ids(part));
    UnrecordedNone(part, known + Ids(part));
    assert known + Ids(part) + Ids(part) == known + Ids(part);
    assert [] + Unrecorded(rest, known + Ids(part)) == Unrecorded(rest, known + Ids(part));
  }

  /** At least one delivery makes exactly one record. A request may be cut short anywhere, or its reply lost;
      sent again, it leaves the record as if it had been sent once: the same events, each once, in order. */
  lemma ResendRecordsOnce(b: Backend, items: seq<Core>, first: Delivery, again: Delivery)
    requires b.hasDevice && |items| <= MAX_BATCH && DepsInOrder(items, Ids(b.recorded))
    requires Works(first) && Works(again) && again.handled >= |items|
    ensures Deliver(Deliver(b, items, first).0, items, again).0 == Deliver(b, items, again).0
    ensures Deliver(b, items, again).0 == Backend(b.recorded + Unrecorded(items, Ids(b.recorded)), true)
  {
    hide Deliver, DepsInOrder, Unrecorded, Ids;
    var part, known := items[..Min(first.handled, |items|)], Ids(b.recorded);
    var rest := items[|part|..];
    assert items == part + rest && items[..Min(again.handled, |items|)] == items;
    DeliverRecords(b, items, first);
    DeliverRecords(b, items, again);
    RecordedIds(b, part);
    MoreKnown(items, known, known + Ids(part));
    DeliverRecords(Deliver(b, items, first).0, items, again);
    UnrecordedAgain(part, rest, known);
    assert b.recorded + Unrecorded(part, known) + Unrecorded(items, known + Ids(part))
        == b.recorded + (Unrecorded(part, known) + Unrecorded(items, known + Ids(part)));
  }

  lemma PrefixInOrder(items: seq<Core>, k: nat, known: set<Id>)
    requires k <= |items| && DepsInOrder(items, known)
    ensures DepsInOrder(items[..k], known)
  {
    forall j, d | 0 <= j < k && d in items[..k][j].dependsOn ensures d in known || d in Ids(items[..k][..j]) {
      assert items[..k][..j] == items[..j] && items[..k][j] == items[j];
    }
  }

  lemma MoreKnown(items: seq<Core>, known: set<Id>, more: set<Id>)
    requires DepsInOrder(items, known) && known <= more
    ensures DepsInOrder(items, more)
  {
  }

  lemma RecordedIds(b: Backend, part: seq<Core>)
    ensures Ids(b.recorded + Unrecorded(part, Ids(b.recorded))) == Ids(b.recorded) + Ids(part)
  {
    UnrecordedIds(part, Ids(b.recorded));
    var s := b.recorded + Unrecorded(part, Ids(b.recorded));
    assert forall c :: c in s <==> c in b.recorded || c in Unrecorded(part, Ids(b.recorded));
  }

  lemma {:induction false} UnrecordedIds(items: seq<Core>, known: set<Id>)
    ensures known + Ids(Unrecorded(items, known)) == known + Ids(items)
    decreases |items|
  {
    if items != [] {
      var x, rest := items[0], items[1..];
      assert items == [x] + rest && Ids(items) == {x.id} + Ids(rest);
      if x.id in known {
        UnrecordedIds(rest, known);
      } else {
        UnrecordedIds(rest, known + {x.id});
        assert Ids([x] + Unrecorded(rest, known + {x.id})) == {x.id} + Ids(Unrecorded(rest, known + {x.id}));
      }
    }
  }

  // ---- draining ----

  /** Every dependency of an undelivered row is on record, or undelivered, stored before it and not
      ordered after it. */
  ghost predicate DepsAhead(open: seq<Event>, known: set<Id>) {
    forall y, d | y in open && d in y.core.dependsOn :: d in known || ExistsAhead(open, y, d)
  }

  ghost predicate ExistsAhead(open: seq<Event>, y: Event, d: Id) {
    exists x :: Precedes(open, x, y) && x.core.id == d && Le(x.core.key, y.core.key)
  }

  ghost predicate Due(open: seq<Event>, now: int) {
    forall e | e in open :: e.status != DeadLetter && (e.nextRetryAt.None? || e.nextRetryAt.value <= now)
  }

  ghost predicate Drainable(s: Site, now: int) {
    && UniqueIds(s.store.events) && s.backend.hasDevice && RecordedOk(s.backend.recorded)
    && Due(Open(s.store.events), now)
    && DepsAhead(Open(s.store.events), Ids(s.backend.recorded))
  }

  lemma {:induction false} InsertLength(x: Event, s: seq<Event>)
    ensures |Insert(x, s, SendsBefore)| == |s| + 1
  {
    if s != [] && !Le(x.core.key, s[0].core.key) {
      InsertLength(x, s[1..]);
    }
  }

  lemma {:induction false} SortLength(s: seq<Event>)
    ensures |SortEvents(s)| == |s|
  {
    if s != [] {
      SortLength(s[1..]);
      InsertLength(s[0], SortEvents(s[1..]));
    }
  }

  lemma PositionUnique(s: seq<Event>, i: nat, j: nat)
    requires UniqueIds(s) && i < |s| && j < |s| && s[i].core.id == s[j].core.id
    ensures i == j
  {
  }

  /** In a batch cut from the sorted undelivered rows, dependencies come before their dependents. */
  lemma BatchInOrder(open: seq<Event>, known: set<Id>, size: nat)
    requires UniqueIds(open) && DepsAhead(open, known)
    ensures DepsInOrder(Cores(Take(SortEvents(open), size)), known)
  {
    var sorted := SortEvents(open);
    var batch := Take(sorted, size);
    SortUnique(open);
    forall j, d | 0 <= j < |batch| && d in Cores(batch)[j].dependsOn && d !in known
      ensures d in Ids(Cores(batch)[..j])
    {
      var y := batch[j];
      assert y == sorted[j];
      SortMembers(open, y);
      assert ExistsAhead(open, y, d);
      var x :| Precedes(open, x, y) && x.core.id == d && Le(x.core.key, y.core.key);
      SortKeepsOrder(open, x, y);
      var p, q :| 0 <= p < q < |sorted| && sorted[p] == x && sorted[q] == y;
      PositionUnique(sorted, q, j);
      assert Cores(batch)[..j][p] == x.core;
    }
  }

  lemma DepsStayAhead(open: seq<Event>, known: set<Id>, ids: set<Id>)
    requires DepsAhead(open, known)
    ensures DepsAhead(WithoutAll(open, ids), known + ids)
  {
    var rest := WithoutAll(open, ids);
    forall y, d | y in rest && d in y.core.dependsOn && d !in known + ids ensures ExistsAhead(rest, y, d) {
      assert ExistsAhead(open, y, d);
      var x :| Precedes(open, x, y) && x.core.id == d && Le(x.core.key, y.core.key);
      FilterKeepsOrder(open, Outside(ids), x, y);
    }
  }

  /** Edits that keep cores keep dependencies ahead. */
  lemma EditedDepsAhead(before: seq<Event>, after: seq<Event>, ids: set<Id>, p: Patch, known: set<Id>)
    requires Edited(before, after, ids, p) && DepsAhead(before, known)
    ensures DepsAhead(after, known)
  {
    forall y, d | y in after && d in y.core.dependsOn && d !in known ensures ExistsAhead(after, y, d) {
      var j :| 0 <= j < |after| && after[j] == y;
      assert ExistsAhead(before, before[j], d);
      EditedAhead(before, after, ids, p, j, d);
    }
  }

  lemma EditedAhead(before: seq<Event>, after: seq<Event>, ids: set<Id>, p: Patch, j: nat, d: Id)
    requires Edited(before, after, ids, p) && j < |before| && ExistsAhead(before, before[j], d)
    ensures ExistsAhead(after, after[j], d)
  {
    var x :| Precedes(before, x, before[j]) && x.core.id == d && Le(x.core.key, before[j].core.key);
    var a, b :| 0 <= a < b < |before| && before[a] == x && before[b] == before[j];
    assert after[b] == after[j];
    assert Precedes(after, after[a], after[j]);
  }

  // ---- one tick ----

  lemma AllDue(events: seq<Event>, now: int)
    requires Due(Open(events), now) && forall e | e in events :: e.status != Syncing
    ensures PendingForSync(events, now) == Open(events)
  {
    forall e | e in events ensures Eligible(e, now) == IsOpen(e) {
      if IsOpen(e) {
        assert e in Open(events);
      }
    }
    FilterAgrees(events, e => Eligible(e, now), IsOpen);
  }

  lemma OrphansOpen(events: seq<Event>)
    ensures forall r | r in WithStatus(events, Syncing) :: r.core.id in OpenIds(events)
  {
    forall r | r in WithStatus(events, Syncing) ensures r.core.id in OpenIds(events) {
      IdOf(Open(events), r);
    }
  }

  /** Recovery turns every orphan back to PENDING and changes nothing else about undelivered rows. */
  lemma RecoveryReady(s: Site, now: int)
    requires Drainable(s, now)
    ensures var r := s.(store := RecoverAll(s.store));
      && Drainable(r, now) && |Open(r.store.events)| == |Open(s.store.events)|
      && forall e | e in r.store.events :: e.status != Syncing
  {
    var events := s.store.events;
    var rows := WithStatus(events, Syncing);
    var r := RecoverAll(s.store);
    OrphansOpen(events);
    PatchAllEdits(s.store, rows, (e: Event) => Recover, Recover);
    var ids := Ids(Cores(rows));
    EditedDepsAhead(Open(events), Open(r.events), ids, Recover, Ids(s.backend.recorded));
    forall e | e in Open(r.events)
      ensures e.status != DeadLetter && e.status != Syncing && (e.nextRetryAt.None? || e.nextRetryAt.value <= now)
    {
      var i :| 0 <= i < |Open(r.events)| && Open(r.events)[i] == e;
      var was := Open(events)[i];
      assert was in Open(events);
      if was.status == Syncing {
        IdOf(rows, was);
      }
    }
    forall e | e in r.events ensures e.status != Syncing {
      assert IsOpen(e) ==> e in Open(r.events);
    }
  }

  /** The rows left after a batch is delivered. */
  ghost predicate Delivered(s: Site, s': Site, batch: seq<Event>) {
    && UniqueIds(s'.store.events)
    && Open(s'.store.events) == WithoutAll(Open(s.store.events), Ids(Cores(batch)))
    && |Open(s'.store.events)| == |Open(s.store.events)| - |batch|
    && s'.backend.hasDevice && RecordedOk(s'.backend.recorded)
    && Ids(s'.backend.recorded) == Ids(s.backend.recorded) + Ids(Cores(batch))
  }

  lemma MarkThenDeliver(c: Config, s: Store, batch: seq<Event>, acks: map<Id, AckStatus>, now: int)
    requires UniqueIds(s.events) && UniqueIds(batch) && forall e | e in batch :: e.core.id in OpenIds(s.events)
    requires forall core | core in Cores(batch) :: core.id in acks && Success(acks[core.id])
    ensures var s' := AckAll(c, MarkAll(s, batch), batch, acks, now);
      && UniqueIds(s'.events) && Open(s'.events) == WithoutAll(Open(s.events), Ids(Cores(batch)))
      && |Open(s'.events)| == |Open(s.events)| - |batch|
  {
    var ids, marked := Ids(Cores(batch)), MarkAll(s, batch);
    PatchAllEdits(s, batch, (e: Event) => MarkSyncing, MarkSyncing);
    EditedCores(Open(s.events), Open(marked.events), ids, MarkSyncing);
    forall e | e in batch ensures e.core.id in acks && Success(acks[e.core.id]) {
      var i :| 0 <= i < |batch| && batch[i] == e;
      assert Cores(batch)[i] in Cores(batch);
    }
    DeliverAll(c, marked, batch, acks, now);
    WithoutEdited(Open(s.events), Open(marked.events), ids, MarkSyncing);
  }

  /** Rows outside the edited ids are the same before and after. */
  lemma {:induction false} WithoutEdited(before: seq<Event>, after: seq<Event>, ids: set<Id>, p: Patch)
    requires Edited(before, after, ids, p)
    ensures WithoutAll(after, ids) == WithoutAll(before, ids)
    decreases |before|
  {
    if before != [] {
      WithoutEdited(before[1..], after[1..], ids, p);
    }
  }

  lemma BatchRows(events: seq<Event>, now: int, size: nat)
    requires UniqueIds(events) && PendingForSync(events, now) == Open(events)
    ensures var batch := Batch(events, now, size);
      UniqueIds(batch) && |batch| == Min(|Open(events)|, size) && forall e | e in batch :: e.core.id in OpenIds(events)
  {
    FilterUnique(events, IsOpen);
    SortUnique(Open(events));
    SortLength(Open(events));
    forall e | e in Batch(events, now, size) ensures e.core.id in OpenIds(events) {
      assert e in SortEvents(Open(events));
      SortMembers(Open(events), e);
      IdOf(Open(events), e);
    }
  }

  lemma GoodDispatch(c: Config, s: Site, env: TickEnv)
    requires Valid(c) && c.batchSize <= MAX_BATCH && Good(env) && Drainable(s, env.now)
    requires forall e | e in s.store.events :: e.status != Syncing
    ensures |Batch(s.store.events, env.now, c.batchSize)| == Min(|Open(s.store.events)|, c.batchSize)
    ensures Delivered(s, Dispatch(c, s, env), Batch(s.store.events, env.now, c.batchSize))
  {
    var events, batch := s.store.events, Batch(s.store.events, env.now, c.batchSize);
    AllDue(events, env.now);
    BatchRows(events, env.now, c.batchSize);
    if batch == [] {
      assert Cores(batch) == [];
      FilterAll(Open(events), Outside(Ids(Cores(batch))));
    } else {
      FilterUnique(events, IsOpen);
      BatchInOrder(Open(events), Ids(s.backend.recorded), c.batchSize);
      GoodDelivery(s.backend, Cores(batch), env);
      DeliverKeeps(s.backend, Cores(batch), env.delivery);
      var acks := Deliver(s.backend, Cores(batch), env.delivery).1.value;
      MarkThenDeliver(c, s.store, batch, acks, env.now);
    }
  }

  lemma DeliveredDrainable(s: Site, s': Site, batch: seq<Event>, now: int)
    requires Drainable(s, now) && Delivered(s, s', batch)
    ensures Drainable(s', now)
  {
    DepsStayAhead(Open(s.store.events), Ids(s.backend.recorded), Ids(Cores(batch)));
  }

  /** A good tick delivers a whole batch, or everything left, and leaves the rest drainable. The backend
      refuses requests of more than 50 events, so the batch size must not exceed that. */
  lemma GoodTick(c: Config, s: Site, env: TickEnv)
    requires Valid(c) && c.batchSize <= MAX_BATCH && Good(env) && Drainable(s, env.now)
    ensures var s' := Tick(c, s, env);
      && Drainable(s', env.now)
      && |Open(s'.store.events)| == Max(0, |Open(s.store.events)| - c.batchSize)
  {
    var ready := s.(store := RecoverAll(s.store));
    RecoveryReady(s, env.now);
    GoodDispatch(c, ready, env);
    DeliveredDrainable(ready, Tick(c, s, env), Batch(ready.store.events, env.now, c.batchSize), env.now);
  }

  ghost predicate GoodFrom(envs: seq<TickEnv>, now: int) {
    && (forall i | 0 <= i < |envs| :: Good(envs[i]) && now <= envs[i].now)
    && (forall i, j | 0 <= i < j < |envs| :: envs[i].now <= envs[j].now)
  }

  lemma DrainableLater(s: Site, now: int, later: int)
    requires Drainable(s, now) && now <= later
    ensures Drainable(s, later)
  {
  }

  lemma GoodRest(envs: seq<TickEnv>, now: int)
    requires GoodFrom(envs, now) && envs != []
    ensures GoodFrom(envs[1..], envs[0].now) && Good(envs[0]) && now <= envs[0].now
  {
  }

  /** What k ticks can send: k times the batch size. */
  function Capacity(k: nat, size: nat): nat {
    if k == 0 then 0 else size + Capacity(k - 1, size)
  }

  lemma {:induction false} CapacityIsProduct(k: nat, size: nat)
    ensures Capacity(k, size) == k * size
    ensures size > 0 ==> Capacity(k, size) >= k
  {
    if k > 0 {
      CapacityIsProduct(k - 1, size);
    }
  }

  /** k good ticks deliver k batches of events. */
  lemma {:induction false} Drains(c: Config, s: Site, envs: seq<TickEnv>, now: int)
    requires Valid(c) && c.batchSize <= MAX_BATCH && GoodFrom(envs, now) && Drainable(s, now)
    ensures |Open(Ticks(c, s, envs).store.events)| == Max(0, |Open(s.store.events)| - Capacity(|envs|, c.batchSize))
    decreases |envs|
  {
    hide Tick, Drainable, GoodFrom, Open;
    if envs != [] {
      var s1, rest := Tick(c, s, envs[0]), envs[1..];
      GoodRest(envs, now);
      DrainableLater(s, now, envs[0].now);
      GoodTick(c, s, envs[0]);
      Drains(c, s1, rest, envs[0].now);
    }
  }

  /** n undelivered events are all delivered within n good ticks. */
  lemma DrainsCompletely(c: Config, s: Site, envs: seq<TickEnv>, now: int)
    requires Valid(c) && c.batchSize <= MAX_BATCH && GoodFrom(envs, now) && Drainable(s, now)
    requires |envs| >= |Open(s.store.events)|
    ensures forall e | e in Ticks(c, s, envs).store.events :: e.status == Synced
  {
    hide Tick, Drainable, GoodFrom;
    Drains(c, s, envs, now);
    CapacityIsProduct(|envs|, c.batchSize);
    var end := Ticks(c, s, envs).store.events;
    forall e | e in end ensures e.status == Synced {
      assert IsOpen(e) ==> e in Open(end);
    }
  }
}
