/** Reading the event rows by id, and what one write can do to the row found. */
module StoreLookup {
  import opened Wrappers
  import opened EdgeTypes
  import opened StoreSpec
  import opened SyncWorld

  function Lookup(events: seq<Event>, id: Id): (r: Option<Event>)
    ensures r.Some? ==> r.value in events && r.value.core.id == id
  {
    var i := IndexOf(events, id);
    if i < |events| then Some(events[i]) else None
  }

  lemma LookupFinds(events: seq<Event>, e: Event)
    requires UniqueIds(events) && e in events
    ensures Lookup(events, e.core.id) == Some(e)
  {
    var i :| 0 <= i < |events| && events[i] == e;
    assert IndexOf(events, e.core.id) <= i;
  }

  lemma UniqueAfter(events: seq<Event>, op: EventOp)
    requires UniqueIds(events)
    requires op.Append? ==> Lookup(events, op.core.id) == None
    ensures UniqueIds(Unpruned(events, op)) && UniqueIds(Applied(events, op))
  {
    var u := Unpruned(events, op);
    if op.Modify? {
      assert forall i | 0 <= i < |u| :: u[i].core == Cores(u)[i] == Cores(events)[i];
    }
    DropOldestUnique(u, Excess(u));
  }

  function PatchedRow(r: Option<Event>, p: Patch): Option<Event> {
    match r
    case Some(e) => Some(ApplyPatch(e, p))
    case None => None
  }

  /** The row for id just before pruning. */
  function LookupUnpruned(events: seq<Event>, op: EventOp, id: Id): Option<Event> {
    match op
    case Append(core) => if core.id == id then Some(Fresh(core)) else Lookup(events, id)
    case Modify(target, p) => if target == id then PatchedRow(Lookup(events, id), p) else Lookup(events, id)
    case _ => Lookup(events, id)
  }

  lemma UnprunedRow(events: seq<Event>, op: EventOp, id: Id)
    requires UniqueIds(events)
    requires op.Append? ==> Lookup(events, op.core.id) == None
    ensures Lookup(Unpruned(events, op), id) == LookupUnpruned(events, op, id)
  {
    var u := Unpruned(events, op);
    UniqueAfter(events, op);
    match op
    case Append(core) =>
      assert u[|events|] == Fresh(core);
      if id == core.id {
        LookupFinds(u, Fresh(core));
      } else if Lookup(events, id).Some? {
        var i := IndexOf(events, id);
        assert u[i] == events[i];
        LookupFinds(u, events[i]);
      } else {
        forall e | e in u ensures e.core.id != id {
          if e in events { LookupFinds(events, e); }
        }
      }
    case Modify(target, p) =>
      var t := IndexOf(events, target);
      if Lookup(events, id).Some? {
        var i := IndexOf(events, id);
        assert u[i] == if i == t then ApplyPatch(events[i], p) else events[i];
        LookupFinds(u, u[i]);
      } else {
        forall e | e in u ensures e.core.id != id {
          var i :| 0 <= i < |u| && u[i] == e;
          assert e.core == Cores(u)[i] == events[i].core;
          LookupFinds(events, events[i]);
        }
      }
    case _ =>
  }

  /** A write leaves the row for id as the change made it, unless that row is delivered telemetry, which
      the prune may then remove. */
  lemma AppliedRow(events: seq<Event>, op: EventOp, id: Id)
    requires UniqueIds(events)
    requires op.Append? ==> Lookup(events, op.core.id) == None
    ensures var before, after := LookupUnpruned(events, op, id), Lookup(Applied(events, op), id);
      after == before || (after == None && before.Some? && LowSynced(before.value))
  {
    UnprunedRow(events, op, id);
    if !op.Keep? {
      UniqueAfter(events, op);
      var u, r := Unpruned(events, op), Applied(events, op);
      if Lookup(r, id).Some? {
        LookupFinds(u, Lookup(r, id).value);
      } else if Lookup(u, id).Some? && !LowSynced(Lookup(u, id).value) {
        LookupFinds(r, Lookup(u, id).value);
      }
    }
  }

  /** What is stored and what was pruned, together, changes only by the appended event. */
  lemma AppliedConserves(events: seq<Event>, op: EventOp)
    ensures multiset(Cores(Applied(events, op))) + multiset(Cores(DroppedBy(events, op)))
         == multiset(Cores(events)) + if op.Append? then multiset{op.core} else multiset{}
    ensures forall d | d in DroppedBy(events, op) :: LowSynced(d) && d in Unpruned(events, op)
  {
    if !op.Keep? {
      var u := Unpruned(events, op);
      DropOldestConserves(u, Excess(u));
      if op.Append? {
        assert Cores(u) == Cores(events) + [op.core];
      }
    } else {
      assert Cores(DroppedBy(events, op)) == [];
    }
  }
}
