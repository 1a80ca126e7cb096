/** One uninterrupted sync tick as a function (apps/edge/src/sync/syncLoop.ts, tick), and the proof that
    it is a run of the protocol's steps. */
module TickSpec {
  import opened Wrappers
  import opened Sequences
  import opened EdgeTypes
  import opened StoreSpec
  import opened CentralSync
  import opened SyncWorld
  import opened StoreLookup
  import opened SyncSafety

  /** What the environment does during a tick. raiseAfter: an exception after that many
      acknowledgements were applied (the number of rows in the batch, or more: after all of them). */
  datatype TickEnv = TickEnv(now: int, uploadsOk: bool, delivery: Delivery, raiseAfter: Option<nat>)

  datatype Site = Site(store: Store, backend: Backend)

  function PatchAll(s: Store, rows: seq<Event>, patch: Event -> Patch): Store
    decreases |rows|
  {
    if rows == [] then s else PatchAll(Update(s, rows[0].core.id, patch(rows[0])), rows[1..], patch)
  }

  function RecoverAll(s: Store): Store {
    PatchAll(s, WithStatus(s.events, Syncing), (e: Event) => Recover)
  }

  function MarkAll(s: Store, batch: seq<Event>): Store {
    PatchAll(s, batch, (e: Event) => MarkSyncing)
  }

  function FailAll(c: Config, s: Store, batch: seq<Event>, now: int): Store {
    PatchAll(s, batch, (e: Event) => FailPatch(c, e, now))
  }

  function AckOne(c: Config, s: Store, e: Event, acks: map<Id, AckStatus>, now: int): Store {
    var s' := Update(s, e.core.id, AckPatch(c, e, acks, now));
    if e.core.id in acks && acks[e.core.id] == Conflict then AddConflict(s', e.core.id) else s'
  }

  function AckAll(c: Config, s: Store, batch: seq<Event>, acks: map<Id, AckStatus>, now: int): Store
    decreases |batch|
  {
    if batch == [] then s else AckAll(c, AckOne(c, s, batch[0], acks, now), batch[1..], acks, now)
  }

  function Acknowledged(env: TickEnv, batch: seq<Event>): seq<Event> {
    if env.raiseAfter.Some? then Take(batch, env.raiseAfter.value) else batch
  }

  /** The tick once orphans are recovered and files are uploaded. */
  function Dispatch(c: Config, s: Site, env: TickEnv): Site {
    var batch := Batch(s.store.events, env.now, c.batchSize);
    if batch == [] then s
    else
      var marked := MarkAll(s.store, batch);
      var (backend, reply) := Deliver(s.backend, Cores(batch), env.delivery);
      if reply.None? then Site(FailAll(c, marked, batch, env.now), backend)
      else
        var applied := AckAll(c, marked, Acknowledged(env, batch), reply.value, env.now);
        Site(if env.raiseAfter.Some? then FailAll(c, applied, batch, env.now) else applied, backend)
  }

  function Tick(c: Config, s: Site, env: TickEnv): Site {
    var recovered := s.(store := RecoverAll(s.store));
    if env.uploadsOk then Dispatch(c, recovered, env) else recovered
  }

  function Ticks(c: Config, s: Site, envs: seq<TickEnv>): Site
    decreases |envs|
  {
    if envs == [] then s else Ticks(c, Tick(c, s, envs[0]), envs[1..])
  }

  // ---- a tick is a run ----

  ghost predicate Reaches(c: Config, w: World, w': World) {
    exists steps :: Runs(c, w, steps) && End(c, w, steps) == w'
  }

  lemma ReachesSelf(c: Config, w: World)
    ensures Reaches(c, w, w)
  {
    assert Runs(c, w, []) && End(c, w, []) == w;
  }

  lemma ReachesStep(c: Config, w: World, step: Step, w': World)
    requires Enabled(c, w, step) && Reaches(c, Do(c, w, step), w')
    ensures Reaches(c, w, w')
  {
    var steps :| Runs(c, Do(c, w, step), steps) && End(c, Do(c, w, step), steps) == w';
    RunsOne(c, w, step);
    RunsConcat(c, w, [step], steps);
  }

  lemma ReachesOn(c: Config, w: World, mid: World, w': World)
    requires Reaches(c, w, mid) && Reaches(c, mid, w')
    ensures Reaches(c, w, w')
  {
    var a :| Runs(c, w, a) && End(c, w, a) == mid;
    var b :| Runs(c, mid, b) && End(c, mid, b) == w';
    RunsConcat(c, w, a, b);
  }

  lemma ReachedOk(c: Config, w: World, w': World)
    requires Inv(c, w) && Reaches(c, w, w')
    ensures Inv(c, w')
  {
    var steps :| Runs(c, w, steps) && End(c, w, steps) == w';
    RunKeeps(c, w, steps);
  }

  lemma ReachesOne(c: Config, w: World, step: Step)
    requires Enabled(c, w, step)
    ensures Reaches(c, w, Do(c, w, step))
  {
    RunsOne(c, w, step);
  }

  lemma RecoverRowDone(c: Config, w: World, id: Id)
    requires Enabled(c, w, RecoverRow(id))
    ensures var w' := Do(c, w, RecoverRow(id));
      w'.store == Update(w.store, id, Recover) && w'.phase.Recovering? && w'.backend == w.backend
  {
  }

  lemma FailRowDone(c: Config, w: World, now: int)
    requires w.phase.Failing? && w.phase.next < |w.phase.batch|
    ensures var b := w.phase.batch[w.phase.next]; var w' := Do(c, w, FailRow(now));
      && w'.store == Update(w.store, b.core.id, FailPatch(c, b, now)) && w'.backend == w.backend
      && w'.phase == Failing(w.phase.batch, w.phase.next + 1)
  {
  }

  lemma QuietStepDone(c: Config, w: World, step: Step)
    requires Enabled(c, w, step)
    requires step.BeginTick? || step.SelectBatch? || step.Raise? || step.EndAcks? || step.EndFails? || step.Abandon?
    ensures var w' := Do(c, w, step); w'.store == w.store && w'.backend == w.backend && w'.phase == PhaseAfter(c, w, step)
  {
  }

  /** rows lists the SYNCING rows of the store. */
  ghost predicate OrphansAre(s: Store, rows: seq<Event>) {
    && UniqueIds(rows)
    && (forall e | e in rows :: Lookup(s.events, e.core.id).Some? && Lookup(s.events, e.core.id).value.status == Syncing)
    && (forall e | e in s.events && e.status == Syncing :: exists r :: r in rows && r.core.id == e.core.id)
  }

  lemma OrphansShrink(s: Store, rows: seq<Event>)
    requires UniqueIds(s.events) && OrphansAre(s, rows) && rows != []
    ensures OrphansAre(Update(s, rows[0].core.id, Recover), rows[1..])
  {
    var op := Modify(rows[0].core.id, Recover);
    var s' := Update(s, rows[0].core.id, Recover);
    assert s'.events == Applied(s.events, op);
    UniqueAfter(s.events, op);
    forall e | e in rows[1..]
      ensures Lookup(s'.events, e.core.id).Some? && Lookup(s'.events, e.core.id).value.status == Syncing
    {
      AppliedRow(s.events, op, e.core.id);
    }
    forall e | e in s'.events && e.status == Syncing ensures exists r :: r in rows[1..] && r.core.id == e.core.id {
      AppliedRow(s.events, op, e.core.id);
      LookupFinds(s'.events, e);
      var r :| r in rows && r.core.id == e.core.id;
      assert r in rows[1..];
    }
  }

  lemma RecoverOnce(c: Config, w: World, rows: seq<Event>) returns (w': World)
    requires Inv(c, w) && w.phase.Recovering? && OrphansAre(w.store, rows) && rows != []
    ensures Reaches(c, w, w') && Inv(c, w') && w'.phase.Recovering? && w'.backend == w.backend
    ensures w'.store == Update(w.store, rows[0].core.id, Recover) && OrphansAre(w'.store, rows[1..])
  {
    var step := RecoverRow(rows[0].core.id);
    assert Lookup(w.store.events, rows[0].core.id).Some?;
    w' := Do(c, w, step);
    RecoverRowDone(c, w, rows[0].core.id);
    StepKeeps(c, w, step);
    OrphansShrink(w.store, rows);
    ReachesOne(c, w, step);
  }

  lemma NoOrphans(s: Store)
    requires OrphansAre(s, [])
    ensures WithStatus(s.events, Syncing) == []
  {
    FilterNone(s.events, (e: Event) => e.status == Syncing);
  }

  lemma {:induction false} RecoverRun(c: Config, w: World, rows: seq<Event>) returns (w': World)
    requires Inv(c, w) && w.phase.Recovering? && OrphansAre(w.store, rows)
    ensures Reaches(c, w, w') && w'.phase.Recovering? && w'.backend == w.backend
    ensures w'.store == PatchAll(w.store, rows, (e: Event) => Recover)
    ensures WithStatus(w'.store.events, Syncing) == []
    decreases |rows|
  {
    if rows == [] {
      w' := w;
      ReachesSelf(c, w);
      NoOrphans(w.store);
    } else {
      var w1 := RecoverOnce(c, w, rows);
      w' := RecoverRun(c, w1, rows[1..]);
      ReachesOn(c, w, w1, w');
    }
  }

  lemma {:induction false} MarkRun(c: Config, w: World) returns (w': World)
    requires w.phase.Marking? && w.phase.next <= |w.phase.batch|
    ensures Reaches(c, w, w') && w'.backend == w.backend
    ensures w'.store == MarkAll(w.store, w.phase.batch[w.phase.next..])
    ensures w'.phase == Marking(w.phase.batch, |w.phase.batch|)
    decreases |w.phase.batch| - w.phase.next
  {
    var rest := w.phase.batch[w.phase.next..];
    if rest == [] {
      w' := w;
      ReachesSelf(c, w);
    } else {
      w' := MarkRun(c, Do(c, w, MarkRow));
      assert rest[1..] == w.phase.batch[w.phase.next + 1..];
      ReachesStep(c, w, MarkRow, w');
    }
  }

  lemma {:induction false} FailRun(c: Config, w: World, now: int) returns (w': World)
    requires w.phase.Failing? && w.phase.next <= |w.phase.batch|
    ensures Reaches(c, w, w') && w'.backend == w.backend && w'.phase.Idle?
    ensures w'.store == FailAll(c, w.store, w.phase.batch[w.phase.next..], now)
    decreases |w.phase.batch| - w.phase.next
  {
    var rest := w.phase.batch[w.phase.next..];
    if rest == [] {
      w' := Do(c, w, EndFails);
      QuietStepDone(c, w, EndFails);
      ReachesOne(c, w, EndFails);
    } else {
      FailRowDone(c, w, now);
      var w1 := Do(c, w, FailRow(now));
      ReachesOne(c, w, FailRow(now));
      w' := FailRun(c, w1, now);
      assert rest[1..] == w.phase.batch[w.phase.next + 1..];
      ReachesOn(c, w, w1, w');
    }
  }

  lemma AckRowDone(c: Config, w: World, now: int)
    requires w.phase.Acking? && w.phase.next < |w.phase.batch|
    ensures var e, w' := w.phase.batch[w.phase.next], Do(c, w, AckRow(now));
      && w'.store == Update(w.store, e.core.id, AckPatch(c, e, w.phase.acks, now)) && w'.backend == w.backend
      && w'.phase == Acking(w.phase.batch, w.phase.acks, w.phase.next + 1)
  {
  }

  lemma NoteConflictDone(c: Config, w: World, id: Id)
    requires w.phase.Acking? && id in w.phase.acks && w.phase.acks[id] == Conflict
    ensures var w' := Do(c, w, NoteConflict(id));
      w'.store == AddConflict(w.store, id) && w'.backend == w.backend && w'.phase == w.phase
  {
  }

  lemma AckOneRun(c: Config, w: World, now: int) returns (w': World)
    requires w.phase.Acking? && w.phase.next < |w.phase.batch|
    ensures Reaches(c, w, w') && w'.backend == w.backend
    ensures w'.store == AckOne(c, w.store, w.phase.batch[w.phase.next], w.phase.acks, now)
    ensures w'.phase == Acking(w.phase.batch, w.phase.acks, w.phase.next + 1)
  {
    hide Do, Reaches, AckPatch, Update, AddConflict;
    var id := w.phase.batch[w.phase.next].core.id;
    w' := Do(c, w, AckRow(now));
    AckRowDone(c, w, now);
    ReachesOne(c, w, AckRow(now));
    if id in w.phase.acks && w.phase.acks[id] == Conflict {
      var marked := w';
      w' := Do(c, marked, NoteConflict(id));
      NoteConflictDone(c, marked, id);
      ReachesOne(c, marked, NoteConflict(id));
      ReachesOn(c, w, marked, w');
    }
  }

  /** Applies acknowledgements to the first `upto` rows of the batch. */
  lemma {:induction false} AckRun(c: Config, w: World, now: int, upto: nat) returns (w': World)
    requires w.phase.Acking? && w.phase.next <= upto <= |w.phase.batch|
    ensures Reaches(c, w, w') && w'.backend == w.backend
    ensures w'.store == AckAll(c, w.store, w.phase.batch[w.phase.next..upto], w.phase.acks, now)
    ensures w'.phase == Acking(w.phase.batch, w.phase.acks, upto)
    decreases upto - w.phase.next
  {
    hide AckOne, Reaches;
    var rest := w.phase.batch[w.phase.next..upto];
    if rest == [] {
      w' := w;
      ReachesSelf(c, w);
    } else {
      var w1 := AckOneRun(c, w, now);
      assert rest[1..] == w.phase.batch[w.phase.next + 1..upto];
      w' := AckRun(c, w1, now, upto);
      ReachesOn(c, w, w1, w');
    }
  }

  lemma OrphansAtStart(s: Store)
    requires UniqueIds(s.events)
    ensures OrphansAre(s, WithStatus(s.events, Syncing))
  {
    var rows := WithStatus(s.events, Syncing);
    FilterUnique(s.events, (e: Event) => e.status == Syncing);
    forall e | e in rows ensures Lookup(s.events, e.core.id) == Some(e) {
      LookupFinds(s.events, e);
    }
  }

  lemma SendDone(c: Config, w: World, d: Delivery)
    requires w.phase.Marking? && w.phase.next == |w.phase.batch|
    ensures var (backend, reply) := Deliver(w.backend, Cores(w.phase.batch), d); var w' := Do(c, w, Send(d));
      && w'.store == w.store && w'.backend == backend
      && w'.phase == if reply.None? then Failing(w.phase.batch, 0) else Acking(w.phase.batch, reply.value, 0)
  {
  }

  /** After selection: sending, acknowledging or failing, to the end of the tick. */
  lemma SendRun(c: Config, w: World, env: TickEnv) returns (w': World)
    requires w.phase.Marking? && w.phase.next == |w.phase.batch|
    ensures Reaches(c, w, w') && w'.phase.Idle?
    ensures var batch := w.phase.batch; var (backend, reply) := Deliver(w.backend, Cores(batch), env.delivery);
      && w'.backend == backend
      && (reply.None? ==> w'.store == FailAll(c, w.store, batch, env.now))
      && (reply.Some? ==> var applied := AckAll(c, w.store, Acknowledged(env, batch), reply.value, env.now);
            w'.store == if env.raiseAfter.Some? then FailAll(c, applied, batch, env.now) else applied)
  {
    hide Do, AckAll, FailAll, Reaches, Deliver;
    var batch, step := w.phase.batch, Send(env.delivery);
    var sent := Do(c, w, step);
    SendDone(c, w, env.delivery);
    assert batch[0..] == batch;
    if sent.phase.Failing? {
      w' := FailRun(c, sent, env.now);
    } else {
      var part := Acknowledged(env, batch);
      assert part == batch[0..|part|];
      var acked := AckRun(c, sent, env.now, |part|);
      if env.raiseAfter.Some? {
        QuietStepDone(c, acked, Raise);
        w' := FailRun(c, Do(c, acked, Raise), env.now);
        ReachesStep(c, acked, Raise, w');
      } else {
        w' := Do(c, acked, EndAcks);
        QuietStepDone(c, acked, EndAcks);
        ReachesSelf(c, w');
        ReachesStep(c, acked, EndAcks, w');
      }
      ReachesOn(c, sent, acked, w');
    }
    ReachesStep(c, w, step, w');
  }

  lemma SelectRun(c: Config, w: World, env: TickEnv) returns (w': World)
    requires w.phase.Recovering? && WithStatus(w.store.events, Syncing) == []
    ensures Reaches(c, w, w') && w'.phase.Idle?
    ensures Site(w'.store, w'.backend) == Dispatch(c, Site(w.store, w.backend), env)
  {
    var step := SelectBatch(env.now);
    var chosen := Do(c, w, step);
    QuietStepDone(c, w, step);
    ReachesOne(c, w, step);
    if chosen.phase.Idle? {
      w' := chosen;
    } else {
      var batch := chosen.phase.batch;
      assert batch[0..] == batch;
      var marked := MarkRun(c, chosen);
      w' := SendRun(c, marked, env);
      ReachesOn(c, chosen, marked, w');
      ReachesOn(c, w, chosen, w');
    }
  }

  /** Every uninterrupted tick is a run of protocol steps from an idle state to an idle one, so all that
      holds of every run holds of ticks. */
  lemma TickIsRun(c: Config, w: World, env: TickEnv) returns (w': World)
    requires Inv(c, w) && w.phase.Idle?
    ensures Reaches(c, w, w') && Inv(c, w') && w'.phase.Idle?
    ensures Site(w'.store, w'.backend) == Tick(c, Site(w.store, w.backend), env)
  {
    var begun := Do(c, w, BeginTick);
    QuietStepDone(c, w, BeginTick);
    StepKeeps(c, w, BeginTick);
    ReachesOne(c, w, BeginTick);
    OrphansAtStart(begun.store);
    var recovered := RecoverRun(c, begun, WithStatus(begun.store.events, Syncing));
    ReachesOn(c, w, begun, recovered);
    if env.uploadsOk {
      w' := SelectRun(c, recovered, env);
    } else {
      w' := Do(c, recovered, Abandon);
      QuietStepDone(c, recovered, Abandon);
      ReachesOne(c, recovered, Abandon);
    }
    ReachesOn(c, w, recovered, w');
    ReachedOk(c, w, w');
  }
}
