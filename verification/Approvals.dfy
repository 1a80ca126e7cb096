/**
 Approval requests of one visit (apps/api/src/modules/approvals/engine.ts and the state changes of
 service.ts, with apps/api/src/domain/approvalState.ts): requested one department step at a time, in step
 order, and decided once. Who may decide is not part of this model.
 */
module Approvals {
  import opened Wrappers
  import opened Sequences
  import opened Workflow

  datatype Decision = Pending | Approved | Rejected | Hold | Cancelled

  datatype Approval = Row(sortOrder: int, decision: Decision)

  /** The visit's approval rows, and the rest of its progress. */
  datatype Visit = Visit(rest: Context, approvals: seq<Approval>)

  datatype DecisionError = NotFound | NotPending | NotWeighed | Blocked | Duplicate

  // ---- reading the rows ----

  function OrdersOf(approvals: seq<Approval>, d: Decision): seq<int> {
    Map(Filter(approvals, (a: Approval) => a.decision == d), (a: Approval) => a.sortOrder)
  }

  /** transactionProgress: what the guards see. */
  function Progress(v: Visit): Context {
    v.rest.(approved := OrdersOf(v.approvals, Approved), rejected := OrdersOf(v.approvals, Rejected))
  }

  predicate HasRow(approvals: seq<Approval>, sortOrder: int, d: Decision) {
    Row(sortOrder, d) in approvals
  }

  lemma InOrders(approvals: seq<Approval>, d: Decision, o: int)
    ensures o in OrdersOf(approvals, d) <==> HasRow(approvals, o, d)
  {
    var kept := Filter(approvals, (a: Approval) => a.decision == d);
    if HasRow(approvals, o, d) {
      var i :| 0 <= i < |kept| && kept[i] == Row(o, d);
      assert OrdersOf(approvals, d)[i] == o;
    }
    if o in OrdersOf(approvals, d) {
      var i :| 0 <= i < |kept| && OrdersOf(approvals, d)[i] == o;
      assert kept[i] in kept && kept[i] == Row(o, d);
    }
  }

  lemma NoRejectedIff(approvals: seq<Approval>)
    ensures OrdersOf(approvals, Rejected) == [] <==> forall a | a in approvals :: !a.decision.Rejected?
  {
    if OrdersOf(approvals, Rejected) == [] {
      forall a | a in approvals ensures !a.decision.Rejected? {
        InOrders(approvals, Rejected, a.sortOrder);
      }
    } else {
      InOrders(approvals, Rejected, OrdersOf(approvals, Rejected)[0]);
    }
  }

  predicate IsBlocked(v: Visit) {
    Progress(v).rejected != [] || v.rest.status == REJECTED
  }

  function RemainingOf(v: Visit): seq<Step> {
    Remaining(v.rest.snapshot, v.rest.gross, Progress(v).approved)
  }

  // ---- operations ----

  /** ensureRequiredApproval: request the first remaining step, unless it is already pending. The decision
      is taken on the record the caller read; the row is written to the visit as it is now, where a unique
      index on step and decision refuses a second pending row for a step and undoes the request. */
  function EnsureFrom(read: Visit, v: Visit): Visit {
    var remaining := RemainingOf(read);
    if IsBlocked(read) || remaining == [] || HasRow(read.approvals, remaining[0].sortOrder, Pending) then v
    else if HasRow(v.approvals, remaining[0].sortOrder, Pending) then v
    else Visit(v.rest.(status := if read.rest.status == FIRST_WEIGHMENT then PENDING_APPROVAL else v.rest.status),
               v.approvals + [Row(remaining[0].sortOrder, Pending)])
  }

  function Ensure(v: Visit): Visit {
    EnsureFrom(v, v)
  }

  /** applyApprovalDecision and assertApprovalWorkflowReady. */
  function Refuses(v: Visit, i: nat): Option<DecisionError> {
    if i >= |v.approvals| then Some(NotFound)
    else if !v.approvals[i].decision.Pending? then Some(NotPending)
    else if !v.rest.hasGross then Some(NotWeighed)
    else if IsBlocked(v) then Some(Blocked)
    else None
  }

  function Decide(v: Visit, i: nat, d: Decision): Visit
    requires i < |v.approvals|
  {
    v.(approvals := v.approvals[i := v.approvals[i].(decision := d)])
  }

  function Settle(v: Visit): Visit {
    if RemainingOf(v) != [] then Ensure(v)
    else if CanTransition(v.rest.status, APPROVED) then v.(rest := v.rest.(status := APPROVED))
    else v
  }

  function Approve(v: Visit, i: nat): Result<Visit, DecisionError> {
    if Refuses(v, i).Some? then Err(Refuses(v, i).value)
    else if HasRow(v.approvals, v.approvals[i].sortOrder, Approved) then Err(Duplicate)
    else Ok(Settle(Decide(v, i, Approved)))
  }

  function Reject(v: Visit, i: nat): Result<Visit, DecisionError> {
    if Refuses(v, i).Some? then Err(Refuses(v, i).value)
    else
      var d := Decide(v, i, Rejected);
      Ok(if CanTransition(v.rest.status, REJECTED) then d.(rest := d.rest.(status := REJECTED)) else d)
  }

  /** recordWeighment for the first weighing: the guard, the status graph, the new facts, then a request. */
  function Weigh(v: Visit, milli: int): Result<Visit, WeighError> {
    if CanRecordFirst(Progress(v)).Some? then Err(Refused(CanRecordFirst(Progress(v)).value))
    else if !CanTransition(v.rest.status, FIRST_WEIGHMENT) then Err(Refused(WrongStatus))
    else Ok(Ensure(v.(rest := v.rest.(hasGross := true, gross := Some(milli), status := FIRST_WEIGHMENT))))
  }

  datatype WeighError = Refused(why: Refusal)

  // ---- steps and runs ----

  /** A request names the moment its record was read: the k-th state of the visit's history. */
  datatype Event = RequestEvent(k: nat) | ApproveEvent(i: nat) | RejectEvent(i: nat) | WeighEvent(milli: int) | Elsewhere(rest: Context)

  /** The states of the visit so far, the present one last. */
  type History = h: seq<Visit> | |h| > 0 witness [Visit(GATE, [])]

  const GATE := Context(ARRIVED, false, false, false, false, false, None, None, None, false, false, None, false, [], [])

  function Now(h: History): Visit {
    h[|h| - 1]
  }

  function Next(h: History, e: Event): Visit {
    match e
    case RequestEvent(k) => if k < |h| then EnsureFrom(h[k], Now(h)) else Now(h)
    case ApproveEvent(i) => if Approve(Now(h), i).Ok? then Approve(Now(h), i).value else Now(h)
    case RejectEvent(i) => if Reject(Now(h), i).Ok? then Reject(Now(h), i).value else Now(h)
    case WeighEvent(milli) => if Weigh(Now(h), milli).Ok? then Weigh(Now(h), milli).value else Now(h)
    case Elsewhere(rest) => Now(h).(rest := rest)
  }

  function After(h: History, run: seq<Event>): (r: History)
    ensures h <= r
    decreases |run|
  {
    if run == [] then h else After(h + [Next(h, run[0])], run[1..])
  }

  // ---- invariant ----

  /** The department steps not approved yet, whether or not the weight waives them. */
  function Open(w: Snapshot, approvals: seq<Approval>): seq<Step> {
    Filter(w.steps, Unapproved(OrdersOf(approvals, Approved)))
  }

  /** No step has two rows. */
  ghost predicate OneRowEach(approvals: seq<Approval>) {
    forall i, j | 0 <= i < j < |approvals| :: approvals[i].sortOrder != approvals[j].sortOrder
  }

  /** A department step approved means every earlier one is. */
  ghost predicate ApprovedInOrder(w: Snapshot, approvals: seq<Approval>) {
    forall s, t | s in w.steps && t in w.steps && DepartmentStep(s) && DepartmentStep(t) && s.sortOrder < t.sortOrder
                  && HasRow(approvals, t.sortOrder, Approved) :: HasRow(approvals, s.sortOrder, Approved)
  }

  /** What is pending is the first step still open. */
  ghost predicate PendingIsNext(w: Snapshot, approvals: seq<Approval>) {
    forall a | a in approvals && a.decision.Pending? :: Open(w, approvals) != [] && Open(w, approvals)[0].sortOrder == a.sortOrder
  }

  ghost predicate RowsOk(w: Snapshot, approvals: seq<Approval>) {
    OneRowEach(approvals) && ApprovedInOrder(w, approvals) && PendingIsNext(w, approvals)
  }

  ghost predicate Inv(v: Visit) {
    if v.rest.snapshot.None? then v.approvals == []
    else Sorted(v.rest.snapshot.value.steps) && RowsOk(v.rest.snapshot.value, v.approvals)
  }

  lemma {:induction false} FirstIsLeast(steps: seq<Step>, keep: Step -> bool, s: Step)
    requires Sorted(steps) && s in Filter(steps, keep)
    ensures Filter(steps, keep)[0].sortOrder <= s.sortOrder && Filter(steps, keep)[0] in steps
  {
    if !keep(steps[0]) {
      FirstIsLeast(steps[1..], keep, s);
    } else {
      var i :| 0 <= i < |steps| && steps[i] == s;
    }
  }

  lemma OpenFacts(w: Snapshot, approvals: seq<Approval>, s: Step)
    ensures s in Open(w, approvals) <==> s in w.steps && DepartmentStep(s) && !HasRow(approvals, s.sortOrder, Approved)
    ensures Sorted(w.steps) && s in Open(w, approvals) ==> Open(w, approvals)[0].sortOrder <= s.sortOrder
  {
    var keep := Unapproved(OrdersOf(approvals, Approved));
    InOrders(approvals, Approved, s.sortOrder);
    assert keep(s) <==> DepartmentStep(s) && !HasRow(approvals, s.sortOrder, Approved);
    if Sorted(w.steps) && s in Open(w, approvals) {
      FirstIsLeast(w.steps, keep, s);
    }
  }

  lemma RemainingIsOpen(v: Visit)
    requires v.rest.snapshot.Some? && RemainingOf(v) != []
    ensures RemainingOf(v) == Open(v.rest.snapshot.value, v.approvals)
    ensures var n := RemainingOf(v)[0]; DepartmentStep(n) && n in v.rest.snapshot.value.steps && !HasRow(v.approvals, n.sortOrder, Approved)
  {
    OpenFacts(v.rest.snapshot.value, v.approvals, RemainingOf(v)[0]);
  }

  /** Same approved rows, same open steps. */
  lemma OpenAgrees(w: Snapshot, a: seq<Approval>, b: seq<Approval>)
    requires forall o :: HasRow(a, o, Approved) <==> HasRow(b, o, Approved)
    ensures Open(w, a) == Open(w, b)
  {
    forall s | s in w.steps ensures Unapproved(OrdersOf(a, Approved))(s) == Unapproved(OrdersOf(b, Approved))(s) {
      InOrders(a, Approved, s.sortOrder);
      InOrders(b, Approved, s.sortOrder);
    }
    FilterAgrees(w.steps, Unapproved(OrdersOf(a, Approved)), Unapproved(OrdersOf(b, Approved)));
  }

  lemma NextHasNoRow(w: Snapshot, approvals: seq<Approval>, o: int)
    requires RowsOk(w, approvals) && Open(w, approvals) != [] && o == Open(w, approvals)[0].sortOrder
    requires !HasRow(approvals, o, Pending) && forall a | a in approvals :: !a.decision.Rejected?
    requires forall a | a in approvals :: !a.decision.Hold? && !a.decision.Cancelled?
    ensures forall a | a in approvals :: a.sortOrder != o && !a.decision.Pending?
  {
    OpenFacts(w, approvals, Open(w, approvals)[0]);
    forall a | a in approvals ensures a.sortOrder != o && !a.decision.Pending? {
      assert a == Row(a.sortOrder, a.decision);
    }
  }

  /** Decisions other than these three are never written. */
  ghost predicate Plain(v: Visit) {
    forall a | a in v.approvals :: !a.decision.Hold? && !a.decision.Cancelled?
  }

  // ---- requests ----

  ghost predicate AtMostOnePending(approvals: seq<Approval>) {
    forall i, j | 0 <= i < j < |approvals| :: !(approvals[i].decision.Pending? && approvals[j].decision.Pending?)
  }

  ghost predicate NonePending(approvals: seq<Approval>) {
    forall a | a in approvals :: !a.decision.Pending?
  }

  ghost predicate NoRowFor(approvals: seq<Approval>, o: int) {
    forall a | a in approvals :: a.sortOrder != o
  }

  /** The step is the first open one of the visit and has no row yet. */
  ghost predicate IsDue(v: Visit, o: int) {
    && v.rest.snapshot.Some? && NoRowFor(v.approvals, o)
    && var open := Open(v.rest.snapshot.value, v.approvals); open != [] && open[0].sortOrder == o
  }

  /** What the record asks for is what the visit, as it is now, is due. */
  ghost predicate AsksWhatIsDue(read: Visit, v: Visit) {
    RemainingOf(read) != [] && IsDue(v, RemainingOf(read)[0].sortOrder)
  }

  /** A required approval step with a department that nobody has approved yet, no such step before it. */
  ghost predicate IsNextStep(w: Snapshot, approvals: seq<Approval>, s: Step) {
    && OpenStep(w, approvals, s)
    && forall t | OpenStep(w, approvals, t) :: s.sortOrder <= t.sortOrder
  }

  ghost predicate OpenStep(w: Snapshot, approvals: seq<Approval>, s: Step) {
    && s in w.steps && s.capability == Approval && s.isRequired && s.department.Some?
    && !HasRow(approvals, s.sortOrder, Approved)
  }

  /** The workflow waives approval below a threshold, and the weight is known to be below it. */
  predicate Light(w: Snapshot, gross: Option<int>) {
    w.autoContinue && w.threshold.Some? && gross.Some? && gross.value < w.threshold.value
  }

  /** The visit needs nobody's approval, or nobody's any more. */
  ghost predicate NothingOpen(v: Visit, w: Snapshot) {
    Light(w, v.rest.gross) || forall s :: !OpenStep(w, v.approvals, s)
  }

  lemma RemainingIsNext(v: Visit, w: Snapshot)
    requires v.rest.snapshot == Some(w) && Sorted(w.steps)
    ensures RemainingOf(v) == [] <==> NothingOpen(v, w)
    ensures RemainingOf(v) != [] ==> IsNextStep(w, v.approvals, RemainingOf(v)[0])
  {
    hide RemainingOf, OrdersOf, Open;
    forall s ensures Light(w, v.rest.gross) || (s in RemainingOf(v) <==> OpenStep(w, v.approvals, s)) {
      InOrders(v.approvals, Approved, s.sortOrder);
      RemainingHas(v, w, s);
    }
    RemainingHas(v, w, Step(0, Approval, true, None));
    if RemainingOf(v) != [] {
      assert RemainingOf(v)[0] in RemainingOf(v);
      forall t | OpenStep(w, v.approvals, t) ensures RemainingOf(v)[0].sortOrder <= t.sortOrder {
        RemainingIsOpen(v);
        OpenFacts(w, v.approvals, t);
      }
    }
  }

  lemma RemainingHas(v: Visit, w: Snapshot, s: Step)
    requires v.rest.snapshot == Some(w)
    ensures Light(w, v.rest.gross) ==> RemainingOf(v) == []
    ensures !Light(w, v.rest.gross) ==>
      (s in RemainingOf(v) <==> s in w.steps && s.capability == Approval && s.isRequired && s.department.Some?
                                && s.sortOrder !in OrdersOf(v.approvals, Approved))
  {
    HeavyIsNeverWaived(w, v.rest.gross, OrdersOf(v.approvals, Approved), s);
  }

  /** Whom a visit is referred to. Unless it is rejected, light, or fully approved, looking at it leaves a
      pending row for its next step, the first in order that nobody has approved; a new row is last and moves
      a just weighed visit to PENDING_APPROVAL. In the other cases looking changes nothing. */
  lemma LookingAsksNext(v: Visit, w: Snapshot)
    requires v.rest.snapshot == Some(w) && Sorted(w.steps)
    ensures (WasRejected(v) || v.rest.status == REJECTED) || NothingOpen(v, w) ==> Ensure(v) == v
    ensures !WasRejected(v) && v.rest.status != REJECTED && !Light(w, v.rest.gross) ==>
      forall s | IsNextStep(w, v.approvals, s) ::
        if HasRow(v.approvals, s.sortOrder, Pending) then Ensure(v) == v
        else Ensure(v) == Visit(v.rest.(status := if v.rest.status == FIRST_WEIGHMENT then PENDING_APPROVAL else v.rest.status),
                                v.approvals + [Row(s.sortOrder, Pending)])
  {
    RemainingIsNext(v, w);
    NoRejectedIff(v.approvals);
    hide RemainingOf, Open, OrdersOf;
  }

  function Weighed(v: Visit, milli: int): Visit {
    v.(rest := v.rest.(hasGross := true, gross := Some(milli), status := FIRST_WEIGHMENT))
  }

  lemma WeighIff(v: Visit, w: Snapshot, milli: int)
    requires v.rest.snapshot == Some(w)
    ensures Weigh(v, milli).Ok? <==>
      !v.rest.hasGross && AllMet(w, FirstWeighment, Progress(v)) && v.rest.status in {IDENTIFIED, DOCUMENT_VERIFIED, MATERIAL_CLASSIFIED}
    ensures Weigh(v, milli).Ok? ==> Weigh(v, milli).value == Ensure(Weighed(v, milli))
  {
    RecordFirstIff(Progress(v));
    EnteredFrom(v.rest.status);
    hide Ensure, AllMet, CanRecordFirst, CanTransition, OrdersOf;
  }

  /** What an accepted first weighing leaves: the weight noted, and a heavy visit that some department has not
      approved already referred to its next step; a light or approved one just weighed. */
  lemma WeighedIsAsked(v: Visit, w: Snapshot, milli: int)
    requires v.rest.snapshot == Some(w) && Sorted(w.steps) && Weigh(v, milli).Ok? && !WasRejected(v)
    ensures var u := Weigh(v, milli).value;
      && u.rest.hasGross && u.rest.gross == Some(milli)
      && (NothingOpen(Weighed(v, milli), w) ==> u.approvals == v.approvals && u.rest.status == FIRST_WEIGHMENT)
      && (!Light(w, Some(milli)) ==>
            forall s | IsNextStep(w, v.approvals, s) && !HasRow(v.approvals, s.sortOrder, Pending) ::
              u.approvals == v.approvals + [Row(s.sortOrder, Pending)] && u.rest.status == PENDING_APPROVAL)
  {
    WeighIff(v, w, milli);
    LookingAsksNext(Weighed(v, milli), w);
    EnsureKeepsWeight(Weighed(v, milli));
    hide Ensure, Weigh, IsNextStep;
  }

  lemma EnsureKeepsWeight(v: Visit)
    ensures Ensure(v).rest.hasGross == v.rest.hasGross && Ensure(v).rest.gross == v.rest.gross
  {
    hide RemainingOf, IsBlocked;
  }

  lemma RequestAdds(read: Visit, v: Visit)
    requires EnsureFrom(read, v) != v
    ensures RemainingOf(read) != [] && EnsureFrom(read, v).approvals == v.approvals + [Row(RemainingOf(read)[0].sortOrder, Pending)]
    ensures EnsureFrom(read, v).rest.snapshot == v.rest.snapshot
  {
  }

  /** When a request decided on any record, however old, keeps each of three things. Its step has one row
      if and only if it had none. At most one row is pending if and only if none was. And the visit stays in
      order if and only if the request is for what the visit is due now. */
  lemma RequestKeepsIff(read: Visit, v: Visit)
    ensures var v' := EnsureFrom(read, v);
      && (OneRowEach(v.approvals) ==>
            (OneRowEach(v'.approvals) <==> v' == v || NoRowFor(v.approvals, RemainingOf(read)[0].sortOrder)))
      && (AtMostOnePending(v.approvals) ==> (AtMostOnePending(v'.approvals) <==> v' == v || NonePending(v.approvals)))
      && (Inv(v) ==> (Inv(v') <==> v' == v || AsksWhatIsDue(read, v)))
  {
    hide EnsureFrom, RemainingOf, Open;
    var v' := EnsureFrom(read, v);
    if v' != v {
      RequestAdds(read, v);
      var o := RemainingOf(read)[0].sortOrder;
      AddedRowIff(v.approvals, o);
      if Inv(v) { AddedInOrderIff(v, v', o); }
    }
  }

  lemma AddedRowIff(approvals: seq<Approval>, o: int)
    ensures var after := approvals + [Row(o, Pending)];
      && (OneRowEach(approvals) ==> (OneRowEach(after) <==> NoRowFor(approvals, o)))
      && (AtMostOnePending(approvals) ==> (AtMostOnePending(after) <==> NonePending(approvals)))
  {
    var after, n := approvals + [Row(o, Pending)], |approvals|;
    assert after[n] == Row(o, Pending);
    forall a | a in approvals
      ensures OneRowEach(after) ==> a.sortOrder != o
      ensures AtMostOnePending(after) ==> !a.decision.Pending?
    {
      var i :| 0 <= i < n && approvals[i] == a;
      assert after[i] == a;
    }
  }

  lemma AddedInOrderIff(v: Visit, v': Visit, o: int)
    requires Inv(v) && v'.rest.snapshot == v.rest.snapshot && v'.approvals == v.approvals + [Row(o, Pending)]
    ensures Inv(v') <==> IsDue(v, o)
  {
    if v.rest.snapshot.Some? {
      var w := v.rest.snapshot.value;
      forall x ensures HasRow(v'.approvals, x, Approved) <==> HasRow(v.approvals, x, Approved) {
      }
      OpenAgrees(w, v.approvals, v'.approvals);
      AddedRowIff(v.approvals, o);
      hide Open, Sorted;
      if Inv(v') {
        assert Row(o, Pending) in v'.approvals;
      }
    }
  }

  /** A request decided on the present state is always for what is due. */
  lemma FreshRequestIsDue(v: Visit)
    requires Inv(v) && Plain(v)
    ensures Ensure(v) == v || AsksWhatIsDue(v, v)
  {
    if Ensure(v) != v {
      var w, o := v.rest.snapshot.value, RemainingOf(v)[0].sortOrder;
      RemainingIsOpen(v);
      NoRejectedIff(v.approvals);
      NextHasNoRow(w, v.approvals, o);
    }
  }

  lemma RequestPlain(read: Visit, v: Visit)
    requires Plain(v)
    ensures Plain(EnsureFrom(read, v))
  {
    hide RemainingOf, IsBlocked, HasRow;
  }

  lemma EnsureKeeps(v: Visit)
    requires Inv(v) && Plain(v)
    ensures Inv(Ensure(v)) && Plain(Ensure(v))
  {
    hide Inv, EnsureFrom, AsksWhatIsDue;
    FreshRequestIsDue(v);
    RequestKeepsIff(v, v);
    RequestPlain(v, v);
  }

  lemma DecidedRows(approvals: seq<Approval>, i: nat, d: Decision, o: int, k: Decision)
    requires OneRowEach(approvals) && i < |approvals|
    ensures var after := approvals[i := approvals[i].(decision := d)];
      && OneRowEach(after)
      && (HasRow(after, o, k) <==> if o == approvals[i].sortOrder then k == d else HasRow(approvals, o, k))
  {
    var after := approvals[i := approvals[i].(decision := d)];
    if HasRow(after, o, k) {
      var j :| 0 <= j < |after| && after[j] == Row(o, k);
    }
    if HasRow(approvals, o, k) && o != approvals[i].sortOrder {
      var j :| 0 <= j < |approvals| && approvals[j] == Row(o, k);
      assert after[j] == Row(o, k);
    }
    if o == approvals[i].sortOrder && k == d {
      assert after[i] == Row(o, k);
    }
  }

  /** Only one row is ever pending. */
  lemma OnePending(w: Snapshot, approvals: seq<Approval>, i: nat, j: nat)
    requires RowsOk(w, approvals) && i < |approvals| && j < |approvals| && approvals[i].decision.Pending? && i != j
    ensures !approvals[j].decision.Pending?
  {
    assert approvals[i] in approvals && approvals[j] in approvals;
  }

  /** Deciding the pending row leaves none pending. */
  lemma DecidedNonePending(w: Snapshot, approvals: seq<Approval>, i: nat, d: Decision)
    requires RowsOk(w, approvals) && i < |approvals| && approvals[i].decision.Pending? && !d.Pending?
    ensures NonePending(approvals[i := approvals[i].(decision := d)])
  {
    var after := approvals[i := approvals[i].(decision := d)];
    forall a | a in after ensures !a.decision.Pending? {
      var j :| 0 <= j < |after| && after[j] == a;
      if j != i {
        OnePending(w, approvals, i, j);
      }
    }
  }

  lemma PendingNotApproved(approvals: seq<Approval>, i: nat)
    requires OneRowEach(approvals) && i < |approvals| && approvals[i].decision.Pending?
    ensures !HasRow(approvals, approvals[i].sortOrder, Approved)
  {
  }

  lemma ApprovalKeeps(w: Snapshot, approvals: seq<Approval>, i: nat)
    requires Sorted(w.steps) && RowsOk(w, approvals) && i < |approvals| && approvals[i].decision.Pending?
    ensures var after := approvals[i := approvals[i].(decision := Approved)];
      RowsOk(w, after) && NonePending(after)
  {
    var o, after := approvals[i].sortOrder, approvals[i := approvals[i].(decision := Approved)];
    forall x, k ensures HasRow(after, x, k) <==> if x == o then k == Approved else HasRow(approvals, x, k) {
      DecidedRows(approvals, i, Approved, x, k);
    }
    DecidedRows(approvals, i, Approved, o, Approved);
    assert approvals[i] in approvals;
    forall s, t | s in w.steps && t in w.steps && DepartmentStep(s) && DepartmentStep(t) && s.sortOrder < t.sortOrder
                  && HasRow(after, t.sortOrder, Approved)
      ensures HasRow(after, s.sortOrder, Approved)
    {
      OpenFacts(w, approvals, s);
    }
    DecidedNonePending(w, approvals, i, Approved);
  }

  lemma RejectionKeeps(w: Snapshot, approvals: seq<Approval>, i: nat)
    requires RowsOk(w, approvals) && i < |approvals| && approvals[i].decision.Pending?
    ensures RowsOk(w, approvals[i := approvals[i].(decision := Rejected)])
  {
    var o, after := approvals[i].sortOrder, approvals[i := approvals[i].(decision := Rejected)];
    PendingNotApproved(approvals, i);
    forall x ensures HasRow(after, x, Approved) <==> HasRow(approvals, x, Approved) {
      DecidedRows(approvals, i, Rejected, x, Approved);
    }
    DecidedRows(approvals, i, Rejected, o, Rejected);
    OpenAgrees(w, approvals, after);
    DecidedNonePending(w, approvals, i, Rejected);
  }

  lemma DecideKeeps(v: Visit, i: nat, d: Decision)
    requires Inv(v) && Plain(v) && Refuses(v, i).None? && (d.Approved? || d.Rejected?)
    ensures Inv(Decide(v, i, d)) && Plain(Decide(v, i, d))
  {
    var w := v.rest.snapshot.value;
    if d.Approved? {
      ApprovalKeeps(w, v.approvals, i);
    } else {
      RejectionKeeps(w, v.approvals, i);
    }
  }

  // ---- changes made elsewhere ----

  function StepsOf(w: Option<Snapshot>): Option<seq<Step>> {
    if w.None? then None else Some(w.value.steps)
  }

  /** Order depends on the steps of the workflow alone: verifying the material, weighing and everything else
      elsewhere leaves it as it is. */
  lemma InvReadsSteps(v: Visit, rest: Context)
    requires StepsOf(rest.snapshot) == StepsOf(v.rest.snapshot)
    ensures Inv(v.(rest := rest)) <==> Inv(v)
  {
  }

  /** Nothing is asked or what is asked is the first department step of the workflow. */
  ghost predicate Fits(w: Option<Snapshot>, approvals: seq<Approval>) {
    && (w.Some? ==> Sorted(w.value.steps))
    && forall a | a in approvals :: w.Some? && Departments(w.value) != [] && a.sortOrder == Departments(w.value)[0].sortOrder
  }

  lemma OpenOfUndecided(w: Snapshot, approvals: seq<Approval>)
    requires forall a | a in approvals :: a.decision.Pending?
    ensures Open(w, approvals) == Departments(w)
  {
    forall s | s in w.steps ensures Unapproved(OrdersOf(approvals, Approved))(s) == DepartmentStep(s) {
      InOrders(approvals, Approved, s.sortOrder);
    }
    FilterAgrees(w.steps, Unapproved(OrdersOf(approvals, Approved)), DepartmentStep);
  }

  /** Assigning a workflow, or another one, to a visit nothing has been decided on keeps it in order if and
      only if the new steps are sorted and a request already pending is for the first of them. */
  lemma ReassignKeepsIff(v: Visit, rest: Context)
    requires Inv(v) && forall a | a in v.approvals :: a.decision.Pending?
    ensures Inv(v.(rest := rest)) <==> Fits(rest.snapshot, v.approvals)
  {
    var w := rest.snapshot;
    if w.Some? {
      OpenOfUndecided(w.value, v.approvals);
    }
    if v.approvals != [] {
      assert v.approvals[0] in v.approvals;
    }
    hide Open, Departments, Sorted, OrdersOf;
  }

  /** A change elsewhere keeps the steps, or assigns a workflow that fits while nothing is decided. */
  ghost predicate Allows(v: Visit, rest: Context) {
    || StepsOf(rest.snapshot) == StepsOf(v.rest.snapshot)
    || ((forall a | a in v.approvals :: a.decision.Pending?) && Fits(rest.snapshot, v.approvals))
  }

  /** The request is decided on the present state, changes nothing, or asks what is due. */
  ghost predicate Lands(h: History, k: nat) {
    k >= |h| - 1 || EnsureFrom(h[k], Now(h)) == Now(h) || AsksWhatIsDue(h[k], Now(h))
  }

  ghost predicate Orderly(h: History, e: Event) {
    match e
    case RequestEvent(k) => Lands(h, k)
    case Elsewhere(rest) => Allows(Now(h), rest)
    case _ => true
  }

  ghost predicate OrderlyRun(h: History, run: seq<Event>)
    decreases |run|
  {
    run == [] || (Orderly(h, run[0]) && OrderlyRun(h + [Next(h, run[0])], run[1..]))
  }

  lemma WeighKeeps(v: Visit, milli: int)
    requires Inv(v) && Plain(v) && Weigh(v, milli).Ok?
    ensures Inv(Weigh(v, milli).value) && Plain(Weigh(v, milli).value)
  {
    hide Ensure, Inv, CanRecordFirst;
    var rest := v.rest.(hasGross := true, gross := Some(milli), status := FIRST_WEIGHMENT);
    InvReadsSteps(v, rest);
    EnsureKeeps(v.(rest := rest));
  }

  /** Every event keeps the visit in order exactly when it is orderly, where order is at stake at all. */
  lemma StepKeepsIff(h: History, e: Event)
    requires Inv(Now(h)) && Plain(Now(h))
    ensures Orderly(h, e) ==> Inv(Next(h, e))
    ensures e.RequestEvent? ==> (Inv(Next(h, e)) <==> Orderly(h, e))
    ensures Plain(Next(h, e))
  {
    hide Inv, EnsureFrom, AsksWhatIsDue, Weigh, IsBlocked, HasRow, RemainingOf, Fits;
    var v := Now(h);
    match e
    case RequestEvent(k) =>
      if k < |h| {
        RequestKeepsIff(h[k], v);
        RequestPlain(h[k], v);
        FreshRequestIsDue(v);
      }
    case ApproveEvent(i) =>
      if Approve(v, i).Ok? {
        DecideKeeps(v, i, Approved);
        EnsureKeeps(Decide(v, i, Approved));
        SettleKeeps(Decide(v, i, Approved));
      }
    case RejectEvent(i) =>
      if Reject(v, i).Ok? {
        DecideKeeps(v, i, Rejected);
        InvReadsSteps(Decide(v, i, Rejected), Reject(v, i).value.rest);
      }
    case WeighEvent(milli) =>
      if Weigh(v, milli).Ok? { WeighKeeps(v, milli); }
    case Elsewhere(rest) =>
      if StepsOf(rest.snapshot) == StepsOf(v.rest.snapshot) {
        InvReadsSteps(v, rest);
      } else if Allows(v, rest) {
        ReassignKeepsIff(v, rest);
      }
  }

  lemma SettleKeeps(u: Visit)
    requires Inv(u) && Plain(u)
    ensures Inv(Settle(u)) && Plain(Settle(u))
  {
    hide Inv, Ensure, RemainingOf;
    EnsureKeeps(u);
    InvReadsSteps(u, u.rest.(status := APPROVED));
  }

  // ---- the theorems ----

  /** Over every run of requests, decisions, weighings and other changes, as long as each request decided on
      an old record asks what is due when it is written. */
  lemma {:induction false} RunKeeps(h: History, run: seq<Event>)
    requires Inv(Now(h)) && Plain(Now(h)) && OrderlyRun(h, run)
    ensures Inv(Now(After(h, run))) && Plain(Now(After(h, run)))
    decreases |run|
  {
    hide Inv, Plain, Next, Orderly;
    if run != [] {
      StepKeepsIff(h, run[0]);
      RunKeeps(h + [Next(h, run[0])], run[1..]);
    }
  }

  /** So over every such run of a visit that starts at the gate. */
  lemma OrderFromTheGate(run: seq<Event>)
    requires OrderlyRun([Visit(GATE, [])], run)
    ensures Inv(Now(After([Visit(GATE, [])], run)))
  {
    hide After, OrderlyRun;
    RunKeeps([Visit(GATE, [])], run);
  }

  lemma {:induction false} UnapprovedAreLast(d: seq<Step>, approved: seq<int>) returns (k: nat)
    requires Sorted(d) && forall s | s in d :: DepartmentStep(s)
    requires forall s, t | s in d && t in d && s.sortOrder < t.sortOrder && t.sortOrder in approved :: s.sortOrder in approved
    ensures k <= |d| && Filter(d, Unapproved(approved)) == d[k..]
  {
    if d == [] {
      k := 0;
    } else if d[0].sortOrder in approved {
      k := UnapprovedAreLast(d[1..], approved);
      k := k + 1;
    } else {
      forall s | s in d ensures Unapproved(approved)(s) {
        var j :| 0 <= j < |d| && d[j] == s;
        assert d[0] in d;
      }
      FilterAll(d, Unapproved(approved));
      k := 0;
    }
  }

  lemma {:induction false} FilterSorted(s: seq<Step>, keep: Step -> bool)
    requires Sorted(s)
    ensures Sorted(Filter(s, keep))
  {
    if s != [] {
      FilterSorted(s[1..], keep);
      forall x | x in Filter(s[1..], keep) ensures s[0].sortOrder <= x.sortOrder {
        var i :| 0 <= i < |s[1..]| && s[1..][i] == x;
      }
    }
  }

  /** The open steps are always a tail of the department steps in order, and at most one row is pending:
      the one for the first of them. */
  lemma OpenIsSuffix(v: Visit) returns (k: nat)
    requires Inv(v) && v.rest.snapshot.Some?
    ensures var w := v.rest.snapshot.value; k <= |Departments(w)| && Open(w, v.approvals) == Departments(w)[k..]
    ensures forall a | a in v.approvals && a.decision.Pending? ::
      k < |Departments(v.rest.snapshot.value)| && a.sortOrder == Departments(v.rest.snapshot.value)[k].sortOrder
  {
    var w, approved := v.rest.snapshot.value, OrdersOf(v.approvals, Approved);
    var d := Departments(w);
    FilterSorted(w.steps, DepartmentStep);
    forall s, t | s in d && t in d && s.sortOrder < t.sortOrder && t.sortOrder in approved ensures s.sortOrder in approved {
      InOrders(v.approvals, Approved, s.sortOrder);
      InOrders(v.approvals, Approved, t.sortOrder);
    }
    FilterTwice(w.steps, DepartmentStep, Unapproved(approved), Unapproved(approved));
    k := UnapprovedAreLast(d, approved);
  }

  /** Approving takes at least the first open step off the list and leaves a tail of it. */
  lemma ApproveShrinks(v: Visit, i: nat) returns (k: nat)
    requires Inv(v) && Plain(v) && Approve(v, i).Ok?
    ensures var w := v.rest.snapshot.value; var before, after := Open(w, v.approvals), Open(w, Approve(v, i).value.approvals);
      0 < k <= |before| && after == before[k..]
  {
    var w, u := v.rest.snapshot.value, Decide(v, i, Approved);
    assert v.approvals[i] in v.approvals;
    DecideKeeps(v, i, Approved);
    SettleApproves(u);
    var k0 := OpenIsSuffix(v);
    var k1 := OpenIsSuffix(u);
    k := DroppedFirst(w, v, u, i, k0, k1);
  }

  lemma SettleApproves(u: Visit)
    requires u.rest.snapshot.Some?
    ensures Open(u.rest.snapshot.value, Settle(u).approvals) == Open(u.rest.snapshot.value, u.approvals)
  {
    var a, b := u.approvals, Settle(u).approvals;
    forall o ensures HasRow(a, o, Approved) <==> HasRow(b, o, Approved) {
    }
    OpenAgrees(u.rest.snapshot.value, a, b);
  }

  lemma DroppedFirst(w: Snapshot, v: Visit, u: Visit, i: nat, k0: nat, k1: nat) returns (k: nat)
    requires Inv(v) && v.rest.snapshot == Some(w) && i < |v.approvals| && u == Decide(v, i, Approved)
    requires k0 < |Departments(w)| && k1 <= |Departments(w)| && v.approvals[i].sortOrder == Departments(w)[k0].sortOrder
    requires Open(w, v.approvals) == Departments(w)[k0..] && Open(w, u.approvals) == Departments(w)[k1..]
    ensures 0 < k <= |Open(w, v.approvals)| && Open(w, u.approvals) == Open(w, v.approvals)[k..]
  {
    var d := Departments(w);
    if k1 <= k0 {
      var s := d[k0];
      assert s == d[k1..][k0 - k1];
      assert s in Open(w, u.approvals);
      OpenFacts(w, u.approvals, s);
      DecidedRows(v.approvals, i, Approved, s.sortOrder, Approved);
      assert false;
    }
    k := k1 - k0;
    assert d[k0..][k..] == d[k1..];
  }

  /** An accepted approval moves the visit to APPROVED only when nothing remains; and when nothing remains
      it does so if and only if the visit stood at PENDING_APPROVAL (or already at APPROVED). */
  lemma ApprovedOnlyWhenDone(v: Visit, i: nat)
    requires Approve(v, i).Ok?
    ensures var v' := Approve(v, i).value; var left := RemainingOf(Decide(v, i, Approved));
      && (v'.rest.status == APPROVED && v.rest.status != APPROVED ==> left == [] && RemainingOf(v') == [])
      && (left == [] ==> (v'.rest.status == APPROVED <==> v.rest.status == PENDING_APPROVAL || v.rest.status == APPROVED))
  {
  }

  // ---- where a visit with a pending request stands ----

  /** Requests on the present state, decisions, and other changes that leave status, workflow and weight. */
  ghost predicate Quiet(h: History, e: Event) {
    match e
    case RequestEvent(k) => k == |h| - 1
    case Elsewhere(rest) =>
      && rest.status == Now(h).rest.status && rest.gross == Now(h).rest.gross
      && SameWorkflow(Now(h).rest.snapshot, rest.snapshot)
    case WeighEvent(_) => false
    case _ => true
  }

  ghost predicate QuietRun(h: History, run: seq<Event>)
    decreases |run|
  {
    run == [] || (Quiet(h, run[0]) && QuietRun(h + [Next(h, run[0])], run[1..]))
  }

  /** What the status says about the rows, n of which were there when the visit was weighed. */
  ghost predicate StatusSays(v: Visit, n: nat) {
    && n <= |v.approvals|
    && (v.rest.status == FIRST_WEIGHMENT <==> |v.approvals| == n)
    && (v.rest.status == REJECTED ==> NonePending(v.approvals))
    && (v.rest.status == APPROVED ==> NonePending(v.approvals) && RemainingOf(v) == [])
    && v.rest.status in {FIRST_WEIGHMENT, PENDING_APPROVAL, APPROVED, REJECTED}
    && (forall i | 0 <= i < n && v.approvals[i].decision.Pending? :: |v.approvals| == n)
  }

  lemma RequestStatus(v: Visit, n: nat)
    requires Inv(v) && Plain(v) && StatusSays(v, n)
    ensures StatusSays(Ensure(v), n)
  {
    if Ensure(v) != v {
      FreshRequestIsDue(v);
      RequestKeepsIff(v, v);
      FreshNonePending(v);
      hide Inv, Plain, AsksWhatIsDue, Open, RemainingOf, OrdersOf;
    }
  }

  lemma FreshNonePending(v: Visit)
    requires Inv(v) && Plain(v) && Ensure(v) != v
    ensures NonePending(v.approvals)
  {
    RemainingIsOpen(v);
    NoRejectedIff(v.approvals);
    NextHasNoRow(v.rest.snapshot.value, v.approvals, RemainingOf(v)[0].sortOrder);
  }

  lemma ApproveStatus(v: Visit, i: nat, n: nat)
    requires Inv(v) && Plain(v) && StatusSays(v, n) && Approve(v, i).Ok?
    ensures StatusSays(Approve(v, i).value, n)
  {
    var u := Decide(v, i, Approved);
    DecideKeeps(v, i, Approved);
    DecidedNonePending(v.rest.snapshot.value, v.approvals, i, Approved);
    assert v.approvals[i] in v.approvals;
    hide Inv, Plain, Settle, RemainingOf, IsBlocked, HasRow;
    SettleStatus(u, n);
  }

  lemma SettleStatus(u: Visit, n: nat)
    requires Inv(u) && Plain(u) && NonePending(u.approvals) && n <= |u.approvals|
    requires u.rest.status in {FIRST_WEIGHMENT, PENDING_APPROVAL} && (u.rest.status == FIRST_WEIGHMENT <==> |u.approvals| == n)
    ensures StatusSays(Settle(u), n)
  {
    hide Inv, Plain, Ensure, RemainingOf;
    RemainingReads(u, u.rest.(status := APPROVED));
    RequestStatus(u, n);
  }

  lemma RejectStatus(v: Visit, i: nat, n: nat)
    requires Inv(v) && Plain(v) && StatusSays(v, n) && Reject(v, i).Ok?
    ensures StatusSays(Reject(v, i).value, n)
  {
    DecidedNonePending(v.rest.snapshot.value, v.approvals, i, Rejected);
    assert v.approvals[i] in v.approvals;
    hide Inv, Plain, RemainingOf, OrdersOf;
  }

  lemma RemainingReads(v: Visit, rest: Context)
    requires SameWorkflow(v.rest.snapshot, rest.snapshot) && rest.gross == v.rest.gross
    ensures RemainingOf(v.(rest := rest)) == RemainingOf(v)
  {
  }

  lemma WeighStatus(v: Visit, milli: int)
    requires Inv(v) && Plain(v) && Weigh(v, milli).Ok?
    ensures var u := Weigh(v, milli).value; Inv(u) && Plain(u) && StatusSays(u, |v.approvals|)
  {
    WeighKeeps(v, milli);
    var rest := v.rest.(hasGross := true, gross := Some(milli), status := FIRST_WEIGHMENT);
    InvReadsSteps(v, rest);
    RequestStatus(v.(rest := rest), |v.approvals|);
    hide Ensure, Inv, CanRecordFirst;
  }

  lemma QuietKeeps(h: History, e: Event, n: nat)
    requires Inv(Now(h)) && Plain(Now(h)) && StatusSays(Now(h), n) && Quiet(h, e)
    ensures Inv(Next(h, e)) && Plain(Next(h, e)) && StatusSays(Next(h, e), n)
  {
    QuietIsOrderly(h, e);
    StepKeepsIff(h, e);
    QuietStatus(h, e, n);
    hide Inv, Plain, Next, StatusSays, Orderly, Quiet;
  }

  lemma QuietStatus(h: History, e: Event, n: nat)
    requires Inv(Now(h)) && Plain(Now(h)) && StatusSays(Now(h), n) && Quiet(h, e)
    ensures StatusSays(Next(h, e), n)
  {
    hide Inv, Plain, EnsureFrom, RemainingOf, Approve, Reject, SameWorkflow, StatusSays, Weigh;
    match e
    case RequestEvent(_) => RequestStatus(Now(h), n);
    case ApproveEvent(i) => if Approve(Now(h), i).Ok? { ApproveStatus(Now(h), i, n); }
    case RejectEvent(i) => if Reject(Now(h), i).Ok? { RejectStatus(Now(h), i, n); }
    case Elsewhere(rest) => ElsewhereStatus(Now(h), rest, n);
  }

  lemma QuietIsOrderly(h: History, e: Event)
    requires Quiet(h, e)
    ensures Orderly(h, e)
  {
    hide EnsureFrom, AsksWhatIsDue, Fits;
    if e.Elsewhere? {
      SameSteps(Now(h).rest.snapshot, e.rest.snapshot);
    }
  }

  lemma ElsewhereStatus(v: Visit, rest: Context, n: nat)
    requires StatusSays(v, n) && rest.status == v.rest.status && rest.gross == v.rest.gross
    requires SameWorkflow(v.rest.snapshot, rest.snapshot)
    ensures StatusSays(v.(rest := rest), n)
  {
    RemainingReads(v, rest);
    hide RemainingOf, SameWorkflow;
  }

  lemma SameSteps(a: Option<Snapshot>, b: Option<Snapshot>)
    requires SameWorkflow(a, b)
    ensures StepsOf(a) == StepsOf(b)
  {
  }

  lemma {:induction false} QuietRunKeeps(h: History, run: seq<Event>, n: nat)
    requires Inv(Now(h)) && Plain(Now(h)) && StatusSays(Now(h), n) && QuietRun(h, run)
    ensures StatusSays(Now(After(h, run)), n)
    decreases |run|
  {
    hide Inv, Plain, StatusSays, Quiet, Next;
    if run != [] {
      QuietKeeps(h, run[0], n);
      QuietRunKeeps(h + [Next(h, run[0])], run[1..], n);
    }
  }

  /** Where a weighed visit stands, over every run of requests and decisions after the first weighing. It is
      at FIRST_WEIGHMENT if and only if nothing was requested since; and while a row is pending, it is at
      FIRST_WEIGHMENT if that row was there before the weighing, and at PENDING_APPROVAL otherwise. */
  lemma PendingStatusIff(v: Visit, milli: int, h: History, run: seq<Event>)
    requires Inv(v) && Plain(v) && Weigh(v, milli) == Ok(Now(h)) && QuietRun(h, run)
    ensures var u := Now(After(h, run)); var n := |v.approvals|;
      && (u.rest.status == FIRST_WEIGHMENT <==> |u.approvals| == n)
      && (forall i | 0 <= i < |u.approvals| && u.approvals[i].decision.Pending? ::
            u.rest.status == if i < n then FIRST_WEIGHMENT else PENDING_APPROVAL)
  {
    WeighStatus(v, milli);
    QuietRunKeeps(h, run, |v.approvals|);
    hide Inv, Plain, Weigh, QuietRun, After, RemainingOf;
    var u := Now(After(h, run));
    forall i | 0 <= i < |u.approvals| && u.approvals[i].decision.Pending?
      ensures u.rest.status == if i < |v.approvals| then FIRST_WEIGHMENT else PENDING_APPROVAL
    {
      assert u.approvals[i] in u.approvals;
    }
  }

  /** Looking at a visit before its first weighing is what makes the difference: the look adds the request,
      and from then on the visit stays at FIRST_WEIGHMENT until a second request is made. */
  lemma RequestedBeforeWeighing(v: Visit, milli: int, h: History, run: seq<Event>)
    requires Inv(v) && Plain(v) && v.approvals == [] && v.rest.status != REJECTED && RemainingOf(v) != []
    requires Weigh(Ensure(v), milli) == Ok(Now(h)) && QuietRun(h, run)
    ensures Ensure(v).approvals == [Row(RemainingOf(v)[0].sortOrder, Pending)]
    ensures var u := Now(After(h, run)); u.rest.status == FIRST_WEIGHMENT <==> |u.approvals| == 1
  {
    NoRejectedIff([]);
    EnsureKeeps(v);
    hide RemainingOf, Inv, Plain, Weigh, QuietRun, After;
    PendingStatusIff(Ensure(v), milli, h, run);
  }

  // ---- decided once, and rejection is final ----

  /** Rows are only added, and a decided row is never decided again. */
  ghost predicate KeepsDecisions(a: seq<Approval>, b: seq<Approval>) {
    && |a| <= |b|
    && (forall i | 0 <= i < |a| :: b[i].sortOrder == a[i].sortOrder && (!a[i].decision.Pending? ==> b[i] == a[i]))
  }

  lemma StepKeepsDecisions(h: History, e: Event)
    ensures KeepsDecisions(Now(h).approvals, Next(h, e).approvals)
  {
    hide IsBlocked, HasRow, RemainingOf, CanRecordFirst;
  }

  /** Over every run, old records included. */
  lemma {:induction false} DecidedOnce(h: History, run: seq<Event>)
    ensures KeepsDecisions(Now(h).approvals, Now(After(h, run)).approvals)
    decreases |run|
  {
    hide Next;
    if run != [] {
      StepKeepsDecisions(h, run[0]);
      DecidedOnce(h + [Next(h, run[0])], run[1..]);
    }
  }

  ghost predicate WasRejected(v: Visit) {
    exists a :: a in v.approvals && a.decision.Rejected?
  }

  lemma RejectedBlocks(v: Visit)
    requires WasRejected(v)
    ensures IsBlocked(v) && Progress(v).rejected != []
    ensures Ensure(v) == v && forall i :: Approve(v, i).Err? && Reject(v, i).Err?
  {
    NoRejectedIff(v.approvals);
  }

  /** When a decision is accepted: the row exists and is pending, the visit is weighed, nothing was rejected,
      and, to approve, the step was not approved before. Otherwise which of these is missing is reported, the
      first in this order. */
  lemma DecisionIff(v: Visit, i: nat)
    ensures var n, blocked := |v.approvals|, WasRejected(v) || v.rest.status == REJECTED;
      && (Reject(v, i).Ok? <==> i < n && v.approvals[i].decision == Pending && v.rest.hasGross && !blocked)
      && (Approve(v, i).Ok? <==> Reject(v, i).Ok? && !HasRow(v.approvals, v.approvals[i].sortOrder, Approved))
      && (Reject(v, i) == Err(NotFound) <==> i >= n)
      && (Reject(v, i) == Err(NotPending) <==> i < n && v.approvals[i].decision != Pending)
      && (Reject(v, i) == Err(NotWeighed) <==> i < n && v.approvals[i].decision == Pending && !v.rest.hasGross)
      && (Approve(v, i).Err? ==> Approve(v, i).error == if Reject(v, i).Err? then Reject(v, i).error else Duplicate)
  {
    NoRejectedIff(v.approvals);
    hide Settle, OrdersOf, CanTransition;
  }

  /** An accepted decision settles its row and no other. An approval that leaves steps open adds a pending row
      for the next of them, last, unless one is pending for it; any other decision adds no row. */
  lemma DecisionSettles(v: Visit, i: nat, w: Snapshot)
    requires v.rest.snapshot == Some(w) && Sorted(w.steps)
    ensures Reject(v, i).Ok? ==>
      Reject(v, i).value.approvals == v.approvals[i := Row(v.approvals[i].sortOrder, Rejected)]
    ensures Approve(v, i).Ok? ==>
      var done := v.approvals[i := Row(v.approvals[i].sortOrder, Approved)];
      && (NothingOpen(Visit(v.rest, done), w) ==> Approve(v, i).value.approvals == done)
      && (!Light(w, v.rest.gross) ==>
            forall s | IsNextStep(w, done, s) ::
              Approve(v, i).value.approvals == if HasRow(done, s.sortOrder, Pending) then done else done + [Row(s.sortOrder, Pending)])
  {
    DecisionIff(v, i);
    if Approve(v, i).Ok? {
      var u := Decide(v, i, Approved);
      StillUnrejected(v, i);
      LookingAsksNext(u, w);
      RemainingIsNext(u, w);
      hide Ensure, RemainingOf, OrdersOf, IsBlocked;
    }
  }

  lemma StillUnrejected(v: Visit, i: nat)
    requires i < |v.approvals| && !WasRejected(v)
    ensures !WasRejected(Decide(v, i, Approved))
  {
    var u := Decide(v, i, Approved);
    forall a | a in u.approvals ensures !a.decision.Rejected? {
      var j :| 0 <= j < |u.approvals| && u.approvals[j] == a;
      assert v.approvals[j] in v.approvals;
    }
  }

  lemma RejectedStays(a: Visit, b: Visit)
    requires WasRejected(a) && KeepsDecisions(a.approvals, b.approvals)
    ensures WasRejected(b)
  {
    var r :| r in a.approvals && r.decision.Rejected?;
    var i :| 0 <= i < |a.approvals| && a.approvals[i] == r;
    assert b.approvals[i] in b.approvals;
  }

  /** Once any approval is rejected, whatever happens to the visit afterwards and however old the records
      that requests are decided on: no decision is accepted, and neither the start of unloading nor completion
      passes its guard. */
  lemma RejectionIsFinal(h: History, run: seq<Event>)
    requires WasRejected(Now(h))
    ensures var v' := Now(After(h, run));
      && WasRejected(v') && KeepsDecisions(Now(h).approvals, v'.approvals)
      && (forall i :: Approve(v', i).Err? && Reject(v', i).Err?)
      && PreUnloading(Progress(v')) == Some(ApprovalRejected)
      && CanStartUnloading(Progress(v')).Some? && CanFinalize(Progress(v')).Some?
  {
    DecidedOnce(h, run);
    RejectedStays(Now(h), Now(After(h, run)));
    RejectedBlocks(Now(After(h, run)));
    hide After, Approve, Reject, IsBlocked, OrdersOf;
  }

  /** The record was read before the rejection, when nothing was pending and something remained. */
  ghost predicate AskedTooEarly(read: Visit) {
    !IsBlocked(read) && NonePending(read.approvals) && RemainingOf(read) != []
  }

  /** Exactly when a request still adds a row to a rejected visit with none pending, and exactly when it
      moves the visit out of REJECTED. */
  lemma LateRequestIff(read: Visit, v: Visit)
    requires Inv(read) && Plain(read) && WasRejected(v) && NonePending(v.approvals)
    ensures var v' := EnsureFrom(read, v);
      && (v'.approvals != v.approvals <==> AskedTooEarly(read))
      && (v.rest.status == REJECTED ==>
            (v'.rest.status != REJECTED <==> AskedTooEarly(read) && read.rest.status == FIRST_WEIGHMENT))
  {
    if RemainingOf(read) != [] {
      var o := RemainingOf(read)[0].sortOrder;
      RemainingIsOpen(read);
      if !HasRow(read.approvals, o, Pending) && !IsBlocked(read) {
        NoRejectedIff(read.approvals);
        NextHasNoRow(read.rest.snapshot.value, read.approvals, o);
      }
      if HasRow(read.approvals, o, Pending) {
        assert Row(o, Pending) in read.approvals;
      }
    }
  }

  /** Every state of the history from a moment on was rejected, so requests decided on those add nothing. */
  ghost predicate RejectedSince(h: History, from: nat) {
    forall k | from <= k < |h| :: WasRejected(h[k])
  }

  ghost predicate ReadsSince(run: seq<Event>, from: nat) {
    forall e: Event | e in run && e.RequestEvent? :: e.k >= from
  }

  /** Without records read before the rejection no row is ever added or changed again. */
  lemma {:induction false} RejectedRowsStand(h: History, from: nat, run: seq<Event>)
    requires from < |h| && RejectedSince(h, from) && ReadsSince(run, from)
    ensures Now(After(h, run)).approvals == Now(h).approvals
    decreases |run|
  {
    if run != [] {
      RejectedStep(h, from, run[0]);
      assert forall e | e in run[1..] :: e in run;
      hide WasRejected, Next;
      RejectedRowsStand(h + [Next(h, run[0])], from, run[1..]);
    }
  }

  lemma RejectedStep(h: History, from: nat, e: Event)
    requires from < |h| && RejectedSince(h, from) && (e.RequestEvent? ==> e.k >= from)
    ensures Next(h, e).approvals == Now(h).approvals && WasRejected(Next(h, e))
  {
    RejectedBlocks(Now(h));
    match e
    case RequestEvent(k) => if k < |h| { RejectedBlocks(h[k]); }
    case WeighEvent(milli) =>
      var rest := Now(h).rest.(hasGross := true, gross := Some(milli), status := FIRST_WEIGHMENT);
      RejectedBlocks(Now(h).(rest := rest));
    case _ =>
  }

  /** Such a late request does happen: for every visit weighed and awaiting its first request, asking,
      rejecting, and writing a request decided on the record from before. */
  lemma RequestAfterRejection(v: Visit)
    requires v.approvals == [] && v.rest.hasGross && v.rest.status == FIRST_WEIGHMENT && RemainingOf(v) != []
    ensures var o := RemainingOf(v)[0].sortOrder; var asked := Ensure(v);
      && Reject(asked, 0).Ok? && Reject(asked, 0).value.rest.status == REJECTED
      && EnsureFrom(v, Reject(asked, 0).value)
           == Visit(v.rest.(status := PENDING_APPROVAL), [Row(o, Rejected), Row(o, Pending)])
  {
    AskedWeighed(v);
    var o := RemainingOf(v)[0].sortOrder;
    var asked := Visit(v.rest.(status := PENDING_APPROVAL), [Row(o, Pending)]);
    NoRejectedIff(asked.approvals);
    hide RemainingOf;
  }

  /** An accepted rejection always blocks; it moves the visit to REJECTED if and only if the status graph
      lets it, so a visit whose status stayed at FIRST_WEIGHMENT keeps that status and is blocked anyway. */
  lemma RejectBlocks(v: Visit, i: nat)
    requires Reject(v, i).Ok?
    ensures var v' := Reject(v, i).value;
      WasRejected(v') && (v'.rest.status == REJECTED <==> v.rest.status == PENDING_APPROVAL || v.rest.status == DOCUMENT_PENDING)
  {
    assert Reject(v, i).value.approvals[i] in Reject(v, i).value.approvals;
  }

  // ---- an old record ----

  /** Two rows pending at once: for every weighed visit awaiting its first request with a later step after
      the first, a request decided on the record from before the first request and written after that step
      was approved. */
  lemma StaleReadRequestsTwice(v: Visit, later: Step)
    requires Inv(v) && Plain(v) && v.approvals == [] && v.rest.hasGross && v.rest.status == FIRST_WEIGHMENT
    requires RemainingOf(v) != [] && later in RemainingOf(v) && RemainingOf(v)[0].sortOrder < later.sortOrder
    ensures var asked, o := Ensure(v), RemainingOf(v)[0].sortOrder;
      Approve(asked, 0).Ok? && var late := EnsureFrom(v, Approve(asked, 0).value).approvals;
      && |late| == 3 && late[0] == Row(o, Approved) && late[2] == Row(o, Pending)
      && o < late[1].sortOrder <= later.sortOrder && late[1].decision == Pending
  {
    hide Ensure, EnsureFrom, RemainingOf, Approve, IsBlocked, Inv, Plain;
    AskedWeighed(v);
    var next := SecondAsked(v, later);
    var o := RemainingOf(v)[0].sortOrder;
    RequestedAgain(v, Visit(v.rest.(status := PENDING_APPROVAL), [Row(o, Approved), Row(next, Pending)]), next);
  }

  lemma SecondAsked(v: Visit, later: Step) returns (next: int)
    requires Inv(v) && v.approvals == [] && v.rest.hasGross && v.rest.status == FIRST_WEIGHMENT
    requires RemainingOf(v) != [] && later in RemainingOf(v) && RemainingOf(v)[0].sortOrder < later.sortOrder
    ensures var o := RemainingOf(v)[0].sortOrder;
      && o < next <= later.sortOrder
      && Approve(Ensure(v), 0) == Ok(Visit(v.rest.(status := PENDING_APPROVAL), [Row(o, Approved), Row(next, Pending)]))
  {
    assert v.rest.snapshot.Some?;
    hide Ensure, Settle, RemainingOf, Open, Approve, IsBlocked, Inv;
    var w, o, rest := v.rest.snapshot.value, RemainingOf(v)[0].sortOrder, v.rest.(status := PENDING_APPROVAL);
    AskedWeighed(v);
    var done := Visit(rest, [Row(o, Approved)]);
    var step := LaterIsNext(w, v, done, later);
    AskedSecond(done, o, step);
    assert Decide(Visit(rest, [Row(o, Pending)]), 0, Approved) == done;
    FirstApproved(Visit(rest, [Row(o, Pending)]), o);
    next := step.sortOrder;
  }

  lemma RequestedAgain(v: Visit, now: Visit, next: int)
    requires v.approvals == [] && !IsBlocked(v) && RemainingOf(v) != []
    requires now.approvals == [Row(RemainingOf(v)[0].sortOrder, Approved), Row(next, Pending)] && next != RemainingOf(v)[0].sortOrder
    ensures EnsureFrom(v, now).approvals == now.approvals + [Row(RemainingOf(v)[0].sortOrder, Pending)]
  {
    hide RemainingOf, IsBlocked;
  }

  lemma AskedWeighed(v: Visit)
    requires v.approvals == [] && v.rest.status == FIRST_WEIGHMENT && RemainingOf(v) != []
    ensures !IsBlocked(v)
    ensures Ensure(v) == Visit(v.rest.(status := PENDING_APPROVAL), [Row(RemainingOf(v)[0].sortOrder, Pending)])
  {
    NoRejectedIff([]);
  }

  lemma AskedSecond(done: Visit, o: int, next: Step)
    requires done.approvals == [Row(o, Approved)] && done.rest.status == PENDING_APPROVAL
    requires RemainingOf(done) != [] && RemainingOf(done)[0] == next
    ensures Settle(done) == Visit(done.rest, [Row(o, Approved), Row(next.sortOrder, Pending)])
  {
    NoRejectedIff(done.approvals);
  }

  lemma FirstApproved(asked: Visit, o: int)
    requires asked.approvals == [Row(o, Pending)] && asked.rest.hasGross && asked.rest.status == PENDING_APPROVAL
    ensures Approve(asked, 0) == Ok(Settle(Decide(asked, 0, Approved)))
  {
    NoRejectedIff(asked.approvals);
  }

  lemma LaterIsNext(w: Snapshot, v: Visit, done: Visit, later: Step) returns (next: Step)
    requires Inv(v) && v.approvals == [] && v.rest.snapshot == Some(w) && done.rest == v.rest.(status := done.rest.status)
    requires RemainingOf(v) != [] && later in RemainingOf(v) && RemainingOf(v)[0].sortOrder < later.sortOrder
    requires done.approvals == [Row(RemainingOf(v)[0].sortOrder, Approved)]
    ensures RemainingOf(done) != [] && next == RemainingOf(done)[0]
    ensures RemainingOf(v)[0].sortOrder < next.sortOrder <= later.sortOrder
  {
    var o := RemainingOf(v)[0].sortOrder;
    RemainingIsOpen(v);
    OpenFacts(w, v.approvals, later);
    OpenFacts(w, done.approvals, later);
    assert later in Open(w, done.approvals);
    RemainingEmptyIff(w, done.rest.gross, OrdersOf(done.approvals, Approved));
    InOrders(done.approvals, Approved, later.sortOrder);
    assert RemainingOf(done) != [];
    RemainingIsOpen(done);
    next := RemainingOf(done)[0];
    OpenFacts(w, done.approvals, next);
    OpenFacts(w, v.approvals, next);
    assert HasRow(done.approvals, o, Approved);
  }

  // ---- the object ----

  class ApprovalDesk {
    var rest: Context
    var approvals: seq<Approval>

    ghost function State(): Visit
      reads this
    {
      Visit(rest, approvals)
    }

    constructor (rest: Context)
      ensures State() == Visit(rest, [])
    {
      this.rest, approvals := rest, [];
    }

    method EnsureRequiredApproval() returns (created: bool)
      modifies this
      ensures State() == Ensure(old(State()))
      ensures created <==> |approvals| > |old(approvals)|
    {
      created := false;
      var progress := Progress(Visit(rest, approvals));
      if progress.rejected != [] || rest.status == REJECTED {
        return;
      }
      var remaining := Remaining(rest.snapshot, rest.gross, progress.approved);
      if remaining == [] {
        return;
      }
      var next := remaining[0];
      if Row(next.sortOrder, Pending) in approvals {
        return;
      }
      if rest.status == FIRST_WEIGHMENT && CanTransition(rest.status, PENDING_APPROVAL) {
        rest := rest.(status := PENDING_APPROVAL);
      }
      approvals := approvals + [Row(next.sortOrder, Pending)];
      created := true;
    }

    method ApproveRequest(i: nat) returns (error: Option<DecisionError>)
      modifies this
      ensures match Approve(old(State()), i)
        case Ok(v) => error.None? && State() == v
        case Err(e) => error == Some(e) && State() == old(State())
    {
      hide Ensure, EnsureFrom, Remaining, OrdersOf;
      error := Claimable(i);
      if error.Some? {
        return;
      }
      if Row(approvals[i].sortOrder, Approved) in approvals {
        return Some(Duplicate);
      }
      approvals := approvals[i := approvals[i].(decision := Approved)];
      var remaining := Remaining(rest.snapshot, rest.gross, OrdersOf(approvals, Approved));
      if remaining == [] {
        if CanTransition(rest.status, APPROVED) {
          rest := rest.(status := APPROVED);
        }
      } else {
        var _ := EnsureRequiredApproval();
      }
    }

    method RejectRequest(i: nat) returns (error: Option<DecisionError>)
      modifies this
      ensures match Reject(old(State()), i)
        case Ok(v) => error.None? && State() == v
        case Err(e) => error == Some(e) && State() == old(State())
    {
      error := Claimable(i);
      if error.Some? {
        return;
      }
      approvals := approvals[i := approvals[i].(decision := Rejected)];
      if CanTransition(rest.status, REJECTED) {
        rest := rest.(status := REJECTED);
      }
    }

    method Claimable(i: nat) returns (error: Option<DecisionError>)
      ensures error == Refuses(State(), i)
      ensures error.None? ==> i < |approvals|
    {
      if i >= |approvals| {
        return Some(NotFound);
      }
      if approvals[i].decision != Pending {
        return Some(NotPending);
      }
      if !rest.hasGross {
        return Some(NotWeighed);
      }
      if OrdersOf(approvals, Rejected) != [] || rest.status == REJECTED {
        return Some(Blocked);
      }
      return None;
    }
  }
}
