/**
 The workflow engine (apps/api/src/domain/workflowEngine.ts): which approvals a visit still needs, which
 required steps are unmet, and what the guards on weighing, unloading and finalizing let through, for
 any workflow definition (apps/api/src/domain/workflowSnapshot.ts) and any progress. Weights are whole
 thousandths of a kilogram; guards return the reason they refuse.
 */
module Workflow {
  import opened Wrappers
  import opened Sequences

  datatype Capability =
    | IdentifyVehicle | CaptureDocuments | VerifyDocuments | ClassifyMaterial | FirstWeighment
    | Approval | Unload | SecondWeighment | Complete

  datatype Step = Step(sortOrder: int, capability: Capability, isRequired: bool, department: Option<string>)

  datatype Snapshot = Snapshot(
    steps: seq<Step>, autoContinue: bool, threshold: Option<int>, needsReview: bool, verified: bool)

  datatype Status =
    | ARRIVED | IDENTIFIED | DOCUMENT_PENDING | DOCUMENT_VERIFIED | MATERIAL_CLASSIFIED | FIRST_WEIGHMENT
    | PENDING_APPROVAL | APPROVED | UNLOADING | UNLOADED | SECOND_WEIGHMENT | COMPLETED
    | ON_HOLD | REJECTED | CANCELLED | EXCEPTION

  datatype Unloading = NotStarted | InProgress | Done

  datatype Context = Context(
    status: Status, hasVehicle: bool, hasGross: bool, hasTare: bool, hasDocument: bool, hasVerifiedDocument: bool,
    snapshot: Option<Snapshot>, gross: Option<int>, net: Option<string>, tareExceedsGross: bool,
    hasUnloadingPoint: bool, unloading: Option<Unloading>, isCompleted: bool,
    approved: seq<int>, rejected: seq<int>)

  // ---- the status graph (apps/api/src/domain/transactionState.ts) ----

  function Allowed(from: Status): set<Status> {
    match from
    case ARRIVED => {IDENTIFIED, ON_HOLD, CANCELLED, EXCEPTION}
    case IDENTIFIED => {FIRST_WEIGHMENT, DOCUMENT_PENDING, MATERIAL_CLASSIFIED, ON_HOLD, CANCELLED}
    case DOCUMENT_PENDING => {DOCUMENT_VERIFIED, ON_HOLD, REJECTED, CANCELLED}
    case DOCUMENT_VERIFIED => {FIRST_WEIGHMENT, MATERIAL_CLASSIFIED, ON_HOLD}
    case MATERIAL_CLASSIFIED => {FIRST_WEIGHMENT, ON_HOLD, CANCELLED}
    case FIRST_WEIGHMENT => {PENDING_APPROVAL, UNLOADING, ON_HOLD, EXCEPTION}
    case PENDING_APPROVAL => {APPROVED, ON_HOLD, REJECTED, CANCELLED}
    case APPROVED => {UNLOADING, ON_HOLD, EXCEPTION}
    case UNLOADING => {UNLOADED, ON_HOLD, EXCEPTION}
    case UNLOADED => {SECOND_WEIGHMENT, EXCEPTION}
    case SECOND_WEIGHMENT => {COMPLETED, EXCEPTION}
    case ON_HOLD => {IDENTIFIED, DOCUMENT_PENDING, PENDING_APPROVAL, UNLOADING, CANCELLED}
    case COMPLETED => {}
    case REJECTED => {}
    case CANCELLED => {}
    case EXCEPTION => {}
  }

  predicate CanTransition(from: Status, to: Status) {
    to in Allowed(from)
  }

  /** The graph read backwards: what a status is entered from. COMPLETED, REJECTED, CANCELLED and EXCEPTION are
      left by nothing, and a visit is at the gate only once. */
  lemma EnteredFrom(from: Status)
    ensures CanTransition(from, IDENTIFIED) <==> from in {ARRIVED, ON_HOLD}
    ensures CanTransition(from, DOCUMENT_PENDING) <==> from in {IDENTIFIED, ON_HOLD}
    ensures CanTransition(from, DOCUMENT_VERIFIED) <==> from == DOCUMENT_PENDING
    ensures CanTransition(from, MATERIAL_CLASSIFIED) <==> from in {IDENTIFIED, DOCUMENT_VERIFIED}
    ensures CanTransition(from, FIRST_WEIGHMENT) <==> from in {IDENTIFIED, DOCUMENT_VERIFIED, MATERIAL_CLASSIFIED}
    ensures CanTransition(from, PENDING_APPROVAL) <==> from in {FIRST_WEIGHMENT, ON_HOLD}
    ensures CanTransition(from, APPROVED) <==> from == PENDING_APPROVAL
    ensures CanTransition(from, UNLOADING) <==> from in {FIRST_WEIGHMENT, APPROVED, ON_HOLD}
    ensures CanTransition(from, UNLOADED) <==> from == UNLOADING
    ensures CanTransition(from, SECOND_WEIGHMENT) <==> from == UNLOADED
    ensures CanTransition(from, COMPLETED) <==> from == SECOND_WEIGHMENT
    ensures CanTransition(from, REJECTED) <==> from in {DOCUMENT_PENDING, PENDING_APPROVAL}
    ensures CanTransition(from, CANCELLED) <==>
      from in {ARRIVED, IDENTIFIED, DOCUMENT_PENDING, MATERIAL_CLASSIFIED, PENDING_APPROVAL, ON_HOLD}
    ensures CanTransition(from, EXCEPTION) <==>
      from in {ARRIVED, FIRST_WEIGHMENT, APPROVED, UNLOADING, UNLOADED, SECOND_WEIGHMENT}
    ensures CanTransition(from, ON_HOLD) <==>
      from !in {UNLOADED, SECOND_WEIGHMENT, ON_HOLD, COMPLETED, REJECTED, CANCELLED, EXCEPTION}
    ensures !CanTransition(from, ARRIVED)
  {
  }

  ghost predicate Path(p: seq<Status>) {
    forall i | 0 <= i < |p| - 1 :: CanTransition(p[i], p[i + 1])
  }

  /** However a visit comes to be COMPLETED, its last statuses before it are UNLOADING, UNLOADED and
      SECOND_WEIGHMENT, in that order, and unloading began after a first weighing, an approval or a hold. */
  lemma CompletionPath(p: seq<Status>)
    requires Path(p) && |p| >= 5 && p[|p| - 1] == COMPLETED
    ensures p[|p| - 4..] == [UNLOADING, UNLOADED, SECOND_WEIGHMENT, COMPLETED]
    ensures p[|p| - 5] in {FIRST_WEIGHMENT, APPROVED, ON_HOLD}
  {
    var n := |p|;
    assert CanTransition(p[n - 2], p[n - 2 + 1]) && CanTransition(p[n - 3], p[n - 3 + 1]);
    assert CanTransition(p[n - 4], p[n - 4 + 1]) && CanTransition(p[n - 5], p[n - 5 + 1]);
  }

  /** Statuses that presuppose a first weighing. */
  predicate PastWeighing(s: Status) {
    s in {PENDING_APPROVAL, APPROVED, UNLOADING, UNLOADED, SECOND_WEIGHMENT, COMPLETED}
  }

  /** The path goes from a hold straight to unloading or to a pending approval. */
  ghost predicate LeavesHoldPastWeighing(p: seq<Status>) {
    exists i :: 0 <= i < |p| - 1 && p[i] == ON_HOLD && p[i + 1] in {UNLOADING, PENDING_APPROVAL}
  }

  lemma {:induction false} Crosses(p: seq<Status>) returns (i: nat)
    requires |p| >= 2 && !PastWeighing(p[0]) && PastWeighing(p[|p| - 1])
    ensures i + 1 < |p| && !PastWeighing(p[i]) && PastWeighing(p[i + 1])
  {
    if PastWeighing(p[1]) {
      i := 0;
    } else {
      i := Crosses(p[1..]);
      i := i + 1;
    }
  }

  /** The graph lets a visit complete without a first weighing only by way of a hold: every path from the
      gate to COMPLETED goes through FIRST_WEIGHMENT, or leaves a hold for unloading or pending approval. */
  lemma OnlyHoldBypassesWeighing(p: seq<Status>)
    requires Path(p) && |p| >= 2 && p[0] == ARRIVED && p[|p| - 1] == COMPLETED
    ensures FIRST_WEIGHMENT in p || LeavesHoldPastWeighing(p)
  {
    var i := Crosses(p);
    assert CanTransition(p[i], p[i + 1]);
    if p[i] == FIRST_WEIGHMENT {
      assert FIRST_WEIGHMENT in p;
    } else {
      assert p[i] == ON_HOLD && p[i + 1] in {UNLOADING, PENDING_APPROVAL};
    }
  }

  /** And it does, both ways: only the guards below forbid it. */
  lemma HoldBypassesWeighing()
    ensures var p := [ARRIVED, ON_HOLD, UNLOADING, UNLOADED, SECOND_WEIGHMENT, COMPLETED];
      Path(p) && FIRST_WEIGHMENT !in p
    ensures var p := [ARRIVED, ON_HOLD, PENDING_APPROVAL, APPROVED, UNLOADING, UNLOADED, SECOND_WEIGHMENT, COMPLETED];
      Path(p) && FIRST_WEIGHMENT !in p
  {
  }

  // ---- steps in order ----

  predicate StepBefore(x: Step, y: Step) {
    x.sortOrder <= y.sortOrder
  }

  /** By sortOrder; steps that share one keep their order. */
  function SortSteps(s: seq<Step>): (r: seq<Step>)
    ensures multiset(r) == multiset(s)
  {
    Sort(s, StepBefore)
  }

  ghost predicate Sorted(s: seq<Step>) {
    forall i, j | 0 <= i < j < |s| :: s[i].sortOrder <= s[j].sortOrder
  }

  lemma {:induction false} InsertSorts(x: Step, s: seq<Step>)
    requires Sorted(s)
    ensures Sorted(Insert(x, s, StepBefore))
  {
    if s != [] && x.sortOrder > s[0].sortOrder {
      InsertSorts(x, s[1..]);
      var r := Insert(x, s[1..], StepBefore);
      forall j | 0 <= j < |r| ensures s[0].sortOrder <= r[j].sortOrder {
        assert r[j] in multiset(r);
        assert r[j] == x || r[j] in s[1..];
      }
    }
  }

  /** A snapshot's steps are in order, whatever order they were stored in. */
  lemma {:induction false} SortSorts(s: seq<Step>)
    ensures Sorted(SortSteps(s))
  {
    if s != [] {
      SortSorts(s[1..]);
      InsertSorts(s[0], SortSteps(s[1..]));
    }
  }

  /** Steps that share a sortOrder keep the order they were stored in. */
  lemma EqualStepsKeepOrder(s: seq<Step>, x: Step, y: Step)
    requires Precedes(s, x, y) && x.sortOrder <= y.sortOrder
    ensures Precedes(SortSteps(s), x, y)
  {
    SortIsStable(s, x, y, StepBefore);
  }

  function Parsed(items: seq<Option<Step>>): seq<Step> {
    if items == [] then []
    else Parsed(items[..|items| - 1]) + if items[|items| - 1].Some? then [items[|items| - 1].value] else []
  }

  /** The parsed steps are the well-formed items, all of them, in their order. */
  lemma {:induction false} ParsedAre(items: seq<Option<Step>>)
    ensures Map(Parsed(items), (s: Step) => Some(s)) == Filter(items, (x: Option<Step>) => x.Some?)
  {
    if items != [] {
      var front, last := items[..|items| - 1], items[|items| - 1];
      var wellFormed := (x: Option<Step>) => x.Some?;
      ParsedAre(front);
      assert items == front + [last];
      FilterSplits(front, [last], wellFormed);
      assert Filter([last], wellFormed) == if last.Some? then [last] else [] by {
        assert [last][1..] == [];
      }
    }
  }

  /** parseSteps: malformed items (None) are skipped, the rest are sorted. */
  method ParseSteps(items: seq<Option<Step>>) returns (steps: seq<Step>)
    ensures steps == SortSteps(Parsed(items)) && Sorted(steps)
    ensures multiset(steps) == multiset(Parsed(items))
  {
    steps := [];
    for i := 0 to |items|
      invariant steps == Parsed(items[..i])
    {
      assert items[..i + 1][..i] == items[..i];
      if items[i].None? {
        continue;
      }
      steps := steps + [items[i].value];
    }
    assert items[..|items|] == items;
    SortSorts(steps);
    steps := SortSteps(steps);
  }

  // ---- approvals ----

  predicate DepartmentStep(s: Step) {
    s.capability.Approval? && s.isRequired && s.department.Some?
  }

  function Departments(w: Snapshot): seq<Step> {
    Filter(w.steps, DepartmentStep)
  }

  /** The configured shortcut: light visits need no approval. An unknown weight is not light. */
  predicate Waived(w: Snapshot, gross: Option<int>) {
    w.autoContinue && w.threshold.Some? && gross.Some? && gross.value < w.threshold.value
  }

  predicate ApprovalRequired(w: Option<Snapshot>, gross: Option<int>) {
    w.Some? && Departments(w.value) != [] && !Waived(w.value, gross)
  }

  function Unapproved(approved: seq<int>): Step -> bool {
    (s: Step) => DepartmentStep(s) && s.sortOrder !in approved
  }

  function Remaining(w: Option<Snapshot>, gross: Option<int>, approved: seq<int>): seq<Step> {
    if !ApprovalRequired(w, gross) then [] else Filter(w.value.steps, Unapproved(approved))
  }

  /** The configured shortcut applies below the threshold, or every required approval step with a department
      is approved. */
  ghost predicate ApprovalsGranted(w: Snapshot, gross: Option<int>, approved: seq<int>) {
    || (w.autoContinue && w.threshold.Some? && gross.Some? && gross.value < w.threshold.value)
    || forall s | s in w.steps && s.capability == Approval && s.isRequired && s.department.Some? :: s.sortOrder in approved
  }

  /** Nothing remains exactly when approvals are granted. */
  lemma RemainingEmptyIff(w: Snapshot, gross: Option<int>, approved: seq<int>)
    ensures Remaining(Some(w), gross, approved) == [] <==> ApprovalsGranted(w, gross, approved)
  {
    var r := Filter(w.steps, Unapproved(approved));
    if !Waived(w, gross) && exists s :: s in w.steps && DepartmentStep(s) && s.sortOrder !in approved {
      var s :| s in w.steps && DepartmentStep(s) && s.sortOrder !in approved;
      assert Unapproved(approved)(s) && s in r && s in Departments(w);
    }
    if r != [] {
      assert r[0] in r && Unapproved(approved)(r[0]);
    }
  }

  /** A visit at or above the threshold, of unknown weight, or without the shortcut is never waived: what
      remains are all its unapproved department steps. Below the threshold, with the shortcut, nothing does. */
  lemma HeavyIsNeverWaived(w: Snapshot, gross: Option<int>, approved: seq<int>, s: Step)
    ensures !w.autoContinue || w.threshold.None? || gross.None? || gross.value >= w.threshold.value ==>
      (s in Remaining(Some(w), gross, approved) <==>
         s in w.steps && s.capability == Approval && s.isRequired && s.department.Some? && s.sortOrder !in approved)
    ensures w.autoContinue && w.threshold.Some? && gross.Some? && gross.value < w.threshold.value ==>
      Remaining(Some(w), gross, approved) == []
  {
    assert Unapproved(approved)(s) <==> DepartmentStep(s) && s.sortOrder !in approved;
    if s in w.steps && DepartmentStep(s) {
      assert s in Departments(w);
    }
  }

  // ---- satisfied and unmet steps ----

  predicate Satisfied(s: Step, c: Context) {
    match s.capability
    case IdentifyVehicle => c.hasVehicle
    case CaptureDocuments => c.hasDocument
    case VerifyDocuments => c.hasVerifiedDocument
    case ClassifyMaterial => c.snapshot.Some? && (!c.snapshot.value.needsReview || c.snapshot.value.verified)
    case FirstWeighment => c.hasGross
    case Approval => s.sortOrder in c.approved || Remaining(c.snapshot, c.gross, c.approved) == []
    case Unload => c.unloading == Some(Done)
    case SecondWeighment => c.hasTare && !c.tareExceedsGross
    case Complete => c.isCompleted
  }

  function StepOf(steps: seq<Step>, capability: Capability): Option<Step> {
    if steps == [] then None
    else if steps[0].capability == capability then Some(steps[0])
    else StepOf(steps[1..], capability)
  }

  function UnmetBefore(limit: int, c: Context): Step -> bool {
    (s: Step) => s.isRequired && s.sortOrder < limit && !Satisfied(s, c)
  }

  function UnmetSteps(w: Snapshot, before: Capability, c: Context): seq<Step> {
    var target := StepOf(w.steps, before);
    if target.None? then [] else Filter(w.steps, UnmetBefore(target.value.sortOrder, c))
  }

  predicate Unmet(w: Snapshot, before: Capability, c: Context, capability: Capability) {
    exists s :: s in UnmetSteps(w, before, c) && s.capability == capability
  }

  /** The first step of the list with this capability is the t-th. */
  ghost predicate IsFirst(steps: seq<Step>, capability: Capability, t: int) {
    0 <= t < |steps| && steps[t].capability == capability && forall i | 0 <= i < t :: steps[i].capability != capability
  }

  lemma {:induction false} StepOfIsFirst(steps: seq<Step>, capability: Capability)
    ensures match StepOf(steps, capability)
      case None => forall s | s in steps :: s.capability != capability
      case Some(s) => exists t :: IsFirst(steps, capability, t) && steps[t] == s
    ensures forall t | IsFirst(steps, capability, t) :: StepOf(steps, capability) == Some(steps[t])
  {
    if steps != [] && steps[0].capability != capability {
      StepOfIsFirst(steps[1..], capability);
      if StepOf(steps[1..], capability).Some? {
        var t :| IsFirst(steps[1..], capability, t) && steps[1..][t] == StepOf(steps, capability).value;
        assert IsFirst(steps, capability, t + 1);
      }
      forall t | IsFirst(steps, capability, t) ensures StepOf(steps, capability) == Some(steps[t]) {
        assert IsFirst(steps[1..], capability, t - 1);
      }
    } else if steps != [] {
      assert IsFirst(steps, capability, 0);
    }
  }

  /** The required steps that come before the first step with this capability. */
  ghost predicate RequiredBefore(w: Snapshot, before: Capability, s: Step) {
    s in w.steps && s.isRequired && exists t :: IsFirst(w.steps, before, t) && s.sortOrder < w.steps[t].sortOrder
  }

  /** Some required step before it asks for this. */
  ghost predicate Asks(w: Snapshot, before: Capability, capability: Capability) {
    exists s :: RequiredBefore(w, before, s) && s.capability == capability
  }

  /** What a capability asks of the visit; approval steps ask each for their own. */
  predicate Holds(capability: Capability, c: Context) {
    match capability
    case IdentifyVehicle => c.hasVehicle
    case CaptureDocuments => c.hasDocument
    case VerifyDocuments => c.hasVerifiedDocument
    case ClassifyMaterial => c.snapshot.Some? && MaterialSettled(c.snapshot.value)
    case FirstWeighment => c.hasGross
    case Approval => true
    case Unload => c.unloading == Some(Done)
    case SecondWeighment => c.hasTare && !c.tareExceedsGross
    case Complete => c.isCompleted
  }

  /** The facts that the required steps before it ask for. */
  ghost predicate AllMet(w: Snapshot, before: Capability, c: Context) {
    && (forall k | Asks(w, before, k) :: Holds(k, c))
    && (forall s | RequiredBefore(w, before, s) && s.capability == Approval :: ApprovalGiven(s, c))
  }

  /** The step itself is approved, or nothing is left to approve. */
  ghost predicate ApprovalGiven(s: Step, c: Context) {
    s.sortOrder in c.approved || c.snapshot.None? || ApprovalsGranted(c.snapshot.value, c.gross, c.approved)
  }

  /** What each kind of step asks of the visit. */
  lemma SatisfiedIff(s: Step, c: Context)
    ensures s.capability == IdentifyVehicle ==> (Satisfied(s, c) <==> c.hasVehicle)
    ensures s.capability == CaptureDocuments ==> (Satisfied(s, c) <==> c.hasDocument)
    ensures s.capability == VerifyDocuments ==> (Satisfied(s, c) <==> c.hasVerifiedDocument)
    ensures s.capability == ClassifyMaterial ==> (Satisfied(s, c) <==> c.snapshot.Some? && MaterialSettled(c.snapshot.value))
    ensures s.capability == FirstWeighment ==> (Satisfied(s, c) <==> c.hasGross)
    ensures s.capability == Approval ==> (Satisfied(s, c) <==> ApprovalGiven(s, c))
    ensures s.capability == Unload ==> (Satisfied(s, c) <==> c.unloading == Some(Done))
    ensures s.capability == SecondWeighment ==> (Satisfied(s, c) <==> c.hasTare && !c.tareExceedsGross)
    ensures s.capability == Complete ==> (Satisfied(s, c) <==> c.isCompleted)
  {
    hide Remaining, ApprovalsGranted;
    if c.snapshot.Some? {
      RemainingEmptyIff(c.snapshot.value, c.gross, c.approved);
    } else {
      assert Remaining(None, c.gross, c.approved) == [] by { NoWorkflowNothingRemains(c.gross, c.approved); }
    }
  }

  lemma NoWorkflowNothingRemains(gross: Option<int>, approved: seq<int>)
    ensures Remaining(None, gross, approved) == []
  {
  }

  ghost predicate EachSatisfied(w: Snapshot, before: Capability, c: Context) {
    forall s | RequiredBefore(w, before, s) :: Satisfied(s, c)
  }

  lemma AllMetIff(w: Snapshot, before: Capability, c: Context)
    ensures EachSatisfied(w, before, c) <==> AllMet(w, before, c)
  {
    hide Satisfied, RequiredBefore, ApprovalGiven;
    forall s ensures Satisfied(s, c) <==> Holds(s.capability, c) && (s.capability == Approval ==> ApprovalGiven(s, c)) {
      SatisfiedIff(s, c);
    }
    if AllMet(w, before, c) {
      forall s | RequiredBefore(w, before, s) ensures Satisfied(s, c) {
        assert Asks(w, before, s.capability);
      }
    }
  }

  lemma UnmetIff(w: Snapshot, before: Capability, c: Context, s: Step)
    ensures s in UnmetSteps(w, before, c) <==> RequiredBefore(w, before, s) && !Satisfied(s, c)
  {
    hide Satisfied;
    StepOfIsFirst(w.steps, before);
    var target := StepOf(w.steps, before);
    if target.Some? {
      assert UnmetBefore(target.value.sortOrder, c)(s) <==> s.isRequired && s.sortOrder < target.value.sortOrder && !Satisfied(s, c);
    }
  }

  /** Nothing is unmet exactly when every fact the required earlier steps ask for holds. */
  lemma NoneUnmetIff(w: Snapshot, before: Capability, c: Context)
    ensures UnmetSteps(w, before, c) == [] <==> AllMet(w, before, c)
    ensures UnmetSteps(w, before, c) == [] ==> forall k: Capability :: !Unmet(w, before, c, k)
  {
    hide Satisfied, UnmetSteps, RequiredBefore, AllMet;
    forall s ensures s in UnmetSteps(w, before, c) <==> RequiredBefore(w, before, s) && !Satisfied(s, c) {
      UnmetIff(w, before, c, s);
    }
    AllMetIff(w, before, c);
    if UnmetSteps(w, before, c) != [] {
      assert UnmetSteps(w, before, c)[0] in UnmetSteps(w, before, c);
    }
  }

  predicate MaterialSettled(w: Snapshot) {
    !w.needsReview || w.verified
  }

  // ---- guards ----

  datatype Refusal =
    | AlreadyDone | WrongStatus | InException | OnHold | ApprovalRejected | NoVehicle | NoWorkflow | NeedsVerification
    | DocumentsIncomplete | MaterialMissing | GrossMissing | TareMissing | NetMissing | ApprovalIncomplete
    | UnloadingIncomplete | StepsIncomplete | NoUnloadingPoint | AlreadyStarted

  function CanRecordFirst(c: Context): Option<Refusal> {
    if c.hasGross then Some(AlreadyDone)
    else
      match c.snapshot
      case None => if c.status != IDENTIFIED && c.status != DOCUMENT_VERIFIED then Some(WrongStatus) else None
      case Some(w) => if UnmetSteps(w, FirstWeighment, c) != [] then Some(StepsIncomplete) else None
  }

  function CanAssignMaterial(c: Context, incoming: Snapshot): Option<Refusal> {
    if c.hasGross then Some(AlreadyDone)
    else if c.status != IDENTIFIED && c.status != DOCUMENT_VERIFIED && c.status != MATERIAL_CLASSIFIED then Some(WrongStatus)
    else if UnmetSteps(incoming, ClassifyMaterial, c.(snapshot := Some(incoming))) != [] then Some(StepsIncomplete)
    else None
  }

  function PreUnloading(c: Context): Option<Refusal> {
    if c.rejected != [] || c.status == REJECTED then Some(ApprovalRejected)
    else if c.status == EXCEPTION then Some(InException)
    else if c.status == ON_HOLD then Some(OnHold)
    else if !c.hasVehicle then Some(NoVehicle)
    else if c.snapshot.None? then Some(NoWorkflow)
    else
      var w := c.snapshot.value;
      if w.needsReview && !w.verified then Some(NeedsVerification)
      else if Unmet(w, Unload, c, VerifyDocuments) || Unmet(w, Unload, c, CaptureDocuments) then Some(DocumentsIncomplete)
      else if Unmet(w, Unload, c, ClassifyMaterial) then Some(MaterialMissing)
      else if Unmet(w, Unload, c, FirstWeighment) || !c.hasGross then Some(GrossMissing)
      else if Unmet(w, Unload, c, Approval) || Remaining(c.snapshot, c.gross, c.approved) != [] then Some(ApprovalIncomplete)
      else if UnmetSteps(w, Unload, c) != [] then Some(StepsIncomplete)
      else if c.status != APPROVED && c.status != FIRST_WEIGHMENT && c.status != UNLOADING then Some(WrongStatus)
      else None
  }

  function CanAssignUnloading(c: Context): Option<Refusal> {
    if PreUnloading(c).Some? then PreUnloading(c)
    else if c.unloading == Some(InProgress) || c.unloading == Some(Done) then Some(AlreadyStarted)
    else if c.status != APPROVED && c.status != FIRST_WEIGHMENT then Some(WrongStatus)
    else None
  }

  function CanStartUnloading(c: Context): Option<Refusal> {
    if PreUnloading(c).Some? then PreUnloading(c)
    else if !c.hasUnloadingPoint then Some(NoUnloadingPoint)
    else if c.unloading == Some(InProgress) then Some(AlreadyStarted)
    else if c.unloading == Some(Done) then Some(AlreadyDone)
    else if c.status != APPROVED && c.status != FIRST_WEIGHMENT then Some(WrongStatus)
    else None
  }

  function CanCompleteUnloading(c: Context): Option<Refusal> {
    if c.status != UNLOADING then Some(WrongStatus)
    else if c.unloading != Some(InProgress) then Some(UnloadingIncomplete)
    else if !c.hasUnloadingPoint then Some(NoUnloadingPoint)
    else None
  }

  function CanRecordSecond(c: Context): Option<Refusal> {
    if c.hasTare then Some(AlreadyDone)
    else if c.status != UNLOADED then Some(WrongStatus)
    else if c.unloading != Some(Done) then Some(UnloadingIncomplete)
    else if !c.hasGross then Some(GrossMissing)
    else if !c.hasVehicle then Some(NoVehicle)
    else None
  }

  function CanFinalize(c: Context): Option<Refusal> {
    if c.isCompleted || c.status == COMPLETED then Some(AlreadyDone)
    else if c.status == EXCEPTION || c.tareExceedsGross then Some(InException)
    else if c.rejected != [] || c.status == REJECTED then Some(ApprovalRejected)
    else if !c.hasVehicle then Some(NoVehicle)
    else if c.snapshot.None? then Some(NoWorkflow)
    else
      var w := c.snapshot.value;
      if w.needsReview && !w.verified then Some(NeedsVerification)
      else if Unmet(w, Complete, c, VerifyDocuments) || Unmet(w, Complete, c, CaptureDocuments) then Some(DocumentsIncomplete)
      else if Unmet(w, Complete, c, Approval) || Remaining(c.snapshot, c.gross, c.approved) != [] then Some(ApprovalIncomplete)
      else if Unmet(w, Complete, c, Unload) || c.unloading != Some(Done) then Some(UnloadingIncomplete)
      else if !c.hasGross then Some(GrossMissing)
      else if !c.hasTare then Some(TareMissing)
      else if c.net.None? then Some(NetMissing)
      else if UnmetSteps(w, Complete, c) != [] then Some(StepsIncomplete)
      else if c.status != SECOND_WEIGHMENT then Some(WrongStatus)
      else None
  }

  // ---- what the guards guarantee ----

  /** Finalizing is allowed exactly when both weighings, the net and the unloading are done, the material
      is settled, nothing was rejected, every department approved or the light visit needs none, a document
      is captured and verified if a required step before completion asks for it, and the visit stands at its
      second weighing. */
  lemma FinalizeIff(c: Context)
    ensures CanFinalize(c).None? <==>
      && c.status == SECOND_WEIGHMENT && !c.isCompleted && c.rejected == [] && c.hasVehicle
      && c.hasGross && c.hasTare && !c.tareExceedsGross && c.net.Some? && c.unloading == Some(Done)
      && c.snapshot.Some? && MaterialSettled(c.snapshot.value)
      && ApprovalsGranted(c.snapshot.value, c.gross, c.approved)
      && (Asks(c.snapshot.value, Complete, CaptureDocuments) ==> c.hasDocument)
      && (Asks(c.snapshot.value, Complete, VerifyDocuments) ==> c.hasVerifiedDocument)
      && !Asks(c.snapshot.value, Complete, Complete)
  {
    hide Asks, Unmet, UnmetSteps, Remaining, ApprovalsGranted;
    if c.snapshot.Some? {
      NoneUnmetIff(c.snapshot.value, Complete, c);
      RemainingEmptyIff(c.snapshot.value, c.gross, c.approved);
    }
  }

  /** The first weighing is allowed exactly when there is none yet and, without a workflow, the visit stands
      at identification or verified documents, or, with one, every required step before weighing is met. */
  lemma RecordFirstIff(c: Context)
    ensures CanRecordFirst(c).None? <==>
      && !c.hasGross
      && (c.snapshot.None? ==> c.status == IDENTIFIED || c.status == DOCUMENT_VERIFIED)
      && (c.snapshot.Some? ==> AllMet(c.snapshot.value, FirstWeighment, c))
  {
    hide AllMet, UnmetSteps;
    if c.snapshot.Some? {
      NoneUnmetIff(c.snapshot.value, FirstWeighment, c);
    }
  }

  /** Material is assigned only before the first weighing, and exactly when the incoming workflow's own
      required steps before classification are met. */
  lemma AssignMaterialIff(c: Context, incoming: Snapshot)
    ensures CanAssignMaterial(c, incoming).None? <==>
      && !c.hasGross && c.status in {IDENTIFIED, DOCUMENT_VERIFIED, MATERIAL_CLASSIFIED}
      && AllMet(incoming, ClassifyMaterial, c.(snapshot := Some(incoming)))
  {
    hide AllMet, UnmetSteps;
    NoneUnmetIff(incoming, ClassifyMaterial, c.(snapshot := Some(incoming)));
  }

  lemma PreUnloadingIff(c: Context)
    ensures PreUnloading(c).None? <==>
      && (c.status == APPROVED || c.status == FIRST_WEIGHMENT || c.status == UNLOADING) && c.rejected == []
      && c.hasVehicle && c.hasGross && c.snapshot.Some? && MaterialSettled(c.snapshot.value)
      && ApprovalsGranted(c.snapshot.value, c.gross, c.approved) && AllMet(c.snapshot.value, Unload, c)
  {
    hide AllMet, Unmet, UnmetSteps, Remaining, ApprovalsGranted;
    if c.snapshot.Some? {
      NoneUnmetIff(c.snapshot.value, Unload, c);
      RemainingEmptyIff(c.snapshot.value, c.gross, c.approved);
    }
  }

  /** Unloading may start exactly when, besides its own point and progress, nothing was rejected, the
      material is settled, the first weighing is done, every department approved or the light visit needs
      none, and the facts that required steps before unloading ask for hold: documents captured and verified,
      and, if the workflow has them so early, the second weighing and completion. */
  lemma StartUnloadingIff(c: Context)
    ensures CanStartUnloading(c).None? <==>
      && (c.status == APPROVED || c.status == FIRST_WEIGHMENT) && c.rejected == [] && c.hasVehicle && c.hasGross
      && c.hasUnloadingPoint && (c.unloading.None? || c.unloading == Some(NotStarted))
      && c.snapshot.Some? && MaterialSettled(c.snapshot.value)
      && ApprovalsGranted(c.snapshot.value, c.gross, c.approved)
      && (Asks(c.snapshot.value, Unload, CaptureDocuments) ==> c.hasDocument)
      && (Asks(c.snapshot.value, Unload, VerifyDocuments) ==> c.hasVerifiedDocument)
      && (Asks(c.snapshot.value, Unload, SecondWeighment) ==> c.hasTare && !c.tareExceedsGross)
      && (Asks(c.snapshot.value, Unload, Complete) ==> c.isCompleted)
      && !Asks(c.snapshot.value, Unload, Unload)
  {
    hide PreUnloading, ApprovalsGranted, Asks;
    PreUnloadingIff(c);
    if c.unloading.Some? {
      match c.unloading.value
      case NotStarted =>
      case InProgress =>
      case Done =>
    }
  }

  /** An unloading point may be assigned under the same conditions, whether there is one already or not. */
  lemma AssignUnloadingIff(c: Context)
    ensures CanStartUnloading(c).None? <==> CanAssignUnloading(c).None? && c.hasUnloadingPoint
  {
    hide PreUnloading;
    if c.unloading.Some? {
      match c.unloading.value
      case NotStarted =>
      case InProgress =>
      case Done =>
    }
  }

  /** What comes after unloading started: it may be completed exactly while it is in progress at a point, and
      the visit weighed out exactly once, afterwards, if it was weighed in and identified. */
  lemma LaterStagesIff(c: Context)
    ensures CanCompleteUnloading(c).None? <==> c.status == UNLOADING && c.unloading == Some(InProgress) && c.hasUnloadingPoint
    ensures CanRecordSecond(c).None? <==>
      c.status == UNLOADED && c.unloading == Some(Done) && c.hasVehicle && c.hasGross && !c.hasTare
  {
    if c.unloading.Some? {
      match c.unloading.value
      case NotStarted =>
      case InProgress =>
      case Done =>
    }
  }

  // ---- the reasons guards report ----

  /** A document is asked for by a required earlier step and missing, or to be verified and not verified. */
  ghost predicate DocumentsMissing(w: Snapshot, before: Capability, c: Context) {
    || (Asks(w, before, CaptureDocuments) && !c.hasDocument)
    || (Asks(w, before, VerifyDocuments) && !c.hasVerifiedDocument)
  }

  lemma UnmetMeans(w: Snapshot, before: Capability, c: Context, k: Capability)
    requires c.snapshot == Some(w)
    ensures k != Approval ==> (Unmet(w, before, c, k) <==> Asks(w, before, k) && !Holds(k, c))
    ensures k == Approval && Unmet(w, before, c, k) ==> !ApprovalsGranted(w, c.gross, c.approved)
  {
    hide Satisfied, UnmetSteps, RequiredBefore, ApprovalsGranted;
    forall s ensures s in UnmetSteps(w, before, c) <==> RequiredBefore(w, before, s) && !Satisfied(s, c) {
      UnmetIff(w, before, c, s);
    }
    forall s ensures Satisfied(s, c) <==> Holds(s.capability, c) && (s.capability == Approval ==> ApprovalGiven(s, c)) {
      SatisfiedIff(s, c);
    }
  }

  /** A refused finalization reports the first fact that is missing, in this order. */
  lemma FinalizeReports(w: Snapshot, c: Context)
    requires c.snapshot == Some(w)
    ensures CanFinalize(c) == (
      if c.isCompleted || c.status == COMPLETED then Some(AlreadyDone)
      else if c.status == EXCEPTION || c.tareExceedsGross then Some(InException)
      else if c.rejected != [] || c.status == REJECTED then Some(ApprovalRejected)
      else if !c.hasVehicle then Some(NoVehicle)
      else if !MaterialSettled(w) then Some(NeedsVerification)
      else if DocumentsMissing(w, Complete, c) then Some(DocumentsIncomplete)
      else if !ApprovalsGranted(w, c.gross, c.approved) then Some(ApprovalIncomplete)
      else if c.unloading != Some(Done) then Some(UnloadingIncomplete)
      else if !c.hasGross then Some(GrossMissing)
      else if !c.hasTare then Some(TareMissing)
      else if c.net.None? then Some(NetMissing)
      else if !AllMet(w, Complete, c) then Some(StepsIncomplete)
      else if c.status != SECOND_WEIGHMENT then Some(WrongStatus)
      else None)
  {
    hide AllMet, Asks, Unmet, UnmetSteps, Remaining, ApprovalsGranted;
    NoneUnmetIff(w, Complete, c);
    RemainingEmptyIff(w, c.gross, c.approved);
    UnmetMeans(w, Complete, c, VerifyDocuments);
    UnmetMeans(w, Complete, c, CaptureDocuments);
    UnmetMeans(w, Complete, c, Approval);
    UnmetMeans(w, Complete, c, Unload);
  }

  /** So does a visit that is kept from unloading. That the material is missing is never reported: a visit
      whose material is not settled is told to verify it. */
  lemma UnloadingReports(w: Snapshot, c: Context)
    requires c.snapshot == Some(w)
    ensures PreUnloading(c) == (
      if c.rejected != [] || c.status == REJECTED then Some(ApprovalRejected)
      else if c.status == EXCEPTION then Some(InException)
      else if c.status == ON_HOLD then Some(OnHold)
      else if !c.hasVehicle then Some(NoVehicle)
      else if !MaterialSettled(w) then Some(NeedsVerification)
      else if DocumentsMissing(w, Unload, c) then Some(DocumentsIncomplete)
      else if !c.hasGross then Some(GrossMissing)
      else if !ApprovalsGranted(w, c.gross, c.approved) then Some(ApprovalIncomplete)
      else if !AllMet(w, Unload, c) then Some(StepsIncomplete)
      else if c.status !in {APPROVED, FIRST_WEIGHMENT, UNLOADING} then Some(WrongStatus)
      else None)
  {
    hide AllMet, Asks, Unmet, UnmetSteps, Remaining, ApprovalsGranted;
    NoneUnmetIff(w, Unload, c);
    RemainingEmptyIff(w, c.gross, c.approved);
    UnmetMeans(w, Unload, c, VerifyDocuments);
    UnmetMeans(w, Unload, c, CaptureDocuments);
    UnmetMeans(w, Unload, c, ClassifyMaterial);
    UnmetMeans(w, Unload, c, FirstWeighment);
    UnmetMeans(w, Unload, c, Approval);
  }

  /** The other guards, too, report the first thing that is in the way. */
  lemma OthersReport(c: Context, incoming: Snapshot)
    ensures CanRecordFirst(c) == (
      if c.hasGross then Some(AlreadyDone)
      else if c.snapshot.None? then (if c.status in {IDENTIFIED, DOCUMENT_VERIFIED} then None else Some(WrongStatus))
      else if AllMet(c.snapshot.value, FirstWeighment, c) then None else Some(StepsIncomplete))
    ensures CanAssignMaterial(c, incoming) == (
      if c.hasGross then Some(AlreadyDone)
      else if c.status !in {IDENTIFIED, DOCUMENT_VERIFIED, MATERIAL_CLASSIFIED} then Some(WrongStatus)
      else if AllMet(incoming, ClassifyMaterial, c.(snapshot := Some(incoming))) then None else Some(StepsIncomplete))
    ensures PreUnloading(c).None? ==>
      CanStartUnloading(c) == (
      if !c.hasUnloadingPoint then Some(NoUnloadingPoint)
      else if c.unloading == Some(InProgress) then Some(AlreadyStarted)
      else if c.unloading == Some(Done) then Some(AlreadyDone)
      else if c.status == UNLOADING then Some(WrongStatus) else None)
    ensures PreUnloading(c).None? ==>
      CanAssignUnloading(c) == (
      if c.unloading in {Some(InProgress), Some(Done)} then Some(AlreadyStarted)
      else if c.status == UNLOADING then Some(WrongStatus) else None)
    ensures PreUnloading(c).Some? ==> CanStartUnloading(c) == CanAssignUnloading(c) == PreUnloading(c)
    ensures CanCompleteUnloading(c) == (
      if c.status != UNLOADING then Some(WrongStatus)
      else if c.unloading != Some(InProgress) then Some(UnloadingIncomplete)
      else if !c.hasUnloadingPoint then Some(NoUnloadingPoint) else None)
    ensures CanRecordSecond(c) == (
      if c.hasTare then Some(AlreadyDone)
      else if c.status != UNLOADED then Some(WrongStatus)
      else if c.unloading != Some(Done) then Some(UnloadingIncomplete)
      else if !c.hasGross then Some(GrossMissing)
      else if !c.hasVehicle then Some(NoVehicle) else None)
  {
    hide AllMet, UnmetSteps, ApprovalsGranted, PreUnloading;
    if c.snapshot.Some? {
      NoneUnmetIff(c.snapshot.value, FirstWeighment, c);
    }
    NoneUnmetIff(incoming, ClassifyMaterial, c.(snapshot := Some(incoming)));
    PreUnloadingIff(c);
  }

  // ---- progress never undoes a satisfied step ----

  /** Same steps and same shortcut; the material may have been verified since, which also marks it matched. */
  predicate SameWorkflow(a: Option<Snapshot>, b: Option<Snapshot>) {
    if a.None? then b.None?
    else
      && b.Some? && a.value.steps == b.value.steps
      && a.value.autoContinue == b.value.autoContinue && a.value.threshold == b.value.threshold
      && (MaterialSettled(a.value) ==> MaterialSettled(b.value))
  }

  /** More of the same visit: more approvals, documents and verification, a first gross weight, later
      unloading and weighing out. */
  predicate Advances(a: Context, b: Context) {
    && (a.hasVehicle ==> b.hasVehicle) && (a.hasDocument ==> b.hasDocument)
    && (a.hasVerifiedDocument ==> b.hasVerifiedDocument) && (a.hasGross ==> b.hasGross)
    && (a.gross.Some? ==> b.gross == a.gross)
    && (a.unloading == Some(Done) ==> b.unloading == Some(Done))
    && (a.hasTare && !a.tareExceedsGross ==> b.hasTare && !b.tareExceedsGross)
    && (a.isCompleted ==> b.isCompleted)
    && (forall o | o in a.approved :: o in b.approved)
    && SameWorkflow(a.snapshot, b.snapshot)
  }

  lemma NothingRemainsStill(a: Context, b: Context)
    requires Advances(a, b) && Remaining(a.snapshot, a.gross, a.approved) == []
    ensures Remaining(b.snapshot, b.gross, b.approved) == []
  {
    if a.snapshot.Some? {
      RemainingEmptyIff(a.snapshot.value, a.gross, a.approved);
      RemainingEmptyIff(b.snapshot.value, b.gross, b.approved);
    }
  }

  /** A satisfied step stays satisfied. */
  lemma SatisfiedStays(s: Step, a: Context, b: Context)
    requires Advances(a, b) && Satisfied(s, a)
    ensures Satisfied(s, b)
  {
    hide Remaining;
    if s.capability.Approval? && s.sortOrder !in a.approved {
      NothingRemainsStill(a, b);
    }
  }

  /** So required steps never become unmet. */
  lemma UnmetOnlyShrinks(a: Context, b: Context, before: Capability)
    requires Advances(a, b) && a.snapshot.Some? && AllMet(a.snapshot.value, before, a)
    ensures AllMet(b.snapshot.value, before, b)
  {
    hide Satisfied, AllMet;
    AllMetIff(a.snapshot.value, before, a);
    AllMetIff(b.snapshot.value, before, b);
    forall s | RequiredBefore(b.snapshot.value, before, s) ensures Satisfied(s, b) {
      assert RequiredBefore(a.snapshot.value, before, s);
      SatisfiedStays(s, a, b);
    }
  }

  /** Replacing one gross weight by another is outside that guarantee: an approval step that was satisfied
      becomes unmet if and only if the old weight was below the threshold, the new one is not, the step is itself
      unapproved, and some department has not approved. */
  lemma RegrossUndoesIff(w: Snapshot, c: Context, gross: int, s: Step)
    requires c.snapshot == Some(w) && s.capability.Approval?
    ensures Satisfied(s, c) && !Satisfied(s, c.(gross := Some(gross))) <==>
      && w.autoContinue && w.threshold.Some? && c.gross.Some? && c.gross.value < w.threshold.value <= gross
      && s.sortOrder !in c.approved
      && exists d :: && d in w.steps && d.capability == Approval && d.isRequired && d.department.Some?
                     && d.sortOrder !in c.approved
  {
    RemainingEmptyIff(w, c.gross, c.approved);
    RemainingEmptyIff(w, Some(gross), c.approved);
  }

  // ---- the operator's action list ----

  datatype Action =
    | Identify | UploadDocument | AssignMaterial | VerifyMaterial | RecordGross | AssignUnloading
    | StartUnloading | CompleteUnloading | RecordTare | Finalize

  function When(b: bool, a: Action): seq<Action> {
    if b then [a] else []
  }

  function Actions(c: Context): seq<Action> {
    if c.status == ARRIVED then [Identify]
    else if c.isCompleted || c.status == COMPLETED then []
    else
      [] + When((c.status == IDENTIFIED || c.status == DOCUMENT_PENDING) && !c.hasGross, UploadDocument)
      + When((c.status == IDENTIFIED || c.status == DOCUMENT_VERIFIED || c.status == MATERIAL_CLASSIFIED) && !c.hasGross, AssignMaterial)
      + When(c.snapshot.Some? && !MaterialSettled(c.snapshot.value) && c.status == MATERIAL_CLASSIFIED, VerifyMaterial)
      + When(CanRecordFirst(c).None?, RecordGross) + When(CanAssignUnloading(c).None?, AssignUnloading)
      + When(CanStartUnloading(c).None?, StartUnloading) + When(CanCompleteUnloading(c).None?, CompleteUnloading)
      + When(CanRecordSecond(c).None?, RecordTare) + When(CanFinalize(c).None?, Finalize)
  }

  lemma WhenTrue(a: Action)
    ensures [] + When(true, a) == [a]
  {
  }

  method AllowedActions(c: Context) returns (actions: seq<Action>)
    ensures actions == Actions(c)
  {
    hide CanRecordFirst, CanAssignUnloading, CanStartUnloading, CanCompleteUnloading, CanRecordSecond, CanFinalize, When;
    actions := [];
    WhenTrue(Identify);
    if c.status == ARRIVED {
      actions := Offer(actions, true, Identify);
      return;
    }
    if c.isCompleted || c.status == COMPLETED {
      return;
    }
    actions := Offer(actions, (c.status == IDENTIFIED || c.status == DOCUMENT_PENDING) && !c.hasGross, UploadDocument);
    actions := Offer(actions, (c.status == IDENTIFIED || c.status == DOCUMENT_VERIFIED || c.status == MATERIAL_CLASSIFIED)
                              && !c.hasGross, AssignMaterial);
    actions := Offer(actions, c.snapshot.Some? && c.snapshot.value.needsReview && !c.snapshot.value.verified
                              && c.status == MATERIAL_CLASSIFIED, VerifyMaterial);
    actions := Offer(actions, CanRecordFirst(c).None?, RecordGross);
    actions := Offer(actions, CanAssignUnloading(c).None?, AssignUnloading);
    actions := Offer(actions, CanStartUnloading(c).None?, StartUnloading);
    actions := Offer(actions, CanCompleteUnloading(c).None?, CompleteUnloading);
    actions := Offer(actions, CanRecordSecond(c).None?, RecordTare);
    actions := Offer(actions, CanFinalize(c).None?, Finalize);
  }

  method Offer(actions: seq<Action>, allowed: bool, a: Action) returns (more: seq<Action>)
    ensures more == actions + When(allowed, a)
  {
    more := actions;
    if allowed {
      more := more + [a];
    }
  }

  /** An action is offered exactly when its guard allows it, but for the first weighing of a visit that is
      at the gate or already completed: its guard never looks at the status of a visit with a workflow. The
      actions without a guard of their own go by status: nothing but identification at the gate, documents and
      material only before the first weighing, verification only while it is due. */
  lemma OffersMatchGuards(c: Context)
    ensures StartUnloading in Actions(c) <==> CanStartUnloading(c).None? && !c.isCompleted
    ensures AssignUnloading in Actions(c) <==> CanAssignUnloading(c).None? && !c.isCompleted
    ensures CompleteUnloading in Actions(c) <==> CanCompleteUnloading(c).None? && !c.isCompleted
    ensures RecordTare in Actions(c) <==> CanRecordSecond(c).None? && !c.isCompleted
    ensures Finalize in Actions(c) <==> CanFinalize(c).None?
    ensures RecordGross in Actions(c) <==>
      CanRecordFirst(c).None? && c.status != ARRIVED && c.status != COMPLETED && !c.isCompleted
    ensures Identify in Actions(c) <==> c.status == ARRIVED
    ensures UploadDocument in Actions(c) <==> c.status in {IDENTIFIED, DOCUMENT_PENDING} && !c.hasGross && !c.isCompleted
    ensures AssignMaterial in Actions(c) <==>
      c.status in {IDENTIFIED, DOCUMENT_VERIFIED, MATERIAL_CLASSIFIED} && !c.hasGross && !c.isCompleted
    ensures VerifyMaterial in Actions(c) <==>
      c.status == MATERIAL_CLASSIFIED && !c.isCompleted
      && c.snapshot.Some? && c.snapshot.value.needsReview && !c.snapshot.value.verified
  {
    GuardStatuses(c);
    hide CanRecordFirst, CanAssignUnloading, CanStartUnloading, CanCompleteUnloading, CanRecordSecond, CanFinalize, Actions;
    forall a ensures a in Actions(c) <==> Offered(c, a) {
      ActionIn(c, a);
    }
  }

  /** The condition each action is pushed under. */
  predicate Offered(c: Context, a: Action) {
    if c.status == ARRIVED then a == Identify
    else if c.isCompleted || c.status == COMPLETED then false
    else
      match a
      case Identify => false
      case UploadDocument => (c.status == IDENTIFIED || c.status == DOCUMENT_PENDING) && !c.hasGross
      case AssignMaterial =>
        (c.status == IDENTIFIED || c.status == DOCUMENT_VERIFIED || c.status == MATERIAL_CLASSIFIED) && !c.hasGross
      case VerifyMaterial => c.snapshot.Some? && !MaterialSettled(c.snapshot.value) && c.status == MATERIAL_CLASSIFIED
      case RecordGross => CanRecordFirst(c).None?
      case AssignUnloading => CanAssignUnloading(c).None?
      case StartUnloading => CanStartUnloading(c).None?
      case CompleteUnloading => CanCompleteUnloading(c).None?
      case RecordTare => CanRecordSecond(c).None?
      case Finalize => CanFinalize(c).None?
  }

  lemma WhenIn(s: seq<Action>, b: bool, x: Action, a: Action)
    ensures a in s + When(b, x) <==> a in s || (b && a == x)
  {
  }

  lemma ActionIn(c: Context, a: Action)
    ensures a in Actions(c) <==> Offered(c, a)
  {
    hide CanRecordFirst, CanAssignUnloading, CanStartUnloading, CanCompleteUnloading, CanRecordSecond, CanFinalize, When;
    forall s, b, x ensures a in s + When(b, x) <==> a in s || (b && a == x) {
      WhenIn(s, b, x, a);
    }
  }

  lemma GuardStatuses(c: Context)
    ensures CanAssignUnloading(c).None? ==> c.status == APPROVED || c.status == FIRST_WEIGHMENT
    ensures CanCompleteUnloading(c).None? ==> c.status == UNLOADING
    ensures CanStartUnloading(c).None? ==> c.status == APPROVED || c.status == FIRST_WEIGHMENT
    ensures CanRecordSecond(c).None? ==> c.status == UNLOADED
    ensures CanFinalize(c).None? ==> c.status == SECOND_WEIGHMENT && !c.isCompleted
  {
    hide AllMet, ApprovalsGranted;
    StartUnloadingIff(c);
    FinalizeIff(c);
    hide PreUnloading, CanStartUnloading, CanFinalize;
  }
}
