/**
 The ledger of weight-anomaly events: how confirmed hits open, extend and reopen rows, how recoveries
 and reviews close them (apps/api/src/modules/anomalies/ingest.ts, service.ts), and how anomalies raised
 at the edge are imported (apps/api/src/modules/sync/anomalies.ts). Rows are in insertion order.
 Readings of one weighbridge are ingested one at a time.
 */
module AnomalyLedger {
  import opened Wrappers
  import opened Sequences
  import opened WeightAnomaly

  datatype ReviewStatus = Open | Acknowledged | Resolved | FalsePositive

  datatype Key = Key(bridge: string, kind: Kind)

  /** One event row. The weights folded into it are kept only to state what its running figures mean. */
  datatype Row = Row(
    key: Key, status: ReviewStatus, firstAt: int, lastAt: int, recoveredAt: Option<int>, count: nat,
    min: Option<int>, max: Option<int>, sum: Option<int>, folded: seq<Option<int>>)

  // ---- running figures ----

  function MinKg(current: Option<int>, incoming: Option<int>): Option<int> {
    if incoming.None? then current
    else if current.None? then incoming
    else if current.value <= incoming.value then current else incoming
  }

  function MaxKg(current: Option<int>, incoming: Option<int>): Option<int> {
    if incoming.None? then current
    else if current.None? then incoming
    else if current.value >= incoming.value then current else incoming
  }

  function AddKg(current: Option<int>, incoming: Option<int>): Option<int> {
    if incoming.None? then current else Some(current.GetOr(0) + incoming.value)
  }

  function Observed(w: Weight): Option<int> {
    if w.Kg? then Some(w.milli) else None
  }

  /** The weights among the folded hits, those that carried one. */
  function Noted(folded: seq<Option<int>>): seq<int> {
    if folded == [] then []
    else Noted(folded[..|folded| - 1]) + if folded[|folded| - 1].Some? then [folded[|folded| - 1].value] else []
  }

  function Total(v: seq<int>): int {
    if v == [] then 0 else Total(v[..|v| - 1]) + v[|v| - 1]
  }

  /** The count is the hits folded in; sum, least and greatest are those of the weights among them. */
  ghost predicate Tallied(r: Row) {
    var v := Noted(r.folded);
    && r.count == |r.folded| > 0
    && (if v == [] then r.sum == r.min == r.max == None
        else
          && r.sum == Some(Total(v))
          && r.min.Some? && r.min.value in v && (forall x | x in v :: r.min.value <= x)
          && r.max.Some? && r.max.value in v && (forall x | x in v :: x <= r.max.value))
  }

  lemma Distribute(x: int, n: nat)
    requires n > 0
    ensures x * n == x * (n - 1) + x
  {
  }

  lemma {:induction false} TotalBetween(v: seq<int>, lo: int, hi: int)
    requires forall x | x in v :: lo <= x <= hi
    ensures lo * |v| <= Total(v) <= hi * |v|
  {
    if v != [] {
      var front := v[..|v| - 1];
      forall x | x in front ensures lo <= x <= hi { assert x in v; }
      TotalBetween(front, lo, hi);
      assert v[|v| - 1] in v;
      Distribute(lo, |v|);
      Distribute(hi, |v|);
    }
  }

  /** The mean lies between the extremes: min * k <= sum <= max * k for k noted weights. */
  lemma MeanBetweenExtremes(r: Row)
    requires Tallied(r) && r.sum.Some?
    ensures var k := |Noted(r.folded)|; k > 0 && r.min.value * k <= r.sum.value <= r.max.value * k
  {
    TotalBetween(Noted(r.folded), r.min.value, r.max.value);
  }

  function NewRow(key: Key, now: int, w: Option<int>): Row {
    Row(key, Open, now, now, None, 1, w, w, w, [w])
  }

  function Folded(r: Row, now: int, w: Option<int>): Row {
    r.(lastAt := Max(now, r.lastAt), recoveredAt := None, count := r.count + 1,
       min := MinKg(r.min, w), max := MaxKg(r.max, w), sum := AddKg(r.sum, w), folded := r.folded + [w])
  }

  lemma NewIsTallied(key: Key, now: int, w: Option<int>)
    ensures Tallied(NewRow(key, now, w))
  {
    assert Noted([w]) == Noted([]) + if w.Some? then [w.value] else [];
    if w.Some? {
      assert Total([w.value]) == Total([]) + w.value;
    }
  }

  lemma FoldedIsTallied(r: Row, now: int, w: Option<int>)
    requires Tallied(r)
    ensures Tallied(Folded(r, now, w))
  {
    var v, f := Noted(r.folded), r.folded + [w];
    assert f[..|f| - 1] == r.folded;
    if w.Some? {
      assert Noted(f) == v + [w.value];
      assert (v + [w.value])[..|v|] == v;
    } else {
      assert Noted(f) == v;
    }
  }

  // ---- finding the row ----

  predicate LiveOf(r: Row, key: Key) {
    r.key == key && (r.status.Open? || r.status.Acknowledged?)
  }

  predicate Ongoing(r: Row, key: Key) {
    LiveOf(r, key) && r.recoveredAt.None?
  }

  /** A possible answer to "the live row of the key with the latest lastDetectedAt": ties are open. */
  ghost predicate Latest(rows: seq<Row>, wanted: Row -> bool, pick: Option<nat>) {
    match pick
    case None => forall r | r in rows :: !wanted(r)
    case Some(i) => i < |rows| && wanted(rows[i]) && forall r | r in rows && wanted(r) :: r.lastAt <= rows[i].lastAt
  }

  function LiveRows(key: Key): Row -> bool {
    r => LiveOf(r, key)
  }

  function OngoingRows(key: Key): Row -> bool {
    r => Ongoing(r, key)
  }

  // ---- steps ----

  datatype Ledger = Ledger(rows: seq<Row>, clock: int)

  datatype Step =
    | HitStep(key: Key, weight: Option<int>, now: int, cooldown: int, pick: Option<nat>)
    | RecoveryStep(key: Key, now: int, pick: Option<nat>)
    | Acknowledge(i: nat)
    | Resolve(i: nat)
    | MarkFalsePositive(i: nat)

  /** Clocks do not run backwards; reviews that the service refuses are not steps. */
  ghost predicate Enabled(l: Ledger, s: Step) {
    match s
    case HitStep(key, _, now, _, pick) => now >= l.clock && Latest(l.rows, LiveRows(key), pick)
    case RecoveryStep(key, now, pick) => now >= l.clock && Latest(l.rows, OngoingRows(key), pick)
    case Acknowledge(i) => i < |l.rows| && l.rows[i].status.Open?
    case Resolve(i) => i < |l.rows| && (l.rows[i].status.Open? || l.rows[i].status.Acknowledged?)
    case MarkFalsePositive(i) => i < |l.rows| && !l.rows[i].status.FalsePositive?
  }

  function AfterHit(rows: seq<Row>, key: Key, w: Option<int>, now: int, cooldown: int, pick: Option<nat>): seq<Row>
    requires pick.Some? ==> pick.value < |rows|
  {
    match pick
    case None => rows + [NewRow(key, now, w)]
    case Some(i) =>
      if rows[i].recoveredAt.Some? && now - rows[i].recoveredAt.value >= cooldown then rows + [NewRow(key, now, w)]
      else rows[i := Folded(rows[i], now, w)]
  }

  function AfterRecovery(rows: seq<Row>, now: int, pick: Option<nat>): seq<Row>
    requires pick.Some? ==> pick.value < |rows|
  {
    match pick
    case None => rows
    case Some(i) => rows[i := rows[i].(recoveredAt := Some(now))]
  }

  function Do(l: Ledger, s: Step): Ledger
    requires Enabled(l, s)
  {
    match s
    case HitStep(key, w, now, cooldown, pick) => Ledger(AfterHit(l.rows, key, w, now, cooldown, pick), now)
    case RecoveryStep(key, now, pick) => Ledger(AfterRecovery(l.rows, now, pick), now)
    case Acknowledge(i) => l.(rows := l.rows[i := l.rows[i].(status := Acknowledged)])
    case Resolve(i) => l.(rows := l.rows[i := l.rows[i].(status := Resolved)])
    case MarkFalsePositive(i) => l.(rows := l.rows[i := l.rows[i].(status := FalsePositive)])
  }

  ghost predicate Runs(l: Ledger, steps: seq<Step>)
    decreases |steps|
  {
    steps == [] || (Enabled(l, steps[0]) && Runs(Do(l, steps[0]), steps[1..]))
  }

  ghost function End(l: Ledger, steps: seq<Step>): Ledger
    requires Runs(l, steps)
    decreases |steps|
  {
    if steps == [] then l else End(Do(l, steps[0]), steps[1..])
  }

  // ---- invariant ----

  ghost predicate TimesOk(r: Row, clock: int) {
    r.firstAt <= r.lastAt <= clock && (r.recoveredAt.Some? ==> r.lastAt <= r.recoveredAt.value <= clock)
  }

  /** Two live rows of a key: the earlier one is recovered and was last seen strictly before. */
  predicate Before(a: Row, b: Row) {
    LiveOf(a, b.key) && LiveOf(b, b.key) ==> a.lastAt < b.lastAt && a.recoveredAt.Some?
  }

  ghost predicate InOrder(rows: seq<Row>) {
    forall i, j | 0 <= i < j < |rows| :: Before(rows[i], rows[j])
  }

  ghost predicate Inv(l: Ledger) {
    && InOrder(l.rows)
    && (forall r | r in l.rows :: TimesOk(r, l.clock) && Tallied(r))
  }

  /** So a key has at most one ongoing row, it is last seen strictly after every other live one, and
      looking for the latest live row has one answer. */
  lemma OneOngoing(l: Ledger, key: Key, i: nat, j: nat)
    requires Inv(l) && i < |l.rows| && j < |l.rows| && i != j && Ongoing(l.rows[i], key) && LiveOf(l.rows[j], key)
    ensures j < i && l.rows[j].lastAt < l.rows[i].lastAt && l.rows[j].recoveredAt.Some?
  {
    assert Before(l.rows[Min(i, j)], l.rows[Max(i, j)]);
  }

  lemma NoOtherOngoing(l: Ledger, key: Key, i: nat, j: nat)
    requires Inv(l) && i < |l.rows| && j < |l.rows| && i != j && Ongoing(l.rows[i], key)
    ensures !Ongoing(l.rows[j], key)
  {
    assert Before(l.rows[Min(i, j)], l.rows[Max(i, j)]);
  }

  lemma LatestIsLast(rows: seq<Row>, key: Key, i: nat, j: nat)
    requires InOrder(rows) && Latest(rows, LiveRows(key), Some(i)) && j < |rows| && LiveOf(rows[j], key)
    ensures j <= i && (j < i ==> rows[j].recoveredAt.Some?)
  {
    if j != i {
      assert Before(rows[Min(i, j)], rows[Max(i, j)]);
    }
  }

  lemma AppendKeepsOrder(rows: seq<Row>, r: Row)
    requires InOrder(rows) && forall x | x in rows :: Before(x, r)
    ensures InOrder(rows + [r])
  {
  }

  /** Changing a row that keeps its place: nothing live of its key follows it, or it does not become
      unrecovered or later. */
  lemma ReplaceKeepsOrder(rows: seq<Row>, i: nat, r: Row)
    requires InOrder(rows) && i < |rows| && r.key == rows[i].key
    requires LiveOf(r, r.key) ==> LiveOf(rows[i], r.key) && r.lastAt >= rows[i].lastAt
    requires forall j | i < j < |rows| :: Before(r, rows[j])
    ensures InOrder(rows[i := r])
    ensures forall x | x in rows[i := r] :: x == r || x in rows
  {
    var after := rows[i := r];
    forall a, b | 0 <= a < b < |rows| ensures Before(after[a], after[b]) {
      assert Before(rows[a], rows[b]);
    }
  }

  lemma ReplacedKeeps(l: Ledger, i: nat, r: Row, now: int)
    requires Inv(l) && now >= l.clock && i < |l.rows| && r.key == l.rows[i].key
    requires TimesOk(r, now) && Tallied(r)
    requires LiveOf(r, r.key) ==> LiveOf(l.rows[i], r.key) && r.lastAt >= l.rows[i].lastAt
    requires forall j | i < j < |l.rows| :: Before(r, l.rows[j])
    ensures Inv(Ledger(l.rows[i := r], now))
  {
    ReplaceKeepsOrder(l.rows, i, r);
    hide Tallied;
    forall x | x in l.rows[i := r] ensures TimesOk(x, now) && Tallied(x) {
      if x != r { assert x in l.rows; }
    }
  }

  lemma HitKeeps(l: Ledger, s: Step)
    requires Inv(l) && Enabled(l, s) && s.HitStep? && s.cooldown > 0
    ensures Inv(Do(l, s))
  {
    var rows, now := l.rows, s.now;
    if s.pick.Some? {
      var i := s.pick.value;
      assert rows[i] in rows && LiveRows(s.key)(rows[i]);
      if rows[i].recoveredAt.Some? && now - rows[i].recoveredAt.value >= s.cooldown {
        forall r | r in rows && LiveOf(r, s.key) ensures r.recoveredAt.Some? && r.lastAt < now {
          var j :| 0 <= j < |rows| && rows[j] == r;
          LatestIsLast(rows, s.key, i, j);
          assert LiveRows(s.key)(r);
        }
        NewRowKeeps(l, s.key, s.weight, now);
      } else {
        FoldedIsTallied(rows[i], now, s.weight);
        forall j | i < j < |rows| ensures Before(Folded(rows[i], now, s.weight), rows[j]) {
          if LiveOf(rows[j], s.key) { LatestIsLast(rows, s.key, i, j); }
        }
        ReplacedKeeps(l, i, Folded(rows[i], now, s.weight), now);
      }
    } else {
      NewRowKeeps(l, s.key, s.weight, now);
    }
  }

  lemma NewRowKeeps(l: Ledger, key: Key, w: Option<int>, now: int)
    requires Inv(l) && now >= l.clock
    requires forall r | r in l.rows && LiveOf(r, key) :: r.recoveredAt.Some? && r.lastAt < now
    ensures Inv(Ledger(l.rows + [NewRow(key, now, w)], now))
  {
    NewIsTallied(key, now, w);
    AppendKeepsOrder(l.rows, NewRow(key, now, w));
  }

  lemma StepKeeps(l: Ledger, s: Step)
    requires Inv(l) && Enabled(l, s) && (s.HitStep? ==> s.cooldown > 0)
    ensures Inv(Do(l, s))
  {
    match s
    case HitStep(_, _, _, _, _) => HitKeeps(l, s);
    case RecoveryStep(key, now, pick) =>
      if pick.Some? {
        var i := pick.value;
        forall j | i < j < |l.rows| ensures Before(l.rows[i].(recoveredAt := Some(now)), l.rows[j]) {
          assert Before(l.rows[i], l.rows[j]);
        }
        assert l.rows[i] in l.rows;
        ReplacedKeeps(l, i, l.rows[i].(recoveredAt := Some(now)), now);
      }
    case Acknowledge(i) => ReviewKeeps(l, i, Acknowledged);
    case Resolve(i) => ReviewKeeps(l, i, Resolved);
    case MarkFalsePositive(i) => ReviewKeeps(l, i, FalsePositive);
  }

  /** A review keeps the ledger in order: it never brings a closed row back to life. */
  lemma ReviewKeeps(l: Ledger, i: nat, status: ReviewStatus)
    requires Inv(l) && i < |l.rows| && !status.Open? && (status.Acknowledged? ==> l.rows[i].status.Open?)
    ensures Inv(l.(rows := l.rows[i := l.rows[i].(status := status)]))
  {
    assert l.rows[i] in l.rows;
    forall j | i < j < |l.rows| ensures Before(l.rows[i].(status := status), l.rows[j]) {
      assert Before(l.rows[i], l.rows[j]);
    }
    ReplacedKeeps(l, i, l.rows[i].(status := status), l.clock);
  }

  ghost predicate Cooling(steps: seq<Step>) {
    forall s | s in steps && s.HitStep? :: s.cooldown > 0
  }

  /** Over every run of hits, recoveries and reviews with positive cooldowns. */
  lemma {:induction false} RunKeeps(l: Ledger, steps: seq<Step>)
    requires Inv(l) && Runs(l, steps) && Cooling(steps)
    ensures Inv(End(l, steps))
    decreases |steps|
  {
    if steps != [] {
      StepKeeps(l, steps[0]);
      RunKeeps(Do(l, steps[0]), steps[1..]);
    }
  }

  // ---- the cooldown ----

  /** Reviewed for good: resolved or marked false. */
  predicate Closed(r: Row) {
    r.status.Resolved? || r.status.FalsePositive?
  }

  /** Of two live rows of a key, the later was opened no sooner than the cooldown after the earlier one had
      recovered. */
  ghost predicate Spaced(rows: seq<Row>, cooldown: int) {
    forall i, j | 0 <= i < j < |rows| && rows[i].key == rows[j].key && !Closed(rows[i]) && !Closed(rows[j]) ::
      rows[i].recoveredAt.Some? && rows[i].recoveredAt.value + cooldown <= rows[j].firstAt
  }

  /** The latest live row of the key, if there is one, has not been recovered for the whole cooldown. */
  predicate StillWarm(rows: seq<Row>, pick: Option<nat>, now: int, cooldown: int)
    requires pick.Some? ==> pick.value < |rows|
  {
    pick.Some? && (rows[pick.value].recoveredAt == None || now < rows[pick.value].recoveredAt.value + cooldown)
  }

  /** A hit extends the latest row of its key that is not closed, as long as it is ongoing or its cooldown has
      not passed, and keeps its start; otherwise it opens a row, last in the table, that starts now, ongoing and
      unreviewed. */
  lemma HitOpensIff(rows: seq<Row>, key: Key, w: Option<int>, now: int, cooldown: int, pick: Option<nat>)
    requires Latest(rows, LiveRows(key), pick)
    ensures pick.None? <==> forall r | r in rows && r.key == key :: Closed(r)
    ensures pick.Some? ==> !Closed(rows[pick.value]) && forall r | r in rows && r.key == key && !Closed(r) :: r.lastAt <= rows[pick.value].lastAt
    ensures var after := AfterHit(rows, key, w, now, cooldown, pick);
      if StillWarm(rows, pick, now, cooldown) then
        var was, row := rows[pick.value], after[pick.value];
        && after == rows[pick.value := row] && row.key == key && row.status == was.status && row.firstAt == was.firstAt
        && row.recoveredAt == None && row.lastAt == Max(now, was.lastAt) && row.folded == was.folded + [w]
      else
        var row := after[|after| - 1];
        && after == rows + [row] && row.key == key && row.status == Open && row.firstAt == row.lastAt == now
        && row.recoveredAt == None && row.folded == [w]
  {
    forall r ensures LiveRows(key)(r) <==> r.key == key && !Closed(r) {
    }
    if pick.Some? {
      assert LiveRows(key)(rows[pick.value]);
    }
  }

  lemma SpacedAfterHit(l: Ledger, s: Step)
    requires Inv(l) && Enabled(l, s) && s.HitStep? && Spaced(l.rows, s.cooldown)
    ensures Spaced(Do(l, s).rows, s.cooldown)
  {
    var rows, after := l.rows, Do(l, s).rows;
    HitOpensIff(rows, s.key, s.weight, s.now, s.cooldown, s.pick);
    forall i, j | 0 <= i < j < |after| && after[i].key == after[j].key && !Closed(after[i]) && !Closed(after[j])
      ensures after[i].recoveredAt.Some? && after[i].recoveredAt.value + s.cooldown <= after[j].firstAt
    {
      assert rows[i] in rows;
      if StillWarm(rows, s.pick, s.now, s.cooldown) {
        assert LiveRows(s.key)(rows[s.pick.value]);
        if i == s.pick.value {
          LatestIsLast(rows, s.key, i, j);
        }
      } else if j == |rows| {
        assert LiveRows(s.key)(rows[i]);
        assert s.pick.Some?;
        LatestIsLast(rows, s.key, s.pick.value, i);
        assert rows[s.pick.value] in rows;
      }
    }
  }

  lemma SpacedAfterRecovery(l: Ledger, s: Step, cooldown: int)
    requires Inv(l) && Enabled(l, s) && s.RecoveryStep? && Spaced(l.rows, cooldown)
    ensures Spaced(Do(l, s).rows, cooldown)
  {
    if s.pick.Some? {
      assert OngoingRows(s.key)(l.rows[s.pick.value]);
    }
  }

  /** Over every run with one positive cooldown, whatever is reviewed in between. */
  lemma {:induction false} CooldownHolds(l: Ledger, steps: seq<Step>, cooldown: int)
    requires Inv(l) && Spaced(l.rows, cooldown) && Runs(l, steps) && AllCool(steps, cooldown) && cooldown > 0
    ensures Spaced(End(l, steps).rows, cooldown)
    decreases |steps|
  {
    if steps != [] {
      var s := steps[0];
      StepKeeps(l, s);
      match s {
        case HitStep(_, _, _, _, _) => SpacedAfterHit(l, s);
        case RecoveryStep(_, _, _) => SpacedAfterRecovery(l, s, cooldown);
        case _ =>
      }
      CooldownHolds(Do(l, s), steps[1..], cooldown);
    }
  }

  // ---- what becomes of a row ----

  /** b is a later state of the row a: the same event, extended at most, and not at all once it is closed. */
  ghost predicate Extends(a: Row, b: Row) {
    && b.key == a.key && b.firstAt == a.firstAt && a.lastAt <= b.lastAt && a.folded <= b.folded
    && (Closed(a) ==> Closed(b) && b == a.(status := b.status))
  }

  ghost predicate RowsExtend(before: seq<Row>, after: seq<Row>) {
    |before| <= |after| && forall i | 0 <= i < |before| :: Extends(before[i], after[i])
  }

  predicate Reviews(s: Step, i: nat) {
    (s.Acknowledge? || s.Resolve? || s.MarkFalsePositive?) && s.i == i
  }

  ghost predicate Reviewed(steps: seq<Step>, i: nat) {
    exists s :: s in steps && Reviews(s, i)
  }

  lemma StepExtends(l: Ledger, s: Step)
    requires Enabled(l, s)
    ensures RowsExtend(l.rows, Do(l, s).rows)
    ensures forall i | 0 <= i < |Do(l, s).rows| ::
      Do(l, s).rows[i].status.Open? <==> (i < |l.rows| ==> l.rows[i].status.Open?) && !Reviews(s, i)
    ensures forall i: nat | Reviews(s, i) :: i < |l.rows|
  {
    if s.HitStep? {
      HitOpensIff(l.rows, s.key, s.weight, s.now, s.cooldown, s.pick);
      if s.pick.Some? { assert LiveRows(s.key)(l.rows[s.pick.value]); }
    } else if s.RecoveryStep? && s.pick.Some? {
      assert OngoingRows(s.key)(l.rows[s.pick.value]);
    }
  }

  /** Over every run, with any cooldowns: rows are only added; a row keeps its key and its start and is only
      extended; once resolved or marked false it never changes but for that mark; and it stands OPEN exactly
      until somebody reviews it. */
  lemma {:induction false} RowsEvolve(l: Ledger, steps: seq<Step>)
    requires Runs(l, steps)
    ensures RowsExtend(l.rows, End(l, steps).rows)
    ensures forall i | 0 <= i < |End(l, steps).rows| ::
      End(l, steps).rows[i].status.Open? <==> (i < |l.rows| ==> l.rows[i].status.Open?) && !Reviewed(steps, i)
    decreases |steps|
  {
    hide Do, Enabled, Reviews;
    if steps != [] {
      StepExtends(l, steps[0]);
      RowsEvolve(Do(l, steps[0]), steps[1..]);
      forall i: nat ensures Reviewed(steps, i) <==> Reviews(steps[0], i) || Reviewed(steps[1..], i) {
        assert steps == [steps[0]] + steps[1..];
      }
      ExtendOn(l.rows, Do(l, steps[0]).rows, End(l, steps).rows);
    }
  }

  lemma ExtendOn(a: seq<Row>, b: seq<Row>, c: seq<Row>)
    requires RowsExtend(a, b) && RowsExtend(b, c)
    ensures RowsExtend(a, c)
  {
  }

  // ---- conservation ----

  function Counts(rows: seq<Row>): nat {
    if rows == [] then 0 else Counts(rows[..|rows| - 1]) + rows[|rows| - 1].count
  }

  function HitSteps(steps: seq<Step>): nat {
    if steps == [] then 0 else (if steps[0].HitStep? then 1 else 0) + HitSteps(steps[1..])
  }

  lemma {:induction false} CountsReplaced(rows: seq<Row>, i: nat, r: Row)
    requires i < |rows|
    ensures Counts(rows[i := r]) == Counts(rows) - rows[i].count + r.count
  {
    var front, last := rows[..|rows| - 1], rows[|rows| - 1];
    if i == |front| {
      assert rows[i := r][..|front|] == front;
    } else {
      CountsReplaced(front, i, r);
      assert rows[i := r][..|front|] == front[i := r];
    }
  }

  /** Every confirmed hit is counted in exactly one row, whatever the cooldown. */
  lemma {:induction false} HitsAreCounted(l: Ledger, steps: seq<Step>)
    requires Runs(l, steps)
    ensures Counts(End(l, steps).rows) == Counts(l.rows) + HitSteps(steps)
    decreases |steps|
  {
    if steps != [] {
      var s, l' := steps[0], Do(l, steps[0]);
      if |l'.rows| > |l.rows| {
        assert l'.rows[..|l.rows|] == l.rows;
      } else if l'.rows != l.rows {
        var i: nat := match s case HitStep(_, _, _, _, pick) => pick.value case RecoveryStep(_, _, pick) => pick.value
                      case Acknowledge(i) => i case Resolve(i) => i case MarkFalsePositive(i) => i;
        CountsReplaced(l.rows, i, l'.rows[i]);
      } else {
        assert !s.HitStep?;
      }
      HitsAreCounted(l', steps[1..]);
    }
  }

  // ---- cooldown zero ----

  const EMPTY := Ledger([], 0)

  ghost predicate AllCool(steps: seq<Step>, cooldown: int) {
    forall s: Step | s in steps && s.HitStep? :: s.cooldown == cooldown
  }

  ghost predicate AtMostOneOngoing(rows: seq<Row>) {
    forall i, j | 0 <= i < j < |rows| && rows[i].key == rows[j].key && !Closed(rows[i]) && !Closed(rows[j]) ::
      rows[i].recoveredAt.Some? || rows[j].recoveredAt.Some?
  }

  ghost predicate OneOngoingAlways(cooldown: int) {
    forall steps: seq<Step> | Runs(EMPTY, steps) && AllCool(steps, cooldown) ::
      AtMostOneOngoing(End(EMPTY, steps).rows)
  }

  lemma InOrderOneOngoing(rows: seq<Row>)
    requires InOrder(rows)
    ensures AtMostOneOngoing(rows)
  {
    forall i, j | 0 <= i < j < |rows| && rows[i].key == rows[j].key && !Closed(rows[i]) && !Closed(rows[j])
      ensures rows[i].recoveredAt.Some? || rows[j].recoveredAt.Some?
    {
      assert Before(rows[i], rows[j]);
    }
  }

  /** A hit, its recovery and two more hits in the same millisecond: with no cooldown the second hit opens
      a second row, and the third, tied between the two, may open a third. */
  function Flurry(key: Key, cooldown: int): seq<Step> {
    [HitStep(key, None, 0, cooldown, None), RecoveryStep(key, 0, Some(0)),
     HitStep(key, None, 0, cooldown, Some(0)), HitStep(key, None, 0, cooldown, Some(0))]
  }

  lemma FlurryBreaks(key: Key, cooldown: int)
    requires cooldown <= 0
    ensures Runs(EMPTY, Flurry(key, cooldown))
    ensures var rows := End(EMPTY, Flurry(key, cooldown)).rows;
      |rows| == 3 && Ongoing(rows[1], key) && Ongoing(rows[2], key) && rows[1].lastAt == rows[2].lastAt
  {
    var r := NewRow(key, 0, None);
    var gone := r.(recoveredAt := Some(0));
    var open, reopen := HitStep(key, None, 0, cooldown, None), HitStep(key, None, 0, cooldown, Some(0));
    assert Do(EMPTY, open) == Ledger([r], 0);
    assert Do(Ledger([r], 0), RecoveryStep(key, 0, Some(0))) == Ledger([gone], 0);
    assert Do(Ledger([gone], 0), reopen) == Ledger([gone, r], 0);
    assert [reopen] + [] == [reopen] && [reopen] + [reopen] == [reopen, reopen];
    RunsCons(Ledger([gone, r], 0), reopen, []);
    RunsCons(Ledger([gone], 0), reopen, [reopen]);
    RunsCons(Ledger([r], 0), RecoveryStep(key, 0, Some(0)), [reopen, reopen]);
    RunsCons(EMPTY, open, [RecoveryStep(key, 0, Some(0)), reopen, reopen]);
    assert Do(Ledger([gone, r], 0), reopen).rows == [gone, r, r];
  }

  lemma RunsCons(l: Ledger, s: Step, rest: seq<Step>)
    requires Enabled(l, s) && Runs(Do(l, s), rest)
    ensures Runs(l, [s] + rest) && End(l, [s] + rest) == End(Do(l, s), rest)
  {
    assert ([s] + rest)[1..] == rest;
  }

  /** The ledger keeps at most one ongoing row per weighbridge and kind, in every run, exactly for
      positive cooldowns. The settings page accepts a cooldown of zero. */
  lemma CooldownIff(cooldown: int)
    ensures OneOngoingAlways(cooldown) <==> cooldown > 0
  {
    if cooldown > 0 {
      forall steps: seq<Step> | Runs(EMPTY, steps) && AllCool(steps, cooldown)
        ensures AtMostOneOngoing(End(EMPTY, steps).rows)
      {
        RunKeeps(EMPTY, steps);
        InOrderOneOngoing(End(EMPTY, steps).rows);
      }
    } else {
      var key := Key("", EmptyPlatformWeight);
      var steps := Flurry(key, cooldown);
      FlurryBreaks(key, cooldown);
      var rows := End(EMPTY, steps).rows;
      assert Ongoing(rows[1], rows[1].key) && Ongoing(rows[2], rows[1].key);
    }
  }

  // ---- anomalies imported from the edge ----

  /** The import opens a row without looking for a live one, and leaves its running figures unset. */
  function Imported(key: Key, now: int, w: Option<int>): Row {
    NewRow(key, now, w).(min := None, max := None, sum := None)
  }

  /** The import keeps the order of the ledger if and only if every live row of the key is recovered and
      was last seen before the import, and keeps the figures if and only if the anomaly had no weight. */
  lemma ImportKeepsIff(l: Ledger, key: Key, now: int, w: Option<int>)
    requires Inv(l) && now >= l.clock
    ensures InOrder(l.rows + [Imported(key, now, w)]) <==>
      forall r | r in l.rows && LiveOf(r, key) :: r.recoveredAt.Some? && r.lastAt < now
    ensures Tallied(Imported(key, now, w)) <==> w.None?
  {
    var row := Imported(key, now, w);
    var rows := l.rows + [row];
    assert Noted([w]) == Noted([]) + if w.Some? then [w.value] else [];
    if forall r | r in l.rows && LiveOf(r, key) :: r.recoveredAt.Some? && r.lastAt < now {
      AppendKeepsOrder(l.rows, row);
    } else {
      var r :| r in l.rows && LiveOf(r, key) && !(r.recoveredAt.Some? && r.lastAt < now);
      var i :| 0 <= i < |l.rows| && l.rows[i] == r;
      assert !Before(rows[i], rows[|l.rows|]);
    }
  }

  // ---- what one reading does ----

  /** The key has an ongoing row last seen now, with this weight if there was one. */
  ghost predicate Seen(rows: seq<Row>, key: Key, now: int, w: Option<int>) {
    exists r :: r in rows && Ongoing(r, key) && r.lastAt == now && r.folded != [] && r.folded[|r.folded| - 1] == w
  }

  ghost predicate NoneOngoing(rows: seq<Row>, key: Key) {
    forall r | r in rows :: !Ongoing(r, key)
  }

  /** Only rows of the key changed, and only rows of the key were added. */
  ghost predicate OthersKept(before: seq<Row>, after: seq<Row>, key: Key) {
    && |before| <= |after|
    && (forall i | 0 <= i < |before| :: after[i].key == before[i].key && (before[i].key != key ==> after[i] == before[i]))
    && (forall i | |before| <= i < |after| :: after[i].key == key)
  }

  lemma HitTouches(rows: seq<Row>, key: Key, w: Option<int>, now: int, cooldown: int, pick: Option<nat>)
    requires Latest(rows, LiveRows(key), pick)
    ensures OthersKept(rows, AfterHit(rows, key, w, now, cooldown, pick), key)
  {
    if pick.Some? {
      assert LiveRows(key)(rows[pick.value]);
    }
  }

  lemma HitSeen(l: Ledger, key: Key, w: Option<int>, now: int, cooldown: int, pick: Option<nat>)
    requires Inv(l) && now >= l.clock && Latest(l.rows, LiveRows(key), pick)
    ensures Seen(AfterHit(l.rows, key, w, now, cooldown, pick), key, now, w)
  {
    var rows, after := l.rows, AfterHit(l.rows, key, w, now, cooldown, pick);
    if |after| > |rows| {
      assert after[|rows|] in after;
    } else {
      var i := pick.value;
      assert LiveRows(key)(rows[i]) && rows[i] in rows && after[i] in after;
    }
  }

  lemma RecoveryTouches(rows: seq<Row>, key: Key, now: int, pick: Option<nat>)
    requires Latest(rows, OngoingRows(key), pick)
    ensures OthersKept(rows, AfterRecovery(rows, now, pick), key)
  {
    if pick.Some? {
      assert OngoingRows(key)(rows[pick.value]);
    }
  }

  lemma RecoveryClears(l: Ledger, key: Key, now: int, pick: Option<nat>)
    requires Inv(l) && Latest(l.rows, OngoingRows(key), pick)
    ensures NoneOngoing(AfterRecovery(l.rows, now, pick), key)
  {
    var rows, after := l.rows, AfterRecovery(l.rows, now, pick);
    forall r | r in after ensures !Ongoing(r, key) {
      var j :| 0 <= j < |after| && after[j] == r;
      if pick.None? {
        assert !OngoingRows(key)(r);
      } else {
        assert OngoingRows(key)(rows[pick.value]);
        if j != pick.value {
          NoOtherOngoing(l, key, pick.value, j);
        }
      }
    }
  }

  lemma OthersStay(before: seq<Row>, after: seq<Row>, key: Key, other: Key, now: int, w: Option<int>)
    requires OthersKept(before, after, key) && other != key
    ensures Seen(before, other, now, w) ==> Seen(after, other, now, w)
    ensures NoneOngoing(before, other) ==> NoneOngoing(after, other)
  {
    if Seen(before, other, now, w) {
      var r :| r in before && Ongoing(r, other) && r.lastAt == now && r.folded != [] && r.folded[|r.folded| - 1] == w;
      var i :| 0 <= i < |before| && before[i] == r;
      assert after[i] in after;
    }
    if NoneOngoing(before, other) {
      forall r | r in after ensures !Ongoing(r, other) {
        var i :| 0 <= i < |after| && after[i] == r;
        if i < |before| { assert before[i] in before; }
      }
    }
  }

  /** Rows of other weighbridges are untouched. */
  ghost predicate BridgeOnly(before: seq<Row>, after: seq<Row>, bridge: string) {
    && |before| <= |after|
    && (forall i | 0 <= i < |before| ::
          after[i].key == before[i].key && (before[i].key.bridge != bridge ==> after[i] == before[i]))
    && (forall i | |before| <= i < |after| :: after[i].key.bridge == bridge)
  }

  lemma BridgeOnlyOn(a: seq<Row>, b: seq<Row>, c: seq<Row>, bridge: string, kind: Kind)
    requires BridgeOnly(a, b, bridge) && OthersKept(b, c, Key(bridge, kind))
    ensures BridgeOnly(a, c, bridge)
  {
  }

  lemma BridgeOnlyTwice(a: seq<Row>, b: seq<Row>, c: seq<Row>, bridge: string)
    requires BridgeOnly(a, b, bridge) && BridgeOnly(b, c, bridge)
    ensures BridgeOnly(a, c, bridge)
  {
  }

  // ---- the object ----

  class AnomalyTable {
    var rows: seq<Row>
    ghost var clock: int    // the time of the latest write

    ghost function State(): Ledger
      reads this
    {
      Ledger(rows, clock)
    }

    ghost predicate Valid()
      reads this
    {
      Inv(State())
    }

    constructor ()
      ensures Valid() && State() == EMPTY
    {
      rows, clock := [], 0;
    }

    method FindLatest(key: Key, ongoing: bool) returns (pick: Option<nat>)
      ensures Latest(rows, if ongoing then OngoingRows(key) else LiveRows(key), pick)
    {
      pick := None;
      ghost var wanted := if ongoing then OngoingRows(key) else LiveRows(key);
      for i := 0 to |rows|
        invariant Latest(rows[..i], wanted, pick)
      {
        assert rows[..i + 1] == rows[..i] + [rows[i]];
        if LiveOf(rows[i], key) && (ongoing ==> rows[i].recoveredAt.None?)
           && (pick.None? || rows[pick.value].lastAt < rows[i].lastAt)
        {
          pick := Some(i);
        }
      }
      assert rows[..|rows|] == rows;
    }

    method PersistHit(key: Key, w: Option<int>, now: int, cooldown: int) returns (created: bool, ghost pick: Option<nat>)
      modifies this
      ensures Latest(old(rows), LiveRows(key), pick)
      ensures State() == Ledger(AfterHit(old(rows), key, w, now, cooldown, pick), now)
      ensures created <==>
        pick.None? || (old(rows)[pick.value].recoveredAt.Some? && now >= old(rows)[pick.value].recoveredAt.value + cooldown)
      ensures created <==> |rows| > |old(rows)|
      ensures old(Valid()) && now >= old(clock) && cooldown > 0 ==> Valid()
    {
      var at := FindLatest(key, false);
      pick := at;
      if Valid() && now >= clock && cooldown > 0 {
        StepKeeps(State(), HitStep(key, w, now, cooldown, at));
      }
      created := at.None? || (rows[at.value].recoveredAt.Some? && now - rows[at.value].recoveredAt.value >= cooldown);
      if created {
        rows := rows + [NewRow(key, now, w)];
      } else {
        var r := rows[at.value];
        rows := rows[at.value := r.(lastAt := if now >= r.lastAt then now else r.lastAt, recoveredAt := None,
                                    count := r.count + 1, min := MinKg(r.min, w), max := MaxKg(r.max, w),
                                    sum := AddKg(r.sum, w), folded := r.folded + [w])];
      }
      clock := now;
    }

    method PersistRecovery(key: Key, now: int) returns (recovered: bool, ghost pick: Option<nat>)
      modifies this
      ensures Latest(old(rows), OngoingRows(key), pick)
      ensures State() == Ledger(AfterRecovery(old(rows), now, pick), now)
      ensures recovered == pick.Some?
      ensures rows == if recovered then old(rows)[pick.value := old(rows)[pick.value].(recoveredAt := Some(now))] else old(rows)
      ensures old(Valid()) && now >= old(clock) ==> Valid()
    {
      var at := FindLatest(key, true);
      pick := at;
      if Valid() && now >= clock {
        StepKeeps(State(), RecoveryStep(key, now, at));
      }
      recovered := at.Some?;
      if recovered {
        rows := rows[at.value := rows[at.value].(recoveredAt := Some(now))];
      }
      clock := now;
    }

    /** One reading, end to end: evaluate it, fold every confirmed hit into the table, then mark every
        kind that did not hit as recovered. Afterwards the table mirrors the stream of this weighbridge: a
        kind with no running hits has no ongoing row, and a kind confirmed now has its one ongoing row,
        last seen now. This takes a clock that does not run backwards and a positive cooldown. */
    method IngestReading(runtime: AnomalyRuntime, bridge: string, r: Reading, now: int, cooldown: int)
      returns (e: Evaluation)
      requires runtime.Valid()
      modifies this, runtime
      ensures runtime.Valid() && runtime.stream == old(runtime.stream) + [r] && e == Report(runtime.stream)
      ensures BridgeOnly(old(rows), rows, bridge) && (clock == old(clock) || clock == now)
      ensures old(Valid()) && now >= old(clock) && cooldown > 0 ==>
        && Valid()
        && (forall k: Kind | RunLength(runtime.stream, k) == 0 :: NoneOngoing(rows, Key(bridge, k)))
        && (forall k: Kind | Find(e.confirmed, k).Some? ::
              Seen(rows, Key(bridge, k), now, match r.sample.weight case Kg(m) => Some(m) case _ => None))
    {
      ghost var sound := Valid() && now >= clock && cooldown > 0;
      e := runtime.Observe(r);
      hide Report, RunLength, Samples, Find, Inv;
      ConfirmedApart(runtime.stream);
      ConfirmedCarry(runtime.stream);
      FoldHits(bridge, e.confirmed, now, cooldown);
      ghost var folded := rows;
      MarkRecovered(bridge, e.recovered, now);
      BridgeOnlyTwice(old(rows), folded, rows, bridge);
      if sound {
        var w := Observed(r.sample.weight);
        forall j | 0 <= j < |e.confirmed| ensures Seen(rows, Key(bridge, e.confirmed[j].kind), now, w) {
          assert Seen(folded, Key(bridge, e.confirmed[j].kind), now, w);
        }
        ReportedKinds(runtime.stream, rows, bridge, now, w);
      }
    }

    method FoldHits(bridge: string, hits: seq<Hit>, now: int, cooldown: int)
      requires forall i, j | 0 <= i < j < |hits| :: hits[i].kind != hits[j].kind
      modifies this
      ensures BridgeOnly(old(rows), rows, bridge) && (clock == old(clock) || clock == now)
      ensures old(Valid()) && now >= old(clock) && cooldown > 0 ==>
        Valid() && forall j | 0 <= j < |hits| :: Seen(rows, Key(bridge, hits[j].kind), now, Observed(hits[j].observed))
    {
      hide Inv, Seen;
      ghost var sound := Valid() && now >= clock && cooldown > 0;
      for i := 0 to |hits|
        invariant BridgeOnly(old(rows), rows, bridge) && (clock == old(clock) || clock == now)
        invariant sound ==> Valid() && forall j | 0 <= j < i :: Seen(rows, Key(bridge, hits[j].kind), now, Observed(hits[j].observed))
      {
        ghost var before := State();
        var key := Key(bridge, hits[i].kind);
        var _, pick := PersistHit(key, Observed(hits[i].observed), now, cooldown);
        HitTouches(before.rows, key, Observed(hits[i].observed), now, cooldown, pick);
        BridgeOnlyOn(old(rows), before.rows, rows, bridge, key.kind);
        if sound {
          HitSeen(before, key, Observed(hits[i].observed), now, cooldown, pick);
          forall j | 0 <= j < i ensures Seen(rows, Key(bridge, hits[j].kind), now, Observed(hits[j].observed)) {
            OthersStay(before.rows, rows, key, Key(bridge, hits[j].kind), now, Observed(hits[j].observed));
          }
        }
      }
    }

    method MarkRecovered(bridge: string, kinds: seq<Kind>, now: int)
      modifies this
      ensures BridgeOnly(old(rows), rows, bridge) && (clock == old(clock) || clock == now)
      ensures old(Valid()) && now >= old(clock) ==>
        Valid() && forall j | 0 <= j < |kinds| :: NoneOngoing(rows, Key(bridge, kinds[j]))
      ensures forall k: Kind, w | k !in kinds && Seen(old(rows), Key(bridge, k), now, w) :: Seen(rows, Key(bridge, k), now, w)
    {
      hide Inv, Seen, NoneOngoing;
      ghost var sound := Valid() && now >= clock;
      for i := 0 to |kinds|
        invariant BridgeOnly(old(rows), rows, bridge) && (clock == old(clock) || clock == now)
        invariant sound ==> Valid() && forall j | 0 <= j < i :: NoneOngoing(rows, Key(bridge, kinds[j]))
        invariant forall k: Kind, w | k !in kinds && Seen(old(rows), Key(bridge, k), now, w) :: Seen(rows, Key(bridge, k), now, w)
      {
        ghost var before := State();
        var key := Key(bridge, kinds[i]);
        var _, pick := PersistRecovery(key, now);
        RecoveryTouches(before.rows, key, now, pick);
        BridgeOnlyOn(old(rows), before.rows, rows, bridge, key.kind);
        if sound {
          RecoveryClears(before, key, now, pick);
        }
        forall k: Kind | k != key.kind
          ensures NoneOngoing(before.rows, Key(bridge, k)) ==> NoneOngoing(rows, Key(bridge, k))
        {
          OthersStay(before.rows, rows, key, Key(bridge, k), now, None);
        }
        forall k: Kind, w | k != key.kind
          ensures Seen(before.rows, Key(bridge, k), now, w) ==> Seen(rows, Key(bridge, k), now, w)
        {
          OthersStay(before.rows, rows, key, Key(bridge, k), now, w);
        }
      }
    }

    static function ReviewStep(i: nat, status: ReviewStatus): Step {
      match status
      case Acknowledged => Acknowledge(i)
      case Resolved => Resolve(i)
      case _ => MarkFalsePositive(i)
    }

    /** A review the row's status does not allow is refused and changes nothing; any other is a step. */
    method Review(i: nat, status: ReviewStatus) returns (ok: bool)
      requires Valid() && i < |rows| && !status.Open?
      modifies this`rows
      ensures Valid() && |rows| == |old(rows)|
      ensures ok <==> match status
        case Acknowledged => old(rows)[i].status.Open?
        case Resolved => old(rows)[i].status.Open? || old(rows)[i].status.Acknowledged?
        case _ => !old(rows)[i].status.FalsePositive?
      ensures rows == if ok then old(rows)[i := old(rows)[i].(status := status)] else old(rows)
      ensures ok <==> Enabled(old(State()), ReviewStep(i, status))
      ensures ok ==> State() == Do(old(State()), ReviewStep(i, status))
    {
      var s := rows[i].status;
      ok := if status.Acknowledged? then s.Open?
            else if status.Resolved? then s.Open? || s.Acknowledged?
            else !s.FalsePositive?;
      if ok {
        ReviewKeeps(State(), i, status);
        rows := rows[i := rows[i].(status := status)];
      }
    }
  }

  /** No kind is both confirmed and recovered. */
  lemma ConfirmedApart(p: seq<Reading>)
    requires p != []
    ensures forall i, j | 0 <= i < |Report(p).confirmed| && 0 <= j < |Report(p).recovered| ::
      Report(p).confirmed[i].kind != Report(p).recovered[j]
  {
    var e := Report(p);
    hide Report, RunLength, HitsAt;
    forall i, j | 0 <= i < |e.confirmed| && 0 <= j < |e.recovered| ensures e.confirmed[i].kind != e.recovered[j] {
      assert e.confirmed[i] in e.confirmed && e.recovered[j] in e.recovered;
      DebounceRefines(p, e.recovered[j]);
    }
  }

  /** Every confirmed hit carries the weight of the reading, and no kind is confirmed twice. */
  lemma ConfirmedCarry(p: seq<Reading>)
    requires p != []
    ensures var hits := Report(p).confirmed;
      && (forall h | h in hits :: h.observed == p[|p| - 1].sample.weight)
      && (forall i, j | 0 <= i < j < |hits| :: hits[i].kind != hits[j].kind)
  {
    hide HitsAt, Find, Report;
    ReportIs(p);
    KindsDistinct();
    ConfirmedAre(KINDS, HitsAt(p), After(p[..|p| - 1]).candidates, p[|p| - 1]);
    forall k: Kind | Find(HitsAt(p), k).Some? ensures Find(HitsAt(p), k).value.observed == p[|p| - 1].sample.weight {
      CarriesAt(p, k);
    }
  }

  lemma CarriesAt(p: seq<Reading>, kind: Kind)
    requires p != [] && Find(HitsAt(p), kind).Some?
    ensures Find(HitsAt(p), kind).value.observed == p[|p| - 1].sample.weight
  {
    hide Hits, Find, Samples;
    HitCarries(LastN(Samples(p), MAX_WINDOW), Previous(Samples(p[..|p| - 1])), p[|p| - 1], kind);
  }

  lemma {:induction false} ConfirmedAre(kinds: seq<Kind>, hits: seq<Hit>, candidates: map<Kind, Candidate>, r: Reading)
    requires forall i, j | 0 <= i < j < |kinds| :: kinds[i] != kinds[j]
    ensures var c := Confirmed(kinds, hits, candidates, r);
      && (forall h | h in c :: h.kind in kinds && Find(hits, h.kind) == Some(h))
      && (forall i, j | 0 <= i < j < |c| :: c[i].kind != c[j].kind)
  {
    if kinds != [] {
      var front, last := kinds[..|kinds| - 1], kinds[|kinds| - 1];
      ConfirmedAre(front, hits, candidates, r);
      assert last !in front && last in kinds && forall k | k in front :: k in kinds;
      var c := Confirmed(front, hits, candidates, r);
      forall i | 0 <= i < |c| ensures c[i].kind != last {
        assert c[i] in c;
      }
    }
  }

  lemma ReportedKinds(p: seq<Reading>, rows: seq<Row>, bridge: string, now: int, w: Option<int>)
    requires p != []
    requires forall j | 0 <= j < |Report(p).confirmed| :: Seen(rows, Key(bridge, Report(p).confirmed[j].kind), now, w)
    requires forall j | 0 <= j < |Report(p).recovered| :: NoneOngoing(rows, Key(bridge, Report(p).recovered[j]))
    ensures forall k: Kind | RunLength(p, k) == 0 :: NoneOngoing(rows, Key(bridge, k))
    ensures forall k: Kind | Find(Report(p).confirmed, k).Some? :: Seen(rows, Key(bridge, k), now, w)
  {
    var e := Report(p);
    hide Report, RunLength, HitsAt, Seen, NoneOngoing;
    forall k: Kind | RunLength(p, k) == 0 ensures NoneOngoing(rows, Key(bridge, k)) {
      DebounceRefines(p, k);
      var j :| 0 <= j < |e.recovered| && e.recovered[j] == k;
    }
    forall k: Kind | Find(e.confirmed, k).Some? ensures Seen(rows, Key(bridge, k), now, w) {
      var h := Find(e.confirmed, k).value;
      var j :| 0 <= j < |e.confirmed| && e.confirmed[j] == h;
    }
  }
}
