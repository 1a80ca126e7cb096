/**
 The streaming weight-anomaly engine (apps/api/src/domain/weightAnomaly/engine.ts and rules.ts) and the
 per-weighbridge runtime that feeds it (apps/api/src/modules/anomalies/ingest.ts). Weights and
 thresholds are whole thousandths of a kilogram, times whole milliseconds.
 */
module WeightAnomaly {
  import opened Wrappers
  import opened Sequences

  const MAX_WINDOW: nat := 32

  datatype Quality = Stable | Unstable | Invalid | NoData | DeviceError

  datatype Weight = NoWeight | NotFinite | Kg(milli: int)

  datatype Sample = Sample(timestampMs: int, weight: Weight, quality: Quality, unit: string)

  datatype Platform = Empty | VehiclePresent | Weighing | Unloading | WaitingForTare | Maintenance | Unknown

  datatype Config = Config(
    emptyThreshold: int, maxChangePerSecond: int, jumpThreshold: int, maxInstabilityMs: int,
    minAnomalyMs: int, consecutiveCount: int, suddenWindowMs: int)

  datatype Kind = EmptyPlatformWeight | SuddenWeightChange | RepeatedInstability | WeightJump | InvalidWeight

  const KINDS: seq<Kind> := [EmptyPlatformWeight, SuddenWeightChange, RepeatedInstability, WeightJump, InvalidWeight]

  datatype Hit = Hit(kind: Kind, immediate: bool, observed: Weight)

  datatype Candidate = Candidate(firstMs: int, count: nat)

  /** One reading as the engine meets it, with the settings and platform state of that moment. */
  datatype Reading = Reading(sample: Sample, platform: Platform, config: Config)

  datatype Evaluation = Evaluation(hits: seq<Hit>, confirmed: seq<Hit>, recovered: seq<Kind>,
                                   window: seq<Sample>, candidates: map<Kind, Candidate>)

  // ---- detectors ----

  /** What sampleFromWeight marks valid: a finite, non-negative weight, stable or not. */
  predicate Valid(s: Sample) {
    s.weight.Kg? && s.weight.milli >= 0 && (s.quality.Stable? || s.quality.Unstable?)
  }

  predicate ExpectsMotion(p: Platform) {
    p.Weighing? || p.Unloading? || p.VehiclePresent?
  }

  function DetectInvalid(r: Reading): Option<Hit> {
    var s := r.sample;
    var negative := s.weight.Kg? && s.weight.milli < 0;
    var badQuality := s.quality.Invalid? || s.quality.DeviceError?;
    var unitOk := s.unit == "KG" || s.unit == "TONNE";
    if !negative && !badQuality && unitOk && !s.weight.NotFinite? then None
    else Some(Hit(InvalidWeight, true, s.weight))
  }

  function DetectEmpty(r: Reading): Option<Hit> {
    if !r.platform.Empty? || !Valid(r.sample) || r.sample.weight.milli <= r.config.emptyThreshold then None
    else Some(Hit(EmptyPlatformWeight, false, r.sample.weight))
  }

  function DetectJump(r: Reading, previous: Option<Sample>): Option<Hit> {
    if previous.None? || !Valid(r.sample) || !Valid(previous.value)
       || Abs(r.sample.weight.milli - previous.value.weight.milli) < r.config.jumpThreshold
    then None
    else Some(Hit(WeightJump, true, r.sample.weight))
  }

  /** The elapsed time the rate is taken over: at least a fifth of a second. */
  function ElapsedMs(current: Sample, previous: Sample): int {
    Max(current.timestampMs - previous.timestampMs, 200)
  }

  predicate TooFast(change: int, elapsedMs: int, maxPerSecond: int) {
    Abs(change) * 1000 >= maxPerSecond * elapsedMs
  }

  function DetectSudden(r: Reading, previous: Option<Sample>): Option<Hit> {
    if previous.None? || !Valid(r.sample) || !Valid(previous.value) then None
    else
      var p := previous.value;
      var elapsed := ElapsedMs(r.sample, p);
      if elapsed > r.config.suddenWindowMs * 2 then None
      else if !TooFast(r.sample.weight.milli - p.weight.milli, elapsed, r.config.maxChangePerSecond) then None
      else if ExpectsMotion(r.platform) && !p.quality.Stable? then None
      else Some(Hit(SuddenWeightChange, false, r.sample.weight))
  }

  function DetectInstability(r: Reading, unstableMs: int, consecutive: nat): Option<Hit> {
    if !r.sample.quality.Unstable? then None
    else if unstableMs < r.config.maxInstabilityMs && consecutive < Max(r.config.consecutiveCount, 3) then None
    else Some(Hit(RepeatedInstability, true, r.sample.weight))
  }

  /** Cross-multiplying in integers decides what the source decides by dividing kilograms by seconds. */
  lemma RateTestIsExact(change: int, ms: int, maxPerSecond: int)
    ensures var seconds: real := if ms as real / 1000.0 > 0.2 then ms as real / 1000.0 else 0.2;
      TooFast(change, Max(ms, 200), maxPerSecond) <==> !(Abs(change) as real / seconds < maxPerSecond as real)
  {
    var seconds: real := if ms as real / 1000.0 > 0.2 then ms as real / 1000.0 else 0.2;
    var c, m, e := Abs(change) as real, maxPerSecond as real, Max(ms, 200) as real;
    assert seconds * 1000.0 == e;
    assert (c / seconds) * seconds == c;
    if c / seconds < m {
      assert c < m * seconds;
      assert c * 1000.0 < m * e;
    } else {
      assert c >= m * seconds;
      assert c * 1000.0 >= m * e;
    }
    assert c * 1000.0 == (Abs(change) * 1000) as real && m * e == (maxPerSecond * Max(ms, 200)) as real;
  }

  // ---- instability over a window ----

  /** Length of the run of UNSTABLE samples the window ends with. */
  function TrailingUnstable(w: seq<Sample>): (n: nat)
    ensures n <= |w|
  {
    if w == [] || !w[|w| - 1].quality.Unstable? then 0
    else 1 + TrailingUnstable(w[..|w| - 1])
  }

  lemma {:induction false} TrailingHolds(w: seq<Sample>)
    ensures var n := TrailingUnstable(w);
      && (forall i | |w| - n <= i < |w| :: w[i].quality.Unstable?)
      && (n < |w| ==> !w[|w| - n - 1].quality.Unstable?)
  {
    if TrailingUnstable(w) > 0 {
      TrailingHolds(w[..|w| - 1]);
    }
  }

  function UnstableMs(w: seq<Sample>): int {
    var n := TrailingUnstable(w);
    if n == 0 then 0 else w[|w| - 1].timestampMs - w[|w| - n].timestampMs
  }

  method InstabilityStats(window: seq<Sample>) returns (unstableMs: int, consecutive: nat)
    ensures unstableMs == UnstableMs(window) && consecutive == TrailingUnstable(window)
  {
    consecutive := 0;
    var index := |window| - 1;
    while index >= 0 && window[index].quality.Unstable?
      invariant -1 <= index < |window|
      invariant consecutive == |window| - 1 - index
      invariant forall i | index < i < |window| :: window[i].quality.Unstable?
    {
      consecutive := consecutive + 1;
      index := index - 1;
    }
    TrailingIsUnique(window, consecutive);
    if consecutive == 0 {
      return 0, 0;
    }
    unstableMs := window[|window| - 1].timestampMs - window[|window| - consecutive].timestampMs;
  }

  lemma {:induction false} TrailingIsUnique(w: seq<Sample>, n: nat)
    requires n <= |w| && forall i | |w| - n <= i < |w| :: w[i].quality.Unstable?
    requires n < |w| ==> !w[|w| - n - 1].quality.Unstable?
    ensures TrailingUnstable(w) == n
  {
    if n > 0 {
      TrailingIsUnique(w[..|w| - 1], n - 1);
    }
  }

  /** The duration is the time from the first to the last sample of the longest UNSTABLE run the window ends
      with. */
  lemma DurationIs(w: seq<Sample>, n: nat)
    requires 0 < n <= |w| && forall i | |w| - n <= i < |w| :: w[i].quality == Unstable
    requires n < |w| ==> w[|w| - n - 1].quality != Unstable
    ensures UnstableMs(w) == w[|w| - 1].timestampMs - w[|w| - n].timestampMs
  {
    TrailingIsUnique(w, n);
  }

  // ---- one evaluation ----

  function Previous(history: seq<Sample>): Option<Sample> {
    if history == [] then None else Some(history[|history| - 1])
  }

  function Found(o: Option<Hit>): seq<Hit> {
    if o.Some? then [o.value] else []
  }

  function RawHits(window: seq<Sample>, previous: Option<Sample>, r: Reading): seq<Hit> {
    Found(DetectInvalid(r)) + Found(DetectEmpty(r)) + Found(DetectJump(r, previous)) + Found(DetectSudden(r, previous))
    + Found(DetectInstability(r, UnstableMs(window), TrailingUnstable(window)))
  }

  function Find(hits: seq<Hit>, kind: Kind): (o: Option<Hit>)
    ensures o.Some? ==> o.value in hits && o.value.kind == kind
    ensures o.None? ==> forall h | h in hits :: h.kind != kind
  {
    if hits == [] then None else if hits[0].kind == kind then Some(hits[0]) else Find(hits[1..], kind)
  }

  lemma {:induction false} FindSplits(a: seq<Hit>, b: seq<Hit>, kind: Kind)
    ensures Find(a + b, kind) == if Find(a, kind).Some? then Find(a, kind) else Find(b, kind)
  {
    if a == [] {
      assert a + b == b;
    } else {
      assert (a + b)[1..] == a[1..] + b;
      FindSplits(a[1..], b, kind);
    }
  }

  function PreferJump(hits: seq<Hit>): seq<Hit> {
    if Find(hits, WeightJump).Some? then Filter(hits, (h: Hit) => !h.kind.SuddenWeightChange?) else hits
  }

  function Hits(window: seq<Sample>, previous: Option<Sample>, r: Reading): seq<Hit> {
    PreferJump(RawHits(window, previous, r))
  }

  /** A sample that weighs m: a finite weight, not negative, of a scale that is steady or still settling. */
  predicate Weighs(s: Sample, m: int) {
    s.weight == Kg(m) && m >= 0 && s.quality in {Stable, Unstable}
  }

  /** Two weights in a row differ by at least the jump threshold. */
  ghost predicate Jumps(r: Reading, previous: Option<Sample>) {
    previous.Some? && exists m, n :: Weighs(r.sample, m) && Weighs(previous.value, n) && Abs(m - n) >= r.config.jumpThreshold
  }

  /** The time between two samples in seconds, at least a fifth of one. */
  function Seconds(current: Sample, previous: Sample): (s: real)
    ensures s >= 0.2
  {
    var s := (current.timestampMs - previous.timestampMs) as real / 1000.0;
    if s > 0.2 then s else 0.2
  }

  /** Two weights in a row, no further apart in time than twice the window, changed at or above the allowed
      rate of thousandths a second, while no motion was expected or the scale had been steady. */
  ghost predicate ChangesSuddenly(r: Reading, previous: Option<Sample>) {
    && previous.Some?
    && Seconds(r.sample, previous.value) * 1000.0 <= 2.0 * r.config.suddenWindowMs as real
    && (exists m, n :: Weighs(r.sample, m) && Weighs(previous.value, n)
          && Abs(m - n) as real / Seconds(r.sample, previous.value) >= r.config.maxChangePerSecond as real)
    && (previous.value.quality == Stable || r.platform !in {Weighing, Unloading, VehiclePresent})
  }

  lemma FoundSplits(a: seq<Hit>, o: Option<Hit>, kind: Kind)
    ensures Find(a + Found(o), kind) ==
      if Find(a, kind).Some? then Find(a, kind) else if o.Some? && o.value.kind == kind then o else None
  {
    FindSplits(a, Found(o), kind);
  }

  /** Each kind is found among the raw hits exactly when its own detector fires. */
  lemma RawHitIs(w: seq<Sample>, previous: Option<Sample>, r: Reading, kind: Kind)
    ensures Find(RawHits(w, previous, r), kind) ==
      match kind
      case InvalidWeight => DetectInvalid(r)
      case EmptyPlatformWeight => DetectEmpty(r)
      case WeightJump => DetectJump(r, previous)
      case SuddenWeightChange => DetectSudden(r, previous)
      case RepeatedInstability => DetectInstability(r, UnstableMs(w), TrailingUnstable(w))
  {
    hide UnstableMs, TrailingUnstable, Valid, TooFast, ElapsedMs;
    var a := Found(DetectInvalid(r));
    var b := a + Found(DetectEmpty(r));
    var c := b + Found(DetectJump(r, previous));
    var d := c + Found(DetectSudden(r, previous));
    FoundSplits([], DetectInvalid(r), kind);
    assert [] + a == a;
    FoundSplits(a, DetectEmpty(r), kind);
    FoundSplits(b, DetectJump(r, previous), kind);
    FoundSplits(c, DetectSudden(r, previous), kind);
    FoundSplits(d, DetectInstability(r, UnstableMs(w), TrailingUnstable(w)), kind);
  }

  lemma {:induction false} FindKept(hits: seq<Hit>, kind: Kind)
    ensures Find(PreferJump(hits), kind) ==
      if kind.SuddenWeightChange? && Find(hits, WeightJump).Some? then None else Find(hits, kind)
  {
    if Find(hits, WeightJump).Some? {
      FindFiltered(hits, kind);
    }
  }

  lemma {:induction false} FindFiltered(hits: seq<Hit>, kind: Kind)
    ensures Find(Filter(hits, (h: Hit) => !h.kind.SuddenWeightChange?), kind) == if kind.SuddenWeightChange? then None else Find(hits, kind)
  {
    if hits != [] {
      FindFiltered(hits[1..], kind);
    }
  }

  lemma JumpIff(r: Reading, previous: Option<Sample>)
    ensures DetectJump(r, previous).Some? <==> Jumps(r, previous)
  {
    if DetectJump(r, previous).Some? {
      assert Weighs(r.sample, r.sample.weight.milli) && Weighs(previous.value, previous.value.weight.milli);
    }
  }

  lemma RateIff(r: Reading, p: Sample, m: int, n: int)
    ensures TooFast(m - n, ElapsedMs(r.sample, p), r.config.maxChangePerSecond)
        <==> Abs(m - n) as real / Seconds(r.sample, p) >= r.config.maxChangePerSecond as real
    ensures ElapsedMs(r.sample, p) <= 2 * r.config.suddenWindowMs
        <==> Seconds(r.sample, p) * 1000.0 <= 2.0 * r.config.suddenWindowMs as real
  {
    RateTestIsExact(m - n, r.sample.timestampMs - p.timestampMs, r.config.maxChangePerSecond);
    hide TooFast;
    var ms := r.sample.timestampMs - p.timestampMs;
    assert Seconds(r.sample, p) * 1000.0 == ElapsedMs(r.sample, p) as real;
  }

  lemma SuddenIff(r: Reading, previous: Option<Sample>)
    ensures DetectSudden(r, previous).Some? <==> ChangesSuddenly(r, previous)
  {
    hide TooFast, ElapsedMs, Seconds;
    if previous.Some? && r.sample.weight.Kg? && previous.value.weight.Kg? {
      var m, n := r.sample.weight.milli, previous.value.weight.milli;
      RateIff(r, previous.value, m, n);
      if Valid(r.sample) && Valid(previous.value) {
        assert Weighs(r.sample, m) && Weighs(previous.value, n);
      }
    }
  }

  /** When each kind is reported, in terms of the readings: a sudden change only when there is no jump. */
  lemma HitsIff(w: seq<Sample>, previous: Option<Sample>, r: Reading)
    ensures var hits, s := Hits(w, previous, r), r.sample;
      && (Find(hits, WeightJump).Some? <==> Jumps(r, previous))
      && (Find(hits, SuddenWeightChange).Some? <==> ChangesSuddenly(r, previous) && !Jumps(r, previous))
      && (Find(hits, EmptyPlatformWeight).Some? <==> r.platform == Empty && exists m :: Weighs(s, m) && m > r.config.emptyThreshold)
      && (Find(hits, RepeatedInstability).Some? <==>
            && s.quality == Unstable
            && (UnstableMs(w) >= r.config.maxInstabilityMs || TrailingUnstable(w) >= Max(r.config.consecutiveCount, 3)))
      && (Find(hits, InvalidWeight).None? <==>
            && (s.weight.NoWeight? || (s.weight.Kg? && s.weight.milli >= 0))
            && s.quality != Invalid && s.quality != DeviceError && s.unit in {"KG", "TONNE"})
  {
    hide RawHits, PreferJump, Find, UnstableMs, TrailingUnstable, DetectJump, DetectSudden, Jumps, ChangesSuddenly;
    var raw := RawHits(w, previous, r);
    forall k: Kind ensures Find(Hits(w, previous, r), k) == if k.SuddenWeightChange? && Find(raw, WeightJump).Some? then None else Find(raw, k) {
      FindKept(raw, k);
    }
    RawHitIs(w, previous, r, WeightJump);
    RawHitIs(w, previous, r, SuddenWeightChange);
    RawHitIs(w, previous, r, EmptyPlatformWeight);
    RawHitIs(w, previous, r, RepeatedInstability);
    RawHitIs(w, previous, r, InvalidWeight);
    JumpIff(r, previous);
    SuddenIff(r, previous);
    if DetectEmpty(r).Some? {
      assert Weighs(r.sample, r.sample.weight.milli);
    }
  }

  /** What a hit carries: the weight of the reading, and that it need not be repeated to be confirmed exactly
      if it is a jump, an invalid weight or a repeated instability. */
  lemma HitCarries(w: seq<Sample>, previous: Option<Sample>, r: Reading, kind: Kind)
    requires Find(Hits(w, previous, r), kind).Some?
    ensures Find(Hits(w, previous, r), kind).value ==
      Hit(kind, kind in {WeightJump, InvalidWeight, RepeatedInstability}, r.sample.weight)
  {
    hide RawHits, PreferJump, Find, UnstableMs, TrailingUnstable, TooFast, ElapsedMs;
    FindKept(RawHits(w, previous, r), kind);
    RawHitIs(w, previous, r, kind);
  }

  function Extended(candidates: map<Kind, Candidate>, kind: Kind, nowMs: int): Candidate {
    if kind in candidates then Candidate(candidates[kind].firstMs, candidates[kind].count + 1) else Candidate(nowMs, 1)
  }

  /** The candidates once the given kinds have been looked at: hit, the run grows; not hit, it ends. */
  function NextCandidates(kinds: seq<Kind>, candidates: map<Kind, Candidate>, hits: seq<Hit>, nowMs: int): map<Kind, Candidate> {
    if kinds == [] then candidates
    else
      var last := kinds[|kinds| - 1];
      var next := NextCandidates(kinds[..|kinds| - 1], candidates, hits, nowMs);
      if Find(hits, last).None? then next - {last} else next[last := Extended(candidates, last, nowMs)]
  }

  lemma {:induction false} NextCandidate(kinds: seq<Kind>, candidates: map<Kind, Candidate>, hits: seq<Hit>, nowMs: int, kind: Kind)
    requires forall i, j | 0 <= i < j < |kinds| :: kinds[i] != kinds[j]
    ensures var next := NextCandidates(kinds, candidates, hits, nowMs);
      if kind in kinds then
        (kind in next <==> Find(hits, kind).Some?) && (kind in next ==> next[kind] == Extended(candidates, kind, nowMs))
      else
        (kind in next <==> kind in candidates) && (kind in next ==> next[kind] == candidates[kind])
  {
    hide Find;
    if kinds != [] {
      var front := kinds[..|kinds| - 1];
      NextCandidate(front, candidates, hits, nowMs, kind);
      assert kind in kinds <==> kind in front || kind == kinds[|kinds| - 1];
    }
  }

  predicate Confirms(hit: Hit, c: Candidate, r: Reading) {
    hit.immediate || c.count >= r.config.consecutiveCount || r.sample.timestampMs - c.firstMs >= r.config.minAnomalyMs
  }

  function Confirmed(kinds: seq<Kind>, hits: seq<Hit>, candidates: map<Kind, Candidate>, r: Reading): seq<Hit> {
    if kinds == [] then []
    else
      var last := kinds[|kinds| - 1];
      var hit := Find(hits, last);
      Confirmed(kinds[..|kinds| - 1], hits, candidates, r)
      + if hit.Some? && Confirms(hit.value, Extended(candidates, last, r.sample.timestampMs), r) then [hit.value] else []
  }

  function Absent(kinds: seq<Kind>, hits: seq<Hit>): seq<Kind> {
    Filter(kinds, k => Find(hits, k).None?)
  }

  function EvaluateOver(window: seq<Sample>, previous: Option<Sample>, candidates: map<Kind, Candidate>, r: Reading): Evaluation {
    var hits := Hits(window, previous, r);
    Evaluation(hits, Confirmed(KINDS, hits, candidates, r), Absent(KINDS, hits), window,
               NextCandidates(KINDS, candidates, hits, r.sample.timestampMs))
  }

  function Evaluate(history: seq<Sample>, candidates: map<Kind, Candidate>, r: Reading): Evaluation {
    EvaluateOver(LastN(history + [r.sample], MAX_WINDOW), Previous(history), candidates, r)
  }

  method EvaluateWeightAnomaly(history: seq<Sample>, candidates: map<Kind, Candidate>, r: Reading)
    returns (e: Evaluation)
    ensures e == Evaluate(history, candidates, r)
  {
    hide PreferJump, Absent, Confirmed, NextCandidates, DetectInvalid, DetectEmpty, DetectJump, DetectSudden,
      DetectInstability, TrailingUnstable, UnstableMs;
    var window := LastN(history + [r.sample], MAX_WINDOW);
    var previous := Previous(history);
    var unstableMs, consecutive := InstabilityStats(window);
    var hits := PreferJump(
      Found(DetectInvalid(r)) + Found(DetectEmpty(r)) + Found(DetectJump(r, previous)) + Found(DetectSudden(r, previous))
      + Found(DetectInstability(r, unstableMs, consecutive)));
    var next, confirmed := Debounce(hits, candidates, r);
    e := Evaluation(hits, confirmed, Absent(KINDS, hits), window, next);
  }

  /** Extends the runs of the kinds that hit, ends the others, and confirms. */
  method Debounce(hits: seq<Hit>, candidates: map<Kind, Candidate>, r: Reading)
    returns (next: map<Kind, Candidate>, confirmed: seq<Hit>)
    ensures next == NextCandidates(KINDS, candidates, hits, r.sample.timestampMs)
    ensures confirmed == Confirmed(KINDS, hits, candidates, r)
  {
    hide Find;
    next, confirmed := candidates, [];
    var nowMs := r.sample.timestampMs;
    KindsDistinct();
    for i := 0 to |KINDS|
      invariant next == NextCandidates(KINDS[..i], candidates, hits, nowMs)
      invariant confirmed == Confirmed(KINDS[..i], hits, candidates, r)
    {
      var kind := KINDS[i];
      assert KINDS[..i + 1][..i] == KINDS[..i] && kind !in KINDS[..i];
      NextCandidate(KINDS[..i], candidates, hits, nowMs, kind);
      var hit := Find(hits, kind);
      if hit.None? {
        next := next - {kind};
      } else {
        var first := if kind in next then next[kind].firstMs else nowMs;
        var count := (if kind in next then next[kind].count else 0) + 1;
        next := next[kind := Candidate(first, count)];
        if hit.value.immediate || count >= r.config.consecutiveCount || nowMs - first >= r.config.minAnomalyMs {
          confirmed := confirmed + [hit.value];
        }
      }
    }
    assert KINDS[..|KINDS|] == KINDS;
  }

  lemma KindListed(k: Kind)
    ensures k in KINDS
  {
    assert KINDS[0] == EmptyPlatformWeight && KINDS[1] == SuddenWeightChange && KINDS[2] == RepeatedInstability
        && KINDS[3] == WeightJump && KINDS[4] == InvalidWeight;
  }

  // ---- streams ----

  datatype Runtime = Runtime(window: seq<Sample>, candidates: map<Kind, Candidate>)

  const FRESH := Runtime([], map[])

  function Ingest(rt: Runtime, r: Reading): Runtime {
    var e := Evaluate(rt.window, rt.candidates, r);
    Runtime(e.window, e.candidates)
  }

  /** The runtime after a stream of readings, from none. */
  function After(p: seq<Reading>): Runtime {
    if p == [] then FRESH else Ingest(After(p[..|p| - 1]), p[|p| - 1])
  }

  /** What the engine reports on the last reading of a stream. */
  function Report(p: seq<Reading>): Evaluation
    requires p != []
  {
    var rt := After(p[..|p| - 1]);
    Evaluate(rt.window, rt.candidates, p[|p| - 1])
  }

  function Samples(p: seq<Reading>): (s: seq<Sample>)
    ensures |s| == |p|
    ensures forall i | 0 <= i < |p| :: s[i] == p[i].sample
  {
    seq(|p|, i requires 0 <= i < |p| => p[i].sample)
  }

  /** The hits on the last reading, from the last 32 samples of the stream. */
  function HitsAt(p: seq<Reading>): seq<Hit>
    requires p != []
  {
    Hits(LastN(Samples(p), MAX_WINDOW), Previous(Samples(p[..|p| - 1])), p[|p| - 1])
  }

  /** The reading at position i - 1 hits with this kind. */
  predicate HitsOn(p: seq<Reading>, i: nat, kind: Kind)
    requires 0 < i <= |p|
  {
    Find(HitsAt(p[..i]), kind).Some?
  }

  /** How many readings in a row, up to the last, hit with this kind. */
  function RunLength(p: seq<Reading>, kind: Kind): (n: nat)
    ensures n <= |p|
  {
    if p == [] || Find(HitsAt(p), kind).None? then 0 else 1 + RunLength(p[..|p| - 1], kind)
  }

  lemma {:induction false} RunIsTrailing(p: seq<Reading>, kind: Kind)
    ensures var n := RunLength(p, kind);
      && (forall i | |p| - n < i <= |p| :: HitsOn(p, i, kind))
      && (n < |p| ==> !HitsOn(p, |p| - n, kind))
  {
    hide HitsAt, Find;
    assert p[..|p|] == p;
    if RunLength(p, kind) > 0 {
      var q := p[..|p| - 1];
      RunIsTrailing(q, kind);
      forall i | 0 < i <= |q| ensures HitsOn(q, i, kind) == HitsOn(p, i, kind) {
        assert q[..i] == p[..i];
      }
    }
  }

  lemma IngestWindow(rt: Runtime, r: Reading)
    ensures Ingest(rt, r).window == LastN(rt.window + [r.sample], MAX_WINDOW)
  {
  }

  lemma StreamStep(p: seq<Reading>)
    requires p != []
    ensures After(p) == Ingest(After(p[..|p| - 1]), p[|p| - 1])
  {
    hide Ingest;
  }

  lemma SamplesStep(p: seq<Reading>)
    requires p != []
    ensures Samples(p) == Samples(p[..|p| - 1]) + [p[|p| - 1].sample]
  {
  }

  lemma StreamStart()
    ensures After([]) == FRESH && AfterAll([]) == FRESH && Samples([]) == []
  {
  }

  /** The retained window is the last 32 samples of the whole stream. */
  lemma {:induction false} WindowIsLast32(p: seq<Reading>)
    ensures After(p).window == LastN(Samples(p), 32)
  {
    hide Ingest, After, Samples;
    if p == [] {
      StreamStart();
    } else {
      var q, r := p[..|p| - 1], p[|p| - 1];
      StreamStep(p);
      SamplesStep(p);
      IngestWindow(After(q), r);
      WindowIsLast32(q);
      LastNAfterPush(Samples(q), r.sample, MAX_WINDOW);
    }
  }

  lemma ReportOver(p: seq<Reading>)
    requires p != []
    ensures Report(p) == EvaluateOver(LastN(Samples(p), MAX_WINDOW), Previous(Samples(p[..|p| - 1])), After(p[..|p| - 1]).candidates, p[|p| - 1])
  {
    hide EvaluateOver, After;
    var q, r := p[..|p| - 1], p[|p| - 1];
    WindowIsLast32(q);
    SamplesStep(p);
    LastNAfterPush(Samples(q), r.sample, MAX_WINDOW);
    assert Previous(After(q).window) == Previous(Samples(q));
  }

  lemma ReportIs(p: seq<Reading>)
    requires p != []
    ensures After(p) == Runtime(Report(p).window, Report(p).candidates)
    ensures var e, r := Report(p), p[|p| - 1]; var c := After(p[..|p| - 1]).candidates;
      && e.hits == HitsAt(p)
      && e.confirmed == Confirmed(KINDS, HitsAt(p), c, r) && e.recovered == Absent(KINDS, HitsAt(p))
      && e.candidates == NextCandidates(KINDS, c, HitsAt(p), r.sample.timestampMs)
  {
    hide Hits, Confirmed, NextCandidates, Absent;
    ReportOver(p);
  }

  /** A kind is a candidate exactly while it keeps hitting, and the candidate is its trailing run. */
  lemma {:induction false} CandidatesAreRuns(p: seq<Reading>, kind: Kind)
    ensures var c, n := After(p).candidates, RunLength(p, kind);
      && (kind in c <==> n > 0)
      && (n > 0 ==> c[kind] == Candidate(p[|p| - n].sample.timestampMs, n))
  {
    hide HitsAt, Confirmed, Absent, Find, NextCandidates, Report, After;
    StreamStart();
    if p != [] {
      var q := p[..|p| - 1];
      CandidatesAreRuns(q, kind);
      ReportIs(p);
      KindsDistinct();
      NextCandidate(KINDS, After(q).candidates, HitsAt(p), p[|p| - 1].sample.timestampMs, kind);
    }
  }

  lemma {:induction false} ConfirmedKinds(kinds: seq<Kind>, hits: seq<Hit>, candidates: map<Kind, Candidate>, r: Reading, kind: Kind)
    requires forall i, j | 0 <= i < j < |kinds| :: kinds[i] != kinds[j]
    ensures Find(Confirmed(kinds, hits, candidates, r), kind).Some? <==>
      kind in kinds && Find(hits, kind).Some?
      && Confirms(Find(hits, kind).value, Extended(candidates, kind, r.sample.timestampMs), r)
  {
    if kinds != [] {
      var front := kinds[..|kinds| - 1];
      ConfirmedKinds(front, hits, candidates, r, kind);
      FindSplits(Confirmed(front, hits, candidates, r), Confirmed(kinds, hits, candidates, r)[|Confirmed(front, hits, candidates, r)|..], kind);
      assert kind in kinds <==> kind in front || kind == kinds[|kinds| - 1];
    }
  }

  lemma KindsDistinct()
    ensures forall i, j | 0 <= i < j < |KINDS| :: KINDS[i] != KINDS[j]
    ensures forall k: Kind :: k in KINDS
  {
    forall k: Kind ensures k in KINDS { KindListed(k); }
  }

  lemma JumpExcludesSudden(hits: seq<Hit>)
    ensures Find(PreferJump(hits), WeightJump).None? || Find(PreferJump(hits), SuddenWeightChange).None?
  {
  }

  lemma HitsExclusive(p: seq<Reading>)
    requires p != []
    ensures Find(HitsAt(p), WeightJump).None? || Find(HitsAt(p), SuddenWeightChange).None?
  {
    hide RawHits;
    JumpExcludesSudden(RawHits(LastN(Samples(p), MAX_WINDOW), Previous(Samples(p[..|p| - 1])), p[|p| - 1]));
  }

  lemma ImmediateAt(p: seq<Reading>, kind: Kind)
    requires p != [] && Find(HitsAt(p), kind).Some?
    ensures Find(HitsAt(p), kind).value.immediate <==> kind in {WeightJump, InvalidWeight, RepeatedInstability}
  {
    hide Hits, Find, LastN, Samples;
    HitCarries(LastN(Samples(p), MAX_WINDOW), Previous(Samples(p[..|p| - 1])), p[|p| - 1], kind);
  }

  lemma AbsentIff(kinds: seq<Kind>, hits: seq<Hit>, kind: Kind)
    ensures kind in Absent(kinds, hits) <==> kind in kinds && Find(hits, kind).None?
  {
  }

  /** Debouncing, stated over the whole stream. On the last reading a kind is confirmed exactly when it
      hit and is a jump, an invalid weight or a repeated instability, or its run of hits is long enough, or has
      lasted long enough; it is recovered exactly when it did not hit; and a jump never comes with a sudden
      change. */
  lemma DebounceRefines(p: seq<Reading>, kind: Kind)
    requires p != []
    ensures var e, n, last := Report(p), RunLength(p, kind), p[|p| - 1];
      && (Find(e.confirmed, kind).Some? <==>
            n > 0 && (kind in {WeightJump, InvalidWeight, RepeatedInstability} || n >= last.config.consecutiveCount
                      || last.sample.timestampMs - p[|p| - n].sample.timestampMs >= last.config.minAnomalyMs))
      && (kind in e.recovered <==> n == 0)
      && (Find(e.hits, WeightJump).None? || Find(e.hits, SuddenWeightChange).None?)
  {
    hide HitsAt, Report, After, Find, Confirmed, Absent, NextCandidates;
    var q, r := p[..|p| - 1], p[|p| - 1];
    ReportIs(p);
    CandidatesAreRuns(q, kind);
    KindsDistinct();
    ConfirmedKinds(KINDS, HitsAt(p), After(q).candidates, r, kind);
    HitsExclusive(p);
    AbsentIff(KINDS, HitsAt(p), kind);
    if RunLength(p, kind) > 0 {
      ImmediateAt(p, kind);
    }
  }

  // ---- the bounded window against the whole history ----

  function EvaluateAll(history: seq<Sample>, candidates: map<Kind, Candidate>, r: Reading): Evaluation {
    EvaluateOver(history + [r.sample], Previous(history), candidates, r)
  }

  function AfterAll(p: seq<Reading>): Runtime {
    if p == [] then FRESH
    else
      var rt := AfterAll(p[..|p| - 1]);
      var e := EvaluateAll(rt.window, rt.candidates, p[|p| - 1]);
      Runtime(e.window, e.candidates)
  }

  function ReportAll(p: seq<Reading>): Evaluation
    requires p != []
  {
    var rt := AfterAll(p[..|p| - 1]);
    EvaluateAll(rt.window, rt.candidates, p[|p| - 1])
  }

  /** Same hits, same confirmations, same recoveries, same candidates as with unlimited memory. */
  ghost predicate AgreesWithAll(p: seq<Reading>)
    requires p != []
  {
    var e, f := Report(p), ReportAll(p);
    e.hits == f.hits && e.confirmed == f.confirmed && e.recovered == f.recovered && e.candidates == f.candidates
  }

  lemma TrailingOfLastN(w: seq<Sample>, n: nat)
    ensures TrailingUnstable(LastN(w, n)) == Min(TrailingUnstable(w), n)
  {
    TrailingHolds(w);
    TrailingIsUnique(LastN(w, n), Min(TrailingUnstable(w), n));
  }

  lemma DurationOfLastN(w: seq<Sample>, n: nat)
    requires TrailingUnstable(w) <= n && n > 0
    ensures UnstableMs(LastN(w, n)) == UnstableMs(w)
  {
    hide TrailingUnstable;
    if n < |w| {
      TrailingOfLastN(w, n);
      var d := |w| - n;
      assert LastN(w, n) == w[d..];
      assert forall i | 0 <= i < n :: w[d..][i] == w[d + i];
    }
  }

  ghost predicate InOrder(w: seq<Sample>) {
    forall i, j | 0 <= i < j < |w| :: w[i].timestampMs <= w[j].timestampMs
  }

  /** The settings ask for no more anomalies in a row than the window holds, or, the clock not running
      backwards, any instability at all lasts long enough. */
  ghost predicate WindowHolds(c: Config, w: seq<Sample>) {
    c.consecutiveCount <= MAX_WINDOW || (InOrder(w) && c.maxInstabilityMs <= 0)
  }

  lemma LastsSomeTime(w: seq<Sample>)
    requires InOrder(w)
    ensures UnstableMs(w) >= 0 && InOrder(LastN(w, MAX_WINDOW)) && UnstableMs(LastN(w, MAX_WINDOW)) >= 0
  {
    hide TrailingUnstable;
  }

  lemma InstabilityOfLast32(w: seq<Sample>, r: Reading)
    requires w != [] && w[|w| - 1] == r.sample && WindowHolds(r.config, w)
    ensures var s := LastN(w, MAX_WINDOW);
      DetectInstability(r, UnstableMs(s), TrailingUnstable(s)) == DetectInstability(r, UnstableMs(w), TrailingUnstable(w))
  {
    hide TrailingUnstable, LastN, UnstableMs, InOrder;
    if r.config.consecutiveCount > MAX_WINDOW {
      LastsSomeTime(w);
    } else {
      TrailingOfLastN(w, MAX_WINDOW);
      if TrailingUnstable(w) <= MAX_WINDOW {
        DurationOfLastN(w, MAX_WINDOW);
      }
    }
  }

  lemma HitsOfLast32(w: seq<Sample>, previous: Option<Sample>, r: Reading)
    requires w != [] && w[|w| - 1] == r.sample && WindowHolds(r.config, w)
    ensures Hits(LastN(w, MAX_WINDOW), previous, r) == Hits(w, previous, r)
  {
    InstabilityOfLast32(w, r);
    hide PreferJump, DetectInvalid, DetectEmpty, DetectJump, DetectSudden, DetectInstability, TrailingUnstable, UnstableMs;
  }

  lemma {:induction false} AllKeepsAll(p: seq<Reading>)
    ensures AfterAll(p).window == Samples(p)
  {
    hide Hits, Confirmed, NextCandidates, Absent;
    if p != [] {
      AllKeepsAll(p[..|p| - 1]);
      SamplesStep(p);
    }
  }

  /** Bounded and unlimited memory report the same, on every stream whose settings the window holds. */
  lemma {:induction false} SameCandidates(p: seq<Reading>)
    requires forall r | r in p :: WindowHolds(r.config, Samples(p))
    ensures After(p).candidates == AfterAll(p).candidates
    ensures p != [] ==> AgreesWithAll(p)
  {
    if p != [] {
      hide HitsAt, Hits, Confirmed, NextCandidates, Absent, Report, ReportAll, After, AfterAll, RunLength;
      var q := p[..|p| - 1];
      SamplesStep(p);
      PrefixHolds(q, p[|p| - 1], p);
      SameCandidates(q);
      ReportIs(p);
      ReportAllIs(p);
      SameHits(p);
    }
  }

  lemma PrefixHolds(q: seq<Reading>, r: Reading, p: seq<Reading>)
    requires p == q + [r] && Samples(p) == Samples(q) + [r.sample] && forall x | x in p :: WindowHolds(x.config, Samples(p))
    ensures forall x | x in q :: WindowHolds(x.config, Samples(q))
  {
    forall x | x in q ensures WindowHolds(x.config, Samples(q)) {
      assert x in p;
      if InOrder(Samples(p)) {
        forall i, j | 0 <= i < j < |q| ensures Samples(q)[i].timestampMs <= Samples(q)[j].timestampMs {
          assert Samples(p)[i] == Samples(q)[i] && Samples(p)[j] == Samples(q)[j];
        }
      }
    }
  }

  lemma SameHits(p: seq<Reading>)
    requires p != [] && WindowHolds(p[|p| - 1].config, Samples(p))
    ensures HitsAt(p) == Hits(Samples(p), Previous(Samples(p[..|p| - 1])), p[|p| - 1])
  {
    hide Hits;
    HitsOfLast32(Samples(p), Previous(Samples(p[..|p| - 1])), p[|p| - 1]);
  }

  lemma ReportAllIs(p: seq<Reading>)
    requires p != []
    ensures AfterAll(p).candidates == ReportAll(p).candidates
    ensures var e, r := ReportAll(p), p[|p| - 1];
      var c, hits := AfterAll(p[..|p| - 1]).candidates, Hits(Samples(p), Previous(Samples(p[..|p| - 1])), r);
      && e.hits == hits && e.confirmed == Confirmed(KINDS, hits, c, r) && e.recovered == Absent(KINDS, hits)
      && e.candidates == NextCandidates(KINDS, c, hits, r.sample.timestampMs)
  {
    hide Hits, Confirmed, NextCandidates, Absent, Samples;
    ReportAllOver(p);
  }

  lemma ReportAllOver(p: seq<Reading>)
    requires p != []
    ensures ReportAll(p) == EvaluateOver(Samples(p), Previous(Samples(p[..|p| - 1])), AfterAll(p[..|p| - 1]).candidates, p[|p| - 1])
  {
    hide EvaluateOver, AfterAll;
    var q := p[..|p| - 1];
    AllKeepsAll(q);
    SamplesStep(p);
  }

  /** The same UNSTABLE reading n times over in one millisecond. */
  function Flood(n: nat, platform: Platform, config: Config): (p: seq<Reading>)
    ensures |p| == n
    ensures forall i | 0 <= i < n :: p[i] == Reading(Sample(0, NoWeight, Unstable, "KG"), platform, config)
  {
    seq(n, i => Reading(Sample(0, NoWeight, Unstable, "KG"), platform, config))
  }

  lemma FloodLasts(w: seq<Sample>)
    requires w != [] && forall i | 0 <= i < |w| :: w[i].quality.Unstable? && w[i].timestampMs == 0
    ensures TrailingUnstable(w) == |w| && UnstableMs(w) == 0
  {
    TrailingIsUnique(w, |w|);
  }

  /** With a longer count and some instability allowed, unlimited memory reports the flood and the bounded
      window does not. */
  lemma FloodDisagrees(platform: Platform, config: Config)
    requires config.consecutiveCount > MAX_WINDOW && config.maxInstabilityMs > 0
    ensures !AgreesWithAll(Flood(config.consecutiveCount, platform, config))
  {
    hide Report, ReportAll, Flood, DetectInstability, UnstableMs, TrailingUnstable;
    var n := config.consecutiveCount;
    var p := Flood(n, platform, config);
    var r := p[n - 1];
    FloodLasts(Samples(p));
    FloodLasts(LastN(Samples(p), MAX_WINDOW));
    FloodReports(p);
    OnlyCountDecides(r, 0, n);
    OnlyCountDecides(r, 0, MAX_WINDOW);
  }

  lemma OnlyCountDecides(r: Reading, unstableMs: int, n: nat)
    requires r.sample.quality.Unstable? && unstableMs < r.config.maxInstabilityMs && r.config.consecutiveCount > 3
    ensures Found(DetectInstability(r, unstableMs, n)) == [] <==> n < r.config.consecutiveCount
  {
  }

  lemma FloodReports(p: seq<Reading>)
    requires p != []
    requires var s := p[|p| - 1].sample; s.weight.NoWeight? && s.quality.Unstable? && s.unit == "KG"
    ensures var short, all, r := LastN(Samples(p), MAX_WINDOW), Samples(p), p[|p| - 1];
      && Report(p).hits == Found(DetectInstability(r, UnstableMs(short), TrailingUnstable(short)))
      && ReportAll(p).hits == Found(DetectInstability(r, UnstableMs(all), TrailingUnstable(all)))
  {
    hide Confirmed, NextCandidates, Absent, Hits, UnstableMs, TrailingUnstable, DetectInstability;
    var q, r := p[..|p| - 1], p[|p| - 1];
    ReportIs(p);
    AllKeepsAll(q);
    SamplesStep(p);
    FloodHits(Samples(p), Previous(Samples(q)), r);
    FloodHits(LastN(Samples(p), MAX_WINDOW), Previous(Samples(q)), r);
  }

  /** A reading without a weight can only hit as an instability. */
  lemma FloodHits(w: seq<Sample>, previous: Option<Sample>, r: Reading)
    requires r.sample.weight.NoWeight? && r.sample.quality.Unstable? && r.sample.unit == "KG"
    ensures Hits(w, previous, r) == Found(DetectInstability(r, UnstableMs(w), TrailingUnstable(w)))
  {
    var raw := RawHits(w, previous, r);
    assert raw == Found(DetectInstability(r, UnstableMs(w), TrailingUnstable(w)));
  }

  /** A stream under one setting, its clock not running backwards. */
  ghost predicate Uses(p: seq<Reading>, config: Config) {
    p != [] && InOrder(Samples(p)) && forall r | r in p :: r.config == config
  }

  /** Thirty-two samples are as good as the whole history, on every stream whose clock does not run
      backwards, exactly for the settings that ask for no more than 32 consecutive anomalies or allow no
      instability at all. */
  lemma WindowSufficesIff(config: Config)
    ensures (forall p | Uses(p, config) :: AgreesWithAll(p)) <==>
      config.consecutiveCount <= MAX_WINDOW || config.maxInstabilityMs <= 0
  {
    hide AgreesWithAll, Flood;
    if config.consecutiveCount <= MAX_WINDOW || config.maxInstabilityMs <= 0 {
      forall p | Uses(p, config) ensures AgreesWithAll(p) {
        SameCandidates(p);
      }
    } else {
      FloodDisagrees(Unknown, config);
      assert Uses(Flood(config.consecutiveCount, Unknown, config), config);
    }
  }

  // ---- the object ----

  /** The runtime of one weighbridge. The ghost stream is every reading since it was created. */
  class AnomalyRuntime {
    var window: seq<Sample>
    var candidates: map<Kind, Candidate>
    ghost var stream: seq<Reading>

    ghost predicate Valid()
      reads this
    {
      Runtime(window, candidates) == After(stream)
    }

    constructor ()
      ensures Valid() && stream == []
    {
      window, candidates, stream := [], map[], [];
    }

    method Observe(r: Reading) returns (e: Evaluation)
      requires Valid()
      modifies this
      ensures Valid() && stream == old(stream) + [r]
      ensures e == Report(stream)
      ensures window == LastN(Samples(stream), MAX_WINDOW)
    {
      hide EvaluateOver, TrailingUnstable;
      e := EvaluateWeightAnomaly(window, candidates, r);
      window, candidates := LastN(e.window, MAX_WINDOW), e.candidates;
      stream := stream + [r];
      assert stream[..|stream| - 1] == old(stream);
      WindowIsLast32(stream);
    }
  }
}
