/**
 Send order of queued events (apps/edge/src/offline/priority.ts). Timestamps are integer
 milliseconds; a sequence is None when the source's Number() of it is not finite.
 */
module Priority {
  import opened Wrappers

  datatype Priority = Critical | High | Normal | Low

  datatype SortKey = SortKey(priority: Priority, sequence: Option<int>, timestamp: int, receivedAt: int)

  function Rank(p: Priority): nat {
    match p
    case Critical => 0
    case High => 1
    case Normal => 2
    case Low => 3
  }

  function PriorityForEventType(eventType: string): Priority {
    if eventType in {"DEVICE_WEIGHT_READING", "LOCAL_TRANSACTION_CREATED", "LOCAL_TRANSACTION_STATE"} then Critical
    else if eventType in {"DEVICE_ANPR_DETECTION", "DEVICE_SCAN_COMPLETED", "LOCAL_FILE_CAPTURED", "LOCAL_WEIGHT_ANOMALY"} then High
    else if eventType in {"DEVICE_STATUS_CHANGED", "CONNECTIVITY_CHANGED"} then Normal
    else Low
  }

  function CompareTime(l: SortKey, r: SortKey): int {
    if l.timestamp != r.timestamp then l.timestamp - r.timestamp else l.receivedAt - r.receivedAt
  }

  function Compare(l: SortKey, r: SortKey): int {
    if Rank(l.priority) != Rank(r.priority) then Rank(l.priority) - Rank(r.priority)
    else if l.sequence.Some? && r.sequence.Some? && l.sequence != r.sequence then l.sequence.value - r.sequence.value
    else CompareTime(l, r)
  }

  predicate Le(l: SortKey, r: SortKey) {
    Compare(l, r) <= 0
  }

  predicate Earlier(l: SortKey, r: SortKey) {
    l.timestamp < r.timestamp || (l.timestamp == r.timestamp && l.receivedAt < r.receivedAt)
  }

  /** The order the comparator means. Whatever clocks and numbers say, CRITICAL goes before everything else,
      HIGH before NORMAL and LOW, and NORMAL before LOW. Within a priority two events with different numbers
      go by number, any others by event time and then by arrival. */
  lemma UrgentFirst(l: SortKey, r: SortKey)
    ensures l.priority == Critical && r.priority != Critical ==> Compare(l, r) < 0
    ensures l.priority == High && r.priority in {Normal, Low} ==> Compare(l, r) < 0
    ensures l.priority == Normal && r.priority == Low ==> Compare(l, r) < 0
    ensures l.priority == r.priority && l.sequence.Some? && r.sequence.Some? && l.sequence != r.sequence ==>
      (Compare(l, r) < 0 <==> l.sequence.value < r.sequence.value)
    ensures l.priority == r.priority && (l.sequence.None? || r.sequence.None? || l.sequence == r.sequence) ==>
      (Compare(l, r) < 0 <==> Earlier(l, r))
  {
  }

  /** Swapping the arguments negates the comparator, so Le is total. */
  lemma CompareSwaps(l: SortKey, r: SortKey)
    ensures Compare(l, r) == -Compare(r, l)
    ensures Le(l, r) || Le(r, l)
  {
  }

  ghost predicate Transitive(keys: set<SortKey>) {
    forall x, y, z | x in keys && y in keys && z in keys && Le(x, y) && Le(y, z) :: Le(x, z)
  }

  /** Two numbered events of one priority whose clocks contradict their numbers, with an unnumbered
      event of that priority timed between them. */
  predicate Straddles(a: SortKey, b: SortKey, c: SortKey) {
    && a.priority == b.priority == c.priority
    && a.sequence.Some? && b.sequence.Some? && c.sequence.None?
    && a.sequence.value < b.sequence.value
    && CompareTime(b, c) <= 0 && CompareTime(c, a) <= 0
  }

  /** No triple of the list straddles. */
  ghost predicate Consistent(keys: set<SortKey>) {
    forall a, b, c | a in keys && b in keys && c in keys :: !Straddles(a, b, c)
  }

  lemma IntransitiveStraddles(x: SortKey, y: SortKey, z: SortKey)
    requires Le(x, y) && Le(y, z) && !Le(x, z)
    ensures Straddles(z, x, y) || Straddles(x, y, z) || Straddles(y, z, x)
  {
  }

  /** The comparator orders a list exactly when no triple of it straddles. */
  lemma TransitiveIffConsistent(keys: set<SortKey>)
    ensures Transitive(keys) <==> Consistent(keys)
  {
    forall a, b, c | a in keys && b in keys && c in keys && Straddles(a, b, c)
      ensures !Transitive(keys)
    {
      assert Le(b, c) && Le(c, a) && !Le(b, a);
    }
    forall x, y, z | x in keys && y in keys && z in keys && Le(x, y) && Le(y, z) && !Le(x, z)
      ensures !Consistent(keys)
    {
      IntransitiveStraddles(x, y, z);
    }
  }

  /** Lists whose events all carry sequences, or all lack them, are consistent. */
  lemma HomogeneousIsTransitive(keys: set<SortKey>)
    requires (forall k | k in keys :: k.sequence.Some?) || (forall k | k in keys :: k.sequence.None?)
    ensures Transitive(keys)
  {
    TransitiveIffConsistent(keys);
  }

  /** A mixed list on which the comparator runs in a cycle. */
  lemma MixedSequencesCycle() returns (a: SortKey, b: SortKey, c: SortKey)
    ensures Compare(a, b) < 0 && Compare(b, c) < 0 && Compare(c, a) < 0
  {
    a := SortKey(Critical, Some(1), 30, 0);
    b := SortKey(Critical, Some(2), 10, 0);
    c := SortKey(Critical, None, 20, 0);
  }
}
