/**
 Connectivity with hysteresis, written twice in the repository: as a pure machine
 (apps/api/src/domain/connectivityState.ts) and as the edge manager that updates its own fields
 (apps/edge/src/connectivity/manager.ts), which can also pretend to be disconnected.
 */
module Connectivity {
  import opened Wrappers

  datatype State = Online | Degraded | Offline | Syncing | Recovering | Error

  datatype Config = Config(failThreshold: int, recoverThreshold: int)

  datatype Observation = Observation(
    internetOnline: bool, backendReachable: bool, hardwareOnline: bool, authFailed: bool, syncing: bool,
    pendingCritical: int, openConflicts: int)

  datatype Machine = Machine(state: State, failures: int, successes: int)

  const START := Machine(Online, 0, 0)

  /** States that must be worked out of before the site counts as online again. */
  predicate Suspect(s: State) {
    s.Offline? || s.Recovering? || s.Syncing? || s.Error?
  }

  /** The pure machine. */
  function Observe(m: Machine, o: Observation, c: Config): Machine {
    if o.authFailed then Machine(Error, m.failures + 1, 0)
    else if o.backendReachable then
      var successes := m.successes + 1;
      var state :=
        if o.syncing then Syncing
        else if Suspect(m.state) then
          if successes < c.recoverThreshold then Recovering
          else if o.pendingCritical > 0 || o.openConflicts > 0 then Recovering
          else if !o.hardwareOnline || !o.internetOnline then Degraded
          else Online
        else if !o.hardwareOnline || !o.internetOnline then Degraded
        else Online;
      Machine(state, 0, successes)
    else
      var failures := m.failures + 1;
      if failures < c.failThreshold && !m.state.Offline? then
        Machine(if m.state.Online? then Degraded else m.state, failures, 0)
      else Machine(Offline, failures, 0)
  }

  /** What the manager sees while it pretends to be disconnected. */
  function Masked(o: Observation, simulated: bool): Observation {
    if simulated then o.(internetOnline := false, backendReachable := false) else o
  }

  // ---- runs ----

  datatype Event = Seen(o: Observation) | Simulate(offline: bool)

  /** The manager: the machine, and whether it pretends to be disconnected. */
  datatype Manager = Manager(machine: Machine, simulated: bool)

  function Step(g: Manager, e: Event, c: Config): Manager {
    match e
    case Seen(o) => g.(machine := Observe(g.machine, Masked(o, g.simulated), c))
    case Simulate(offline) =>
      Manager(if offline then g.machine.(state := Offline, failures := c.failThreshold) else g.machine, offline)
  }

  function After(h: seq<Event>, c: Config): Manager {
    if h == [] then Manager(START, false) else Step(After(h[..|h| - 1], c), h[|h| - 1], c)
  }

  predicate Failure(o: Observation) {
    o.authFailed || !o.backendReachable
  }

  /** The last event of the history, as the manager saw it, is a failure. */
  predicate FailureAt(h: seq<Event>, o: Observation, c: Config) {
    Failure(Masked(o, After(h, c).simulated))
  }

  /** Observations in a row, up to the last, that succeeded; pretending does not interrupt them. */
  function SuccessRun(h: seq<Event>, c: Config): nat {
    if h == [] then 0
    else
      var front, e := h[..|h| - 1], h[|h| - 1];
      match e
      case Simulate(_) => SuccessRun(front, c)
      case Seen(o) => if FailureAt(front, o, c) then 0 else SuccessRun(front, c) + 1
  }

  /** Observations in a row that failed; starting to pretend counts as a full run. */
  function FailureRun(h: seq<Event>, c: Config): int {
    if h == [] then 0
    else
      var front, e := h[..|h| - 1], h[|h| - 1];
      match e
      case Simulate(offline) => if offline then c.failThreshold else FailureRun(front, c)
      case Seen(o) => if FailureAt(front, o, c) then FailureRun(front, c) + 1 else 0
  }

  /** The counters are the lengths of the trailing runs, over every history. */
  lemma {:induction false} CountersAreRuns(h: seq<Event>, c: Config)
    ensures After(h, c).machine.successes == SuccessRun(h, c) && After(h, c).machine.failures == FailureRun(h, c)
  {
    if h != [] {
      CountersAreRuns(h[..|h| - 1], c);
    }
  }

  ghost predicate NoPretending(h: seq<Event>) {
    forall e | e in h :: e.Seen?
  }

  /** The last n events are failures. */
  ghost predicate EndsInFailures(h: seq<Event>, n: int) {
    n <= |h| && forall i | Max(0, |h| - n) <= i < |h| :: h[i].Seen? && Failure(h[i].o)
  }

  ghost predicate EndsInSuccesses(h: seq<Event>, n: int) {
    n <= |h| && forall i | Max(0, |h| - n) <= i < |h| :: h[i].Seen? && !Failure(h[i].o)
  }

  lemma FrontSeen(h: seq<Event>)
    requires NoPretending(h) && h != []
    ensures NoPretending(h[..|h| - 1]) && h[|h| - 1].Seen?
  {
    assert h[|h| - 1] in h;
    forall x | x in h[..|h| - 1] ensures x in h {
    }
  }

  lemma {:induction false} NotPretending(h: seq<Event>, c: Config)
    requires NoPretending(h)
    ensures !After(h, c).simulated
  {
    hide Observe;
    if h != [] {
      FrontSeen(h);
      NotPretending(h[..|h| - 1], c);
    }
  }

  lemma FailureAtIs(h: seq<Event>, o: Observation, c: Config)
    requires NoPretending(h)
    ensures FailureAt(h, o, c) <==> Failure(o)
  {
    NotPretending(h, c);
  }

  lemma {:induction false} FailuresAreSuffix(h: seq<Event>, c: Config)
    requires NoPretending(h)
    ensures var n := FailureRun(h, c); 0 <= n && EndsInFailures(h, n) && (n < |h| ==> !Failure(h[|h| - 1 - n].o))
  {
    hide Failure, FailureAt;
    if h != [] {
      FrontSeen(h);
      FailuresAreSuffix(h[..|h| - 1], c);
      FailureAtIs(h[..|h| - 1], h[|h| - 1].o, c);
    }
  }

  lemma {:induction false} SuccessesAreSuffix(h: seq<Event>, c: Config)
    requires NoPretending(h)
    ensures var n := SuccessRun(h, c); EndsInSuccesses(h, n) && (n < |h| ==> Failure(h[|h| - 1 - n].o))
  {
    hide Failure, FailureAt;
    if h != [] {
      FrontSeen(h);
      SuccessesAreSuffix(h[..|h| - 1], c);
      FailureAtIs(h[..|h| - 1], h[|h| - 1].o, c);
    }
  }

  /** Without pretending, the counters are the lengths of the longest runs of failures and of successes
      that the history ends with. */
  lemma RunsAreSuffixes(h: seq<Event>, c: Config)
    requires NoPretending(h)
    ensures !After(h, c).simulated
    ensures After(h, c).machine.failures == FailureRun(h, c) && After(h, c).machine.successes == SuccessRun(h, c)
    ensures 0 <= FailureRun(h, c) && EndsInFailures(h, FailureRun(h, c)) && EndsInSuccesses(h, SuccessRun(h, c))
    ensures FailureRun(h, c) < |h| ==> !Failure(h[|h| - 1 - FailureRun(h, c)].o)
    ensures SuccessRun(h, c) < |h| ==> Failure(h[|h| - 1 - SuccessRun(h, c)].o)
  {
    hide After, FailureRun, SuccessRun, Failure;
    NotPretending(h, c);
    CountersAreRuns(h, c);
    FailuresAreSuffix(h, c);
    SuccessesAreSuffix(h, c);
  }

  /** What the manager made of each observation: true for a success. Pretending observes nothing. */
  function Outcomes(h: seq<Event>, c: Config): seq<bool> {
    if h == [] then []
    else
      var front, e := h[..|h| - 1], h[|h| - 1];
      Outcomes(front, c) + if e.Seen? then [!FailureAt(front, e.o, c)] else []
  }

  ghost predicate LastAre(outcomes: seq<bool>, n: nat, b: bool) {
    && n <= |outcomes|
    && (forall i | |outcomes| - n <= i < |outcomes| :: outcomes[i] == b)
    && (n < |outcomes| ==> outcomes[|outcomes| - 1 - n] != b)
  }

  lemma {:induction false} SuccessRunIsLongest(h: seq<Event>, c: Config)
    ensures LastAre(Outcomes(h, c), SuccessRun(h, c), true)
  {
    if h != [] {
      SuccessRunIsLongest(h[..|h| - 1], c);
    }
  }

  /** With pretending, over every history: the success counter is the longest run of successes that the
      outcomes end with, whatever was pretended in between. */
  lemma SuccessesAreTrailing(h: seq<Event>, c: Config)
    ensures var n := After(h, c).machine.successes; n >= 0 && LastAre(Outcomes(h, c), n, true)
  {
    CountersAreRuns(h, c);
    SuccessRunIsLongest(h, c);
  }

  lemma FailureRunSteps(h: seq<Event>, e: Event, c: Config)
    ensures e.Simulate? ==> FailureRun(h + [e], c) == if e.offline then c.failThreshold else FailureRun(h, c)
    ensures e.Seen? ==> FailureRun(h + [e], c) == if FailureAt(h, e.o, c) then FailureRun(h, c) + 1 else 0
  {
    hide FailureAt;
    assert (h + [e])[..|h|] == h;
  }

  lemma {:induction false} FailureRunFrom(front: seq<Event>, tail: seq<Event>, c: Config)
    requires NoPretending(tail)
    ensures var n, o := FailureRun(front + [Simulate(true)] + tail, c), OutcomesSince(front, tail, c);
      |o| == |tail| && if true in o then 0 <= n && LastAre(o, n, false) else n == c.failThreshold + |tail|
  {
    hide FailureRun, FailureAt;
    var on := front + [Simulate(true)];
    if tail == [] {
      assert on + tail == on;
      FailureRunSteps(front, Simulate(true), c);
    } else {
      var t, e := tail[..|tail| - 1], tail[|tail| - 1];
      assert e in tail;
      assert NoPretending(t) by { forall x | x in t ensures x in tail { } }
      assert on + tail == (on + t) + [e];
      FailureRunFrom(front, t, c);
      FailureRunSteps(on + t, e, c);
      ExtendsRun(OutcomesSince(front, t, c), FailureRun(on + t, c), !FailureAt(on + t, e.o, c), c.failThreshold);
    }
  }

  lemma ExtendsRun(o: seq<bool>, n: int, success: bool, threshold: int)
    requires if true in o then 0 <= n && LastAre(o, n, false) else n == threshold + |o|
    ensures var o', n' := o + [success], if success then 0 else n + 1;
      if true in o' then 0 <= n' && LastAre(o', n', false) else n' == threshold + |o'|
  {
    var o' := o + [success];
    assert o'[|o|] == success;
    if true in o {
      var i :| 0 <= i < |o| && o[i];
      assert o'[i];
    }
  }

  /** The outcomes after a disconnect began to be pretended. */
  function OutcomesSince(front: seq<Event>, tail: seq<Event>, c: Config): seq<bool>
    requires NoPretending(tail)
  {
    if tail == [] then []
    else
      var t, e := tail[..|tail| - 1], tail[|tail| - 1];
      assert e in tail && forall x | x in t :: x in tail;
      OutcomesSince(front, t, c) + [!FailureAt(front + [Simulate(true)] + t, e.o, c)]
  }

  /** A pretended disconnect counts as failThreshold failures: until an observation succeeds again the
      failure counter is those and the observations since, afterwards the longest run of failures. */
  lemma FailuresSincePretending(front: seq<Event>, tail: seq<Event>, c: Config)
    requires NoPretending(tail)
    ensures var n, o := After(front + [Simulate(true)] + tail, c).machine.failures, OutcomesSince(front, tail, c);
      if true in o then 0 <= n && LastAre(o, n, false) else n == c.failThreshold + |tail|
  {
    CountersAreRuns(front + [Simulate(true)] + tail, c);
    FailureRunFrom(front, tail, c);
  }

  // ---- hysteresis ----

  /** Any failed observation takes an online site out of ONLINE: to ERROR when the login was refused,
      otherwise to OFFLINE if it completes failThreshold failures in a row and to DEGRADED if it does not. */
  lemma LeavesOnlineAtFirstFailure(h: seq<Event>, o: Observation, c: Config)
    requires After(h, c).machine.state == Online && FailureAt(h, o, c)
    ensures After(h + [Seen(o)], c).machine.state == (
      if Masked(o, After(h, c).simulated).authFailed then Error
      else if FailureRun(h + [Seen(o)], c) >= c.failThreshold then Offline
      else Degraded)
  {
    var h' := h + [Seen(o)];
    assert h'[..|h'| - 1] == h;
    CountersAreRuns(h, c);
  }

  /** Exactly when an observation leaves the site offline: the backend was unreachable, the login was not
      refused, and it either was offline already or has now failed often enough in a row. */
  lemma OfflineIff(h: seq<Event>, o: Observation, c: Config)
    ensures var h' := h + [Seen(o)]; var seen := Masked(o, After(h, c).simulated);
      After(h', c).machine.state == Offline <==>
        !seen.authFailed && !seen.backendReachable
        && (After(h, c).machine.state == Offline || FailureRun(h', c) >= c.failThreshold)
  {
    var h' := h + [Seen(o)];
    assert h'[..|h'| - 1] == h;
    CountersAreRuns(h, c);
    CountersAreRuns(h', c);
  }

  /** The last recoverThreshold observations all succeeded, nothing critical is pending and no conflict open. */
  predicate Cleared(h: seq<Event>, seen: Observation, c: Config) {
    SuccessRun(h, c) >= c.recoverThreshold && seen.pendingCritical <= 0 && seen.openConflicts <= 0
  }

  /** Where an observation leaves the site. After a success: SYNCING during a sync; still RECOVERING if it was
      suspect and is not cleared; otherwise ONLINE exactly if hardware and internet are, and DEGRADED if not.
      After a refused login: ERROR. After any other failure: OFFLINE when it was or the failures suffice, and
      until then DEGRADED if it was online and what it was if not. */
  lemma StateAfter(h: seq<Event>, o: Observation, c: Config)
    ensures var h' := h + [Seen(o)]; var before, s, seen := After(h, c).machine.state, After(h', c).machine.state, Masked(o, After(h, c).simulated);
      var failedOn := !seen.authFailed && !seen.backendReachable && before != Offline && FailureRun(h', c) < c.failThreshold;
      var passed := !Failure(seen) && !seen.syncing && (Suspect(before) ==> Cleared(h', seen, c));
      && (s == Error <==> seen.authFailed || (failedOn && before == Error))
      && (s == Syncing <==> (!Failure(seen) && seen.syncing) || (failedOn && before == Syncing))
      && (s == Online <==> passed && seen.hardwareOnline && seen.internetOnline)
      && (s == Degraded <==>
            || (passed && !(seen.hardwareOnline && seen.internetOnline))
            || (failedOn && (before == Online || before == Degraded)))
      && (s == Recovering <==>
            || (!Failure(seen) && !seen.syncing && Suspect(before) && !Cleared(h', seen, c))
            || (failedOn && before == Recovering))
  {
    var h' := h + [Seen(o)];
    assert h'[..|h'| - 1] == h;
    CountersAreRuns(h, c);
    CountersAreRuns(h', c);
    hide SuccessRun, FailureRun;
  }

  /** Exactly when a suspect site becomes online or degraded: a success that is not a sync, the last
      recoverThreshold observations all successes, nothing critical pending and no conflict open. */
  lemma RecoversIff(h: seq<Event>, o: Observation, c: Config)
    requires Suspect(After(h, c).machine.state)
    ensures var h' := h + [Seen(o)]; var s, seen := After(h', c).machine.state, Masked(o, After(h, c).simulated);
      s == Online || s == Degraded <==>
        !Failure(seen) && !seen.syncing && SuccessRun(h', c) >= c.recoverThreshold
        && seen.pendingCritical <= 0 && seen.openConflicts <= 0
  {
    var h' := h + [Seen(o)];
    assert h'[..|h'| - 1] == h;
    CountersAreRuns(h, c);
    CountersAreRuns(h', c);
  }

  /** Without pretending, over every run: the site goes offline only after failThreshold failed
      observations in a row, and a suspect site recovers only after recoverThreshold successes in a row. */
  lemma Hysteresis(h: seq<Event>, o: Observation, c: Config)
    requires NoPretending(h)
    ensures var h' := h + [Seen(o)]; var before, after := After(h, c).machine.state, After(h', c).machine.state;
      && (before != Offline && after == Offline ==> EndsInFailures(h', c.failThreshold))
      && (Suspect(before) && !Suspect(after) ==>
            EndsInSuccesses(h', c.recoverThreshold) && o.pendingCritical <= 0 && o.openConflicts <= 0)
  {
    var h' := h + [Seen(o)];
    RunsAreSuffixes(h, c);
    RunsAreSuffixes(h', c);
    OfflineIff(h, o, c);
    if Suspect(After(h, c).machine.state) {
      RecoversIff(h, o, c);
    }
  }

  /** Pretending does not reset the successes. A disconnect pretended and ended between two observations is
      left at the very next success exactly when the successes from before it already suffice; one failed
      observation in between, and the full threshold is needed again. */
  lemma BlipKeepsSuccesses(h: seq<Event>, o: Observation, c: Config)
    requires !Failure(o) && !o.syncing && o.pendingCritical <= 0 && o.openConflicts <= 0
    ensures var s := After(h + [Simulate(true), Simulate(false)] + [Seen(o)], c).machine.state;
      s == Online || s == Degraded <==> SuccessRun(h, c) + 1 >= c.recoverThreshold
    ensures var s := After(h + [Simulate(true), Seen(o), Simulate(false)] + [Seen(o)], c).machine.state;
      s == Online || s == Degraded <==> 1 >= c.recoverThreshold
  {
    var on, off := h + [Simulate(true)], h + [Simulate(true), Simulate(false)];
    assert on[..|h|] == h && off[..|on|] == on;
    assert After(on, c).machine.state == Offline && After(off, c).machine.state == Offline && !After(off, c).simulated;
    assert SuccessRun(off, c) == SuccessRun(on, c) == SuccessRun(h, c);
    SuccessAfter(off, o, c);
    var seen, ended := h + [Simulate(true), Seen(o)], h + [Simulate(true), Seen(o), Simulate(false)];
    assert seen[..|on|] == on && ended[..|seen|] == seen;
    assert !Masked(o, true).backendReachable;
    assert After(seen, c).machine.state == Offline && After(ended, c).machine.state == Offline && !After(ended, c).simulated;
    assert SuccessRun(ended, c) == SuccessRun(seen, c) == 0;
    SuccessAfter(ended, o, c);
  }

  lemma SuccessAfter(h: seq<Event>, o: Observation, c: Config)
    requires !Failure(o) && !o.syncing && o.pendingCritical <= 0 && o.openConflicts <= 0
    requires After(h, c).machine.state == Offline && !After(h, c).simulated
    ensures var s := After(h + [Seen(o)], c).machine.state;
      s == Online || s == Degraded <==> SuccessRun(h, c) + 1 >= c.recoverThreshold
  {
    var h' := h + [Seen(o)];
    assert h'[..|h|] == h;
    assert SuccessRun(h', c) == SuccessRun(h, c) + 1;
    RecoversIff(h, o, c);
  }

  // ---- the edge manager ----

  class ConnectivityManager {
    const config: Config
    var simulatedDisconnect: bool
    var consecutiveFailures: int
    var consecutiveSuccesses: int
    var state: State
    ghost var history: seq<Event>

    ghost predicate Valid()
      reads this
    {
      Manager(Machine(state, consecutiveFailures, consecutiveSuccesses), simulatedDisconnect) == After(history, config)
    }

    constructor (config: Config)
      ensures Valid() && history == [] && this.config == config
    {
      this.config := config;
      simulatedDisconnect, consecutiveFailures, consecutiveSuccesses, state, history := false, 0, 0, Online, [];
    }

    method SimulateDisconnect(offline: bool)
      requires Valid()
      modifies this
      ensures Valid() && history == old(history) + [Simulate(offline)]
    {
      simulatedDisconnect := offline;
      if offline {
        consecutiveFailures := config.failThreshold;
        state := Offline;
      }
      history := history + [Simulate(offline)];
      assert history[..|history| - 1] == old(history);
    }

    /** The manager's own branches, field by field, compute what the pure machine computes on the masked
        observation. */
    method ObserveNow(o: Observation)
      requires Valid()
      modifies this
      ensures Valid() && history == old(history) + [Seen(o)]
    {
      var internetOnline := if simulatedDisconnect then false else o.internetOnline;
      var backendReachable := if simulatedDisconnect then false else o.backendReachable;
      var previous := state;
      if o.authFailed {
        state := Error;
        consecutiveFailures := consecutiveFailures + 1;
        consecutiveSuccesses := 0;
      } else if backendReachable {
        consecutiveFailures := 0;
        consecutiveSuccesses := consecutiveSuccesses + 1;
        if o.syncing {
          state := Syncing;
        } else if previous == Offline || previous == Recovering || previous == Syncing || previous == Error {
          if consecutiveSuccesses < config.recoverThreshold || o.pendingCritical > 0 || o.openConflicts > 0 {
            state := Recovering;
          } else if !o.hardwareOnline || !internetOnline {
            state := Degraded;
          } else {
            state := Online;
          }
        } else if !o.hardwareOnline || !internetOnline {
          state := Degraded;
        } else {
          state := Online;
        }
      } else {
        consecutiveSuccesses := 0;
        consecutiveFailures := consecutiveFailures + 1;
        if consecutiveFailures >= config.failThreshold || previous == Offline {
          state := Offline;
        } else if previous == Online {
          state := Degraded;
        }
      }
      history := history + [Seen(o)];
      assert history[..|history| - 1] == old(history);
    }
  }
}
