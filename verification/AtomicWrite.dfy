/**
 Crash-safe replacement of the store file (apps/edge/src/store/atomicWrite.ts) and the
 read-modify-write around it (LocalStore.mutate and read in apps/edge/src/store/localStore.ts). A crash
 can fall before any file operation and at the end; a rename is atomic.
 */
module AtomicWrite {
  import opened Wrappers
  import opened EdgeTypes

  /** The store file and its backup. Temporary files have random names and are never read back. */
  datatype Disk = Disk(main: Option<Store>, bak: Option<Store>)

  /** How one file operation ends; a crash comes before it takes effect. */
  datatype Outcome = Works | Fails | Crashes

  /** One outcome for each operation of a write, in program order. */
  datatype Script = Script(write: Outcome, replace: Outcome, dropBackup: Outcome, setAside: Outcome,
                           install: Outcome, tidy: Outcome, crashAtEnd: bool)

  datatype WriteEnd = Done | Threw | Crashed

  // ---- specification ----

  /** The value a restart would find. */
  function Durable(d: Disk): Option<Store> {
    if d.main.Some? then d.main else d.bak
  }

  /** The file is in place, or there is nothing to restore. */
  predicate Settled(d: Disk) {
    d.main.Some? || d.bak.None?
  }

  /** The path for file systems whose rename does not replace: back the old file up, then install. */
  function Fallback(d: Disk, v: Store, s: Script): (Disk, WriteEnd) {
    if s.dropBackup.Crashes? then (d, Crashed)
    else
      var d1 := if s.dropBackup.Works? then d.(bak := None) else d;
      if s.setAside.Crashes? then (d1, Crashed)
      else
        var d2 := if s.setAside.Works? && d1.main.Some? then Disk(None, d1.main) else d1;
        if s.install.Crashes? then (d2, Crashed)
        else if s.install.Fails? then (d2, Threw)
        else if s.tidy.Crashes? then (Disk(Some(v), d2.bak), Crashed)
        else (Disk(Some(v), if s.tidy.Works? then None else d2.bak), if s.crashAtEnd then Crashed else Done)
  }

  function Write(d: Disk, v: Store, s: Script): (Disk, WriteEnd) {
    if s.write.Crashes? then (d, Crashed)
    else if s.write.Fails? then (d, Threw)
    else if s.replace.Crashes? then (d, Crashed)
    else if s.replace.Works? then (Disk(Some(v), d.bak), if s.crashAtEnd then Crashed else Done)
    else Fallback(d, v, s)
  }

  /** recoverTempFile: put the backup back when the file is missing. */
  function Recover(d: Disk, o: Outcome): Disk {
    if d.main.None? && d.bak.Some? && o.Works? then Disk(d.bak, None) else d
  }

  function Read(d: Disk): Store {
    d.main.GetOr(EMPTY_STORE)
  }

  /** A process: the disk, and whether this process has already run its one recovery. */
  datatype Process = Process(disk: Disk, recovered: bool)

  datatype Attempt = Attempt(change: Store -> Store, recovery: Outcome, script: Script)

  /** LocalStore.mutate: recover once per process, read, change, replace. A crash starts a new process. */
  function Mutated(p: Process, a: Attempt): (Process, WriteEnd) {
    if !p.recovered && a.recovery.Crashes? then (Process(p.disk, false), Crashed)
    else
      var d := if p.recovered then p.disk else Recover(p.disk, a.recovery);
      var (d', end) := Write(d, a.change(Read(d)), a.script);
      (Process(d', !end.Crashed?), end)
  }

  // ---- one write ----

  /** The write moved the old file aside and then could not, or did not, install the new one. */
  predicate MovedAside(d: Disk, s: Script) {
    && s.write.Works? && s.replace.Fails? && !s.dropBackup.Crashes? && d.main.Some? && s.setAside.Works?
    && !s.install.Works?
  }

  /** From a settled disk, whatever fails and wherever the crash falls, a restart finds the old value or
      the new one, whole: the new one if the write reported success, the old one if it threw. The file
      goes missing exactly when it was moved aside and not replaced, and then the backup is the old value. */
  lemma WriteIsAtomic(d: Disk, v: Store, s: Script)
    requires Settled(d)
    ensures var (d', end) := Write(d, v, s);
      && (end.Done? ==> d'.main == Some(v))
      && (end.Threw? ==> Durable(d') == Durable(d))
      && (end.Crashed? ==> Durable(d') == Durable(d) || d'.main == Some(v))
      && (!Settled(d') <==> MovedAside(d, s))
      && (d'.main.None? && d'.bak.Some? ==> d'.bak == d.main)
  {
  }

  /** A crash falls on one of the operations the write reaches: the first two always, the others when a direct
      replacement failed. */
  predicate CutShort(s: Script) {
    || s.write.Crashes?
    || (s.write.Works? && s.replace.Crashes?)
    || (s.write.Works? && s.replace.Fails?
        && (s.dropBackup.Crashes? || s.setAside.Crashes? || s.install.Crashes? || (s.install.Works? && s.tidy.Crashes?)))
  }

  /** How a write ends: it throws exactly when the new file could not be written, or neither replace the old
      one nor be installed in its place; backing up and tidying up may fail. A write that got through leaves
      the backup alone if it replaced the file directly, and otherwise none, if tidying up worked. */
  lemma WriteEnds(d: Disk, v: Store, s: Script)
    ensures var (d', end) := Write(d, v, s);
      && (end.Threw? <==> !CutShort(s) && (s.write.Fails? || (s.replace.Fails? && s.install.Fails?)))
      && (end.Done? <==> !CutShort(s) && s.write.Works? && (s.replace.Works? || s.install.Works?) && !s.crashAtEnd)
      && (end.Done? && s.replace.Works? ==> d' == Disk(Some(v), d.bak))
      && (end.Done? && s.replace.Fails? && s.tidy.Works? ==> d' == Disk(Some(v), None))
  {
  }

  /** Recovery, crashed and repeated any number of times before it completes, brings the durable value
      back as the file. */
  lemma {:induction false} RecoveryRestores(d: Disk, tries: seq<Outcome>)
    ensures Settled(d) ==> RecoverAgain(d, tries) == d
    ensures Durable(RecoverAgain(d, tries)) == Durable(d)
    ensures Works in tries ==> RecoverAgain(d, tries).main == Durable(d)
    decreases |tries|
  {
    if tries != [] {
      RecoveryRestores(Recover(d, tries[0]), tries[1..]);
      assert Works in tries ==> tries[0].Works? || Works in tries[1..];
    }
  }

  function RecoverAgain(d: Disk, tries: seq<Outcome>): Disk
    decreases |tries|
  {
    if tries == [] then d else RecoverAgain(Recover(d, tries[0]), tries[1..])
  }

  // ---- runs of a store ----

  function Committed(p: Process): Store {
    Durable(p.disk).GetOr(EMPTY_STORE)
  }

  /** A process that has recovered sees its file. */
  predicate Sound(p: Process) {
    p.recovered ==> Settled(p.disk)
  }

  /** The faults outside the crash model: a recovery rename that fails on its own, and a last rename that
      fails without a crash after the file was moved aside. */
  predicate Stranded(p: Process, a: Attempt) {
    || (!p.recovered && a.recovery.Fails?)
    || (var d := if p.recovered then p.disk else Recover(p.disk, a.recovery); MovedAside(d, a.script) && a.script.install.Fails?)
  }

  /** One read-modify-write is all or nothing, on the committed value. */
  lemma MutateIsAtomic(p: Process, a: Attempt)
    requires Sound(p) && !Stranded(p, a)
    ensures var (p', end) := Mutated(p, a); var was := Committed(p);
      && Sound(p')
      && (end.Done? ==> Committed(p') == a.change(was))
      && (end.Threw? ==> Committed(p') == was)
      && (end.Crashed? ==> Committed(p') == was || Committed(p') == a.change(was))
  {
    if p.recovered || !a.recovery.Crashes? {
      var d := if p.recovered then p.disk else Recover(p.disk, a.recovery);
      WriteIsAtomic(d, a.change(Read(d)), a.script);
    }
  }

  ghost predicate NeverStranded(p: Process, run: seq<Attempt>)
    decreases |run|
  {
    run == [] || (!Stranded(p, run[0]) && NeverStranded(Mutated(p, run[0]).0, run[1..]))
  }

  function After(p: Process, run: seq<Attempt>): Process
    decreases |run|
  {
    if run == [] then p else After(Mutated(p, run[0]).0, run[1..])
  }

  function Ends(p: Process, run: seq<Attempt>): (ends: seq<WriteEnd>)
    ensures |ends| == |run|
    decreases |run|
  {
    if run == [] then [] else [Mutated(p, run[0]).1] + Ends(Mutated(p, run[0]).0, run[1..])
  }

  /** The changes that took, applied in order. */
  function Applied(s: Store, run: seq<Attempt>, took: seq<bool>): Store
    requires |took| == |run|
    decreases |run|
  {
    if run == [] then s else Applied(if took[0] then run[0].change(s) else s, run[1..], took[1..])
  }

  /** Over any run of writes, failures, crashes and restarts, the committed value is the changes that took
      effect, applied in order to what was there: every change reported done is among them, no change that
      threw is, and one cut short by a crash either is or is not. Nothing committed is ever lost. */
  lemma {:induction false} CommittedIsHistory(p: Process, run: seq<Attempt>) returns (took: seq<bool>)
    requires Sound(p) && NeverStranded(p, run)
    ensures |took| == |run| && Sound(After(p, run))
    ensures Committed(After(p, run)) == Applied(Committed(p), run, took)
    ensures forall i | 0 <= i < |run| ::
      (Ends(p, run)[i].Done? ==> took[i]) && (Ends(p, run)[i].Threw? ==> !took[i])
    decreases |run|
  {
    if run == [] {
      took := [];
    } else {
      MutateIsAtomic(p, run[0]);
      var (p', end) := Mutated(p, run[0]);
      var rest := CommittedIsHistory(p', run[1..]);
      took := [end.Done? || (end.Crashed? && Committed(p') == run[0].change(Committed(p)))] + rest;
      assert took[1..] == rest;
    }
  }

  /** A fresh installation holds nothing. */
  const INSTALLED := Process(Disk(None, None), false)

  /** So from a fresh installation the store is exactly the changes that took, in order, from the empty one. */
  lemma InstallationIsHistory(run: seq<Attempt>) returns (took: seq<bool>)
    requires NeverStranded(INSTALLED, run)
    ensures |took| == |run| && Committed(After(INSTALLED, run)) == Applied(EMPTY_STORE, run, took)
    ensures forall i | 0 <= i < |run| ::
      (Ends(INSTALLED, run)[i].Done? ==> took[i]) && (Ends(INSTALLED, run)[i].Threw? ==> !took[i])
  {
    took := CommittedIsHistory(INSTALLED, run);
  }

  // ---- outside the crash model ----

  /** A process that has recovered reads its committed store if and only if the file is in place, nothing
      was backed up, or what was backed up is empty anyway. */
  lemma ReadsCommittedIff(p: Process)
    requires p.recovered
    ensures Read(p.disk) == Committed(p) <==> Settled(p.disk) || p.disk.bak == Some(EMPTY_STORE)
  {
  }

  /** When the last rename fails without a crash, the write throws and the committed store is in the
      backup; but the same process does not recover again: its next change starts from the empty store,
      and once that write succeeds no restart brings the old store back. */
  lemma StrandedLosesStore(d: Disk, first: Attempt, second: Attempt)
    requires d.main.Some? && MovedAside(d, first.script) && first.script.install.Fails?
    requires second.script.write.Works? && second.script.replace.Works? && !second.script.crashAtEnd
    ensures var (p1, end1) := Mutated(Process(d, true), first); var (p2, end2) := Mutated(p1, second);
      && end1.Threw? && Committed(p1) == d.main.value
      && end2.Done? && Committed(p2) == second.change(EMPTY_STORE)
      && Recover(p2.disk, Works) == p2.disk
  {
    var (p1, end1) := Mutated(Process(d, true), first);
    assert p1 == Process(Disk(None, d.main), true);
  }

  // ---- the object ----

  class StoreFile {
    var main: Option<Store>
    var bak: Option<Store>
    var recovered: bool

    ghost function State(): Process
      reads this
    {
      Process(Disk(main, bak), recovered)
    }

    constructor ()
      ensures State() == INSTALLED
    {
      main, bak, recovered := None, None, false;
    }

    method AtomicWriteJson(value: Store, s: Script) returns (end: WriteEnd)
      modifies this`main, this`bak
      ensures (State().disk, end) == Write(old(State()).disk, value, s)
    {
      if !s.write.Works? {
        return if s.write.Fails? then Threw else Crashed;
      }
      var tmp := Some(value);
      if s.replace.Crashes? {
        return Crashed;
      }
      if s.replace.Works? {
        main := tmp;
        return if s.crashAtEnd then Crashed else Done;
      }
      if s.dropBackup.Crashes? {
        return Crashed;
      }
      if s.dropBackup.Works? {
        bak := None;
      }
      if s.setAside.Crashes? {
        return Crashed;
      }
      if s.setAside.Works? && main.Some? {
        bak, main := main, None;
      }
      if !s.install.Works? {
        return if s.install.Fails? then Threw else Crashed;
      }
      main := tmp;
      if s.tidy.Crashes? {
        return Crashed;
      }
      if s.tidy.Works? {
        bak := None;
      }
      return if s.crashAtEnd then Crashed else Done;
    }

    method RecoverTempFile(o: Outcome)
      modifies this`main, this`bak
      ensures State().disk == Recover(old(State()).disk, o)
    {
      if main.Some? {
        return;
      }
      if o.Works? && bak.Some? {
        main, bak := bak, None;
      }
    }

    method Mutate(a: Attempt) returns (end: WriteEnd)
      modifies this
      ensures (State(), end) == Mutated(old(State()), a)
    {
      if !recovered {
        if a.recovery.Crashes? {
          return Crashed;
        }
        RecoverTempFile(a.recovery);
        recovered := true;
      }
      end := AtomicWriteJson(a.change(main.GetOr(EMPTY_STORE)), a.script);
      recovered := !end.Crashed?;
    }
  }
}
