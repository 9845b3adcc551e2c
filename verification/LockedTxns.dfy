/** The batch guard of locked_txn.h over the batch calls of the LMDB database. */
module LockedTxns {
  import opened Outcomes

  // ----- The batch of the database -----

  /** The open batch, if any; batches are numbered as they start. */
  datatype Batches = Batches(open: Option<nat>, next: nat)

  /** batch_start: false when a batch is open; starting one may throw. */
  function Start(d: Batches, starts: bool): Outcome<(Batches, bool)> {
    if d.open.Some? then Success((d, false))
    else if starts then Success((Batches(Some(d.next), d.next + 1), true))
    else Failure(DatabaseError)
  }

  /** batch_stop throws when no batch is open; a commit that fails still cleans the batch up. */
  function Stop(d: Batches, commits: bool): (Batches, bool) {
    (d.(open := None), d.open.Some? && commits)
  }

  /** batch_abort throws when no batch is open. */
  function Drop(d: Batches): (Batches, bool) {
    (d.(open := None), d.open.Some?)
  }

  class Database {
    var open: Option<nat>
    var next: nat

    function Value(): Batches
      reads this
    {
      Batches(open, next)
    }

    method BatchStart(starts: bool) returns (r: Outcome<bool>)
      modifies this
      ensures Start(old(Value()), starts) == if r.Success? then Success((Value(), r.value)) else Failure(r.error)
      ensures r.Failure? ==> Value() == old(Value())
    {
      if open.Some? {
        return Success(false);
      }
      if !starts {
        return Failure(DatabaseError);
      }
      open, next := Some(next), next + 1;
      return Success(true);
    }

    method BatchStop(commits: bool) returns (r: Outcome<()>)
      modifies this
      ensures (Value(), r.Success?) == Stop(old(Value()), commits)
    {
      if open.None? {
        return Failure(DatabaseError);
      }
      open := None;
      return if commits then Success(()) else Failure(DatabaseError);
    }

    method BatchAbort() returns (r: Outcome<()>)
      modifies this
      ensures (Value(), r.Success?) == Drop(old(Value()))
    {
      if open.None? {
        return Failure(DatabaseError);
      }
      open := None;
      return Success(());
    }
  }

  // ----- The guard -----

  /** The two fields of a guard. */
  datatype Fields = Fields(batch: bool, active: bool)

  predicate Armed(f: Fields) {
    f.batch && f.active
  }

  class LockedTxn {
    const db: Database
    var batch: bool
    var active: bool

    constructor (db: Database, batch: bool)
      ensures this.db == db && Value() == Fields(batch, true)
    {
      this.db, this.batch, active := db, batch, true;
    }

    function Value(): Fields
      reads this
    {
      Fields(batch, active)
    }

    /** The constructor of the source: no guard comes to be when the start throws. */
    static method Create(db: Database, starts: bool) returns (r: Outcome<LockedTxn>)
      modifies db
      ensures r.Success? ==> fresh(r.value) && r.value.db == db && r.value.active
      ensures Start(old(db.Value()), starts) == if r.Success? then Success((db.Value(), r.value.batch)) else Failure(r.error)
      ensures r.Failure? ==> db.Value() == old(db.Value())
    {
      var batch :- db.BatchStart(starts);
      var guard := new LockedTxn(db, batch);
      return Success(guard);
    }

    method Commit(commits: bool)
      modifies this, db
      ensures db.Value() == if old(Armed(Value())) then Stop(old(db.Value()), commits).0 else old(db.Value())
      ensures batch == old(batch) && (active <==> old(active) && !(old(batch) && old(Stop(db.Value(), commits).1)))
    {
      if batch && active {
        var r := db.BatchStop(commits);
        if r.Success? {
          active := false;
        }
      }
    }

    /** abort, and all that the destructor does. */
    method Abort()
      modifies this, db
      ensures db.Value() == if old(Armed(Value())) then Drop(old(db.Value())).0 else old(db.Value())
      ensures batch == old(batch) && (active <==> old(active) && !(old(batch) && old(Drop(db.Value()).1)))
    {
      if batch && active {
        var r := db.BatchAbort();
        if r.Success? {
          active := false;
        }
      }
    }
  }

  // ----- Runs of several guards -----

  /** A guard, the number of the batch it opened if it did, and whether it still exists. */
  datatype Guard = Guard(fields: Fields, ownBatch: nat, alive: bool)

  datatype Call = StopCall | AbortCall

  /** A call a guard made to the database: the batch open at the time and whether it returned normally. */
  datatype Attempt = Attempt(guard: nat, call: Call, open: Option<nat>, ok: bool)

  datatype System = System(db: Batches, guards: seq<Guard>, log: seq<Attempt>)

  datatype Step = Enter(starts: bool) | Commit(guard: nat, commits: bool) | Abort(guard: nat) | Exit(guard: nat)

  function Entered(s: System, starts: bool): System {
    match Start(s.db, starts)
    case Success((db, batch)) => s.(db := db, guards := s.guards + [Guard(Fields(batch, true), s.db.next, true)])
    case Failure(_) => s
  }

  /** commit or abort of guard i, or its destruction. */
  function Called(s: System, i: nat, call: Call, commits: bool, alive: bool): System
    requires i < |s.guards|
  {
    var g := s.guards[i];
    if !Armed(g.fields) then s.(guards := s.guards[i := g.(alive := alive)])
    else
      var (db, ok) := if call.StopCall? then Stop(s.db, commits) else Drop(s.db);
      System(db,
             s.guards[i := Guard(g.fields.(active := !ok), g.ownBatch, alive)],
             s.log + [Attempt(i, call, s.db.open, ok)])
  }

  /** A step on a guard that does not exist has no meaning and is left out of a run. */
  predicate Enabled(s: System, step: Step) {
    step.Enter? || (step.guard < |s.guards| && s.guards[step.guard].alive)
  }

  function Next(s: System, step: Step): System {
    if !Enabled(s, step) then s
    else
      match step
      case Enter(starts) => Entered(s, starts)
      case Commit(i, commits) => Called(s, i, StopCall, commits, true)
      case Abort(i) => Called(s, i, AbortCall, true, true)
      case Exit(i) => Called(s, i, AbortCall, true, false)
  }

  /** Batch 0 stands for one opened outside any guard before the run. */
  function Initial(outside: bool): System {
    System(Batches(if outside then Some(0) else None, 1), [], [])
  }

  function Run(outside: bool, steps: seq<Step>): System {
    if steps == [] then Initial(outside) else Next(Run(outside, steps[..|steps| - 1]), steps[|steps| - 1])
  }

  // ----- What every run keeps -----

  /** Guard i tried to commit the batch it opened, and the commit failed. */
  ghost predicate CommitFailed(s: System, i: nat)
    requires i < |s.guards|
  {
    Attempt(i, StopCall, Some(s.guards[i].ownBatch), false) in s.log
  }

  /** Every call that ended a batch was made by the guard that had opened it. */
  ghost predicate OwnOnly(s: System) {
    forall k :: 0 <= k < |s.log| && s.log[k].open.Some? ==>
                  s.log[k].guard < |s.guards| && s.log[k].open.value == s.guards[s.log[k].guard].ownBatch
  }

  /** Entry k is an abort attempt of guard i and no call of that guard follows. */
  ghost predicate LastAbort(log: seq<Attempt>, i: nat, k: nat) {
    && k < |log| && log[k].guard == i && log[k].call.AbortCall?
    && forall l :: k < l < |log| ==> log[l].guard != i
  }

  ghost predicate Succeeded(log: seq<Attempt>, i: nat, k: nat) {
    k < |log| && log[k].guard == i && log[k].ok
  }

  ghost predicate GuardHolds(s: System, i: nat)
    requires i < |s.guards|
  {
    var g := s.guards[i];
    && (g.fields.batch ==> 1 <= g.ownBatch < s.db.next && s.db.open != Some(0))
    && (g.fields.batch && s.db.open == Some(g.ownBatch) ==> g.alive && g.fields.active)
    && (g.fields.batch && !g.fields.active ==> exists k: nat :: Succeeded(s.log, i, k))
    && (Armed(g.fields) && !g.alive ==> exists k: nat :: LastAbort(s.log, i, k))
    && (g.fields.batch && CommitFailed(s, i) ==> s.db.open != Some(g.ownBatch))
  }

  /** As long as every batch was ended by its own guard, an armed guard lost its batch only by a failed commit. */
  ghost predicate LossExplained(s: System, i: nat)
    requires i < |s.guards|
  {
    OwnOnly(s) && Armed(s.guards[i].fields) && s.db.open != Some(s.guards[i].ownBatch) && s.guards[i].alive ==> CommitFailed(s, i)
  }

  ghost predicate EntryHolds(s: System, k: nat)
    requires k < |s.log|
  {
    var a := s.log[k];
    && a.guard < |s.guards| && s.guards[a.guard].fields.batch
    && (a.ok ==> a.open.Some? && !s.guards[a.guard].fields.active)
    && (a.open.Some? ==> a.open.value < s.db.next && (s.db.open.Some? ==> a.open.value < s.db.open.value))
  }

  /** The calls that end a batch end ever later ones, and none follows a call of the same guard that succeeded. */
  ghost predicate Ordered(log: seq<Attempt>) {
    && (forall k, l :: 0 <= k < l < |log| && log[k].open.Some? && log[l].open.Some? ==> log[k].open.value < log[l].open.value)
    && (forall k, l :: 0 <= k < l < |log| && log[k].ok ==> log[k].guard != log[l].guard)
  }

  ghost predicate Owner(s: System, i: nat) {
    i < |s.guards| && s.guards[i].fields.batch && s.db.open == Some(s.guards[i].ownBatch)
  }

  ghost predicate Holds(s: System) {
    && s.db.next >= 1 && (s.db.open.Some? ==> s.db.open.value == s.db.next - 1)
    && (s.db.open.Some? && s.db.open.value > 0 ==> exists i :: Owner(s, i))
    && (forall i, j :: 0 <= i < j < |s.guards| && s.guards[i].fields.batch && s.guards[j].fields.batch ==>
          s.guards[i].ownBatch < s.guards[j].ownBatch)
    && (forall i :: 0 <= i < |s.guards| ==> GuardHolds(s, i) && LossExplained(s, i))
    && (forall k :: 0 <= k < |s.log| ==> EntryHolds(s, k))
    && Ordered(s.log)
  }

  // A guard is created.

  lemma EnterOld(s: System, starts: bool, i: nat)
    requires Holds(s) && i < |s.guards|
    ensures GuardHolds(Entered(s, starts), i) && LossExplained(Entered(s, starts), i)
  {
    var t := Entered(s, starts);
    assert GuardHolds(s, i) && LossExplained(s, i);
    if OwnOnly(t) {
      forall k | 0 <= k < |s.log| && s.log[k].open.Some?
        ensures s.log[k].guard < |s.guards| && s.log[k].open.value == s.guards[s.log[k].guard].ownBatch
      {
        assert EntryHolds(s, k) && t.log[k] == s.log[k];
      }
      assert OwnOnly(s);
    }
  }

  lemma EnterNew(s: System, starts: bool)
    requires Holds(s) && |Entered(s, starts).guards| == |s.guards| + 1
    ensures GuardHolds(Entered(s, starts), |s.guards|) && LossExplained(Entered(s, starts), |s.guards|)
  {
    var t, n := Entered(s, starts), |s.guards|;
    forall k | 0 <= k < |s.log| ensures s.log[k].guard != n {
      assert EntryHolds(s, k);
    }
  }

  lemma EnterHolds(s: System, starts: bool)
    requires Holds(s)
    ensures Holds(Entered(s, starts))
  {
    hide GuardHolds, LossExplained, Ordered;
    var t, n := Entered(s, starts), |s.guards|;
    if t != s {
      forall i | 0 <= i < |t.guards| ensures GuardHolds(t, i) && LossExplained(t, i) {
        if i < n {
          EnterOld(s, starts, i);
        } else {
          EnterNew(s, starts);
        }
      }
      forall k | 0 <= k < |t.log| ensures EntryHolds(t, k) {
        assert EntryHolds(s, k);
      }
      forall i | 0 <= i < n ensures s.guards[i].fields.batch ==> s.guards[i].ownBatch < s.db.next {
        OwnBatchBelow(s, i);
      }
      if s.db.open.None? {
        assert Owner(t, n);
      } else if s.db.open.value > 0 {
        var i :| Owner(s, i);
        assert Owner(t, i);
      }
    }
  }

  lemma OwnBatchBelow(s: System, i: nat)
    requires i < |s.guards| && GuardHolds(s, i)
    ensures s.guards[i].fields.batch ==> 1 <= s.guards[i].ownBatch < s.db.next && s.db.open != Some(0)
    ensures Owner(s, i) ==> s.guards[i].alive && s.guards[i].fields.active
  {
  }

  // A guard calls the database.

  lemma CalledGuard(s: System, i: nat, call: Call, commits: bool, alive: bool, j: nat)
    requires Holds(s) && i < |s.guards| && j < |s.guards| && s.guards[i].alive && (!alive ==> call.AbortCall?)
    ensures GuardHolds(Called(s, i, call, commits, alive), j)
  {
    var t := Called(s, i, call, commits, alive);
    assert GuardHolds(s, j) && GuardHolds(s, i);
    if t.log != s.log {
      var a := t.log[|s.log|];
      forall k: nat ensures Succeeded(s.log, j, k) ==> Succeeded(t.log, j, k) {
      }
      forall k: nat ensures LastAbort(s.log, j, k) && j != i ==> LastAbort(t.log, j, k) {
      }
      assert a.ok && j == i ==> Succeeded(t.log, j, |s.log|);
      assert !a.ok && !alive && j == i ==> LastAbort(t.log, j, |s.log|);
    }
  }

  lemma CalledLoss(s: System, i: nat, call: Call, commits: bool, alive: bool, j: nat)
    requires Holds(s) && i < |s.guards| && j < |s.guards| && s.guards[i].alive && (!alive ==> call.AbortCall?)
    ensures LossExplained(Called(s, i, call, commits, alive), j)
  {
    var t := Called(s, i, call, commits, alive);
    assert LossExplained(s, j) && GuardHolds(s, j) && GuardHolds(s, i);
    if OwnOnly(t) {
      forall k | 0 <= k < |s.log| && s.log[k].open.Some?
        ensures s.log[k].guard < |s.guards| && s.log[k].open.value == s.guards[s.log[k].guard].ownBatch
      {
        assert t.log[k] == s.log[k];
      }
      assert OwnOnly(s);
      if t.log != s.log {
        assert t.log[|s.log|] == Attempt(i, call, s.db.open, t.log[|s.log|].ok);
        SameBatchSameGuard(s, i, j);
      }
    }
  }

  lemma SameBatchSameGuard(s: System, i: nat, j: nat)
    requires Holds(s) && i < |s.guards| && j < |s.guards|
    ensures s.guards[i].fields.batch && s.guards[j].fields.batch && s.guards[i].ownBatch == s.guards[j].ownBatch ==> i == j
  {
  }

  lemma CalledLog(s: System, i: nat, call: Call, commits: bool, alive: bool)
    requires Holds(s) && i < |s.guards|
    ensures var t := Called(s, i, call, commits, alive);
            Ordered(t.log) && forall k :: 0 <= k < |t.log| ==> EntryHolds(t, k)
  {
    var t := Called(s, i, call, commits, alive);
    forall k | 0 <= k < |t.log| ensures EntryHolds(t, k) {
      assert k < |s.log| ==> EntryHolds(s, k);
    }
    forall k | 0 <= k < |s.log| ensures s.log[k].ok && Armed(s.guards[i].fields) ==> s.log[k].guard != i {
      assert EntryHolds(s, k);
    }
    forall k | 0 <= k < |s.log| ensures s.log[k].open.Some? && s.db.open.Some? ==> s.log[k].open.value < s.db.open.value {
      assert EntryHolds(s, k);
    }
  }

  lemma CalledHolds(s: System, i: nat, call: Call, commits: bool, alive: bool)
    requires Holds(s) && i < |s.guards| && s.guards[i].alive && (!alive ==> call.AbortCall?)
    ensures Holds(Called(s, i, call, commits, alive))
  {
    hide GuardHolds, LossExplained, Ordered, EntryHolds;
    var t := Called(s, i, call, commits, alive);
    forall j | 0 <= j < |t.guards| ensures GuardHolds(t, j) && LossExplained(t, j) {
      CalledGuard(s, i, call, commits, alive, j);
      CalledLoss(s, i, call, commits, alive, j);
    }
    CalledLog(s, i, call, commits, alive);
    if t.db.open.Some? && t.db.open.value > 0 {
      var j :| Owner(s, j);
      assert Owner(t, j);
    }
  }

  lemma {:induction false} RunHolds(outside: bool, steps: seq<Step>)
    ensures Holds(Run(outside, steps))
  {
    hide Called, Entered;
    if steps == [] {
      InitialHolds(outside);
    } else {
      hide Holds;
      var s, step := Run(outside, steps[..|steps| - 1]), steps[|steps| - 1];
      RunHolds(outside, steps[..|steps| - 1]);
      if Enabled(s, step) {
        match step
        case Enter(starts) => EnterHolds(s, starts);
        case Commit(i, commits) => CalledHolds(s, i, StopCall, commits, true);
        case Abort(i) => CalledHolds(s, i, AbortCall, true, true);
        case Exit(i) => CalledHolds(s, i, AbortCall, true, false);
      }
    }
  }

  lemma InitialHolds(outside: bool)
    ensures Holds(Initial(outside))
  {
  }

  // ----- Only the opener closes a batch, and when not -----

  /** The step calls on a guard whose own commit failed before, while some batch is open. */
  ghost predicate Stale(s: System, step: Step) {
    && !step.Enter? && Enabled(s, step)
    && Armed(s.guards[step.guard].fields) && CommitFailed(s, step.guard) && s.db.open.Some?
  }

  /** A step ends a batch of another guard exactly when it is stale. */
  lemma StepEndsOwn(outside: bool, steps: seq<Step>, step: Step)
    requires OwnOnly(Run(outside, steps))
    ensures OwnOnly(Next(Run(outside, steps), step)) <==> !Stale(Run(outside, steps), step)
  {
    var s := Run(outside, steps);
    var t := Next(s, step);
    RunHolds(outside, steps);
    hide Run, EntryHolds, Ordered;
    if step.Enter? || !Enabled(s, step) {
      forall k | 0 <= k < |t.log| && t.log[k].open.Some?
        ensures t.log[k].guard < |t.guards| && t.log[k].open.value == t.guards[t.log[k].guard].ownBatch
      {
        assert t.log[k] == s.log[k];
      }
    } else {
      var i := step.guard;
      assert GuardHolds(s, i) && LossExplained(s, i);
      if Armed(s.guards[i].fields) {
        var n := |s.log|;
        assert t.log[n].guard == i && t.log[n].open == s.db.open;
        assert forall k :: 0 <= k < n ==> t.log[k] == s.log[k];
        assert forall j :: 0 <= j < |s.guards| ==> t.guards[j].ownBatch == s.guards[j].ownBatch;
      }
    }
  }

  ghost predicate NeverStale(outside: bool, steps: seq<Step>) {
    forall n :: 0 <= n < |steps| ==> !Stale(Run(outside, steps[..n]), steps[n])
  }

  lemma NeverStaleStep(outside: bool, steps: seq<Step>)
    requires steps != []
    ensures var m := |steps| - 1;
            NeverStale(outside, steps) <==> NeverStale(outside, steps[..m]) && !Stale(Run(outside, steps[..m]), steps[m])
  {
    hide Run, Stale;
    var before := steps[..|steps| - 1];
    assert forall n :: 0 <= n < |before| ==> before[..n] == steps[..n] && before[n] == steps[n];
  }

  /** In a whole run only openers end batches if and only if no step of it is stale. */
  lemma {:induction false} RunEndsOwn(outside: bool, steps: seq<Step>)
    ensures OwnOnly(Run(outside, steps)) <==> NeverStale(outside, steps)
  {
    hide OwnOnly, Stale, Next, NeverStale;
    if steps == [] {
      NothingEnded(outside);
    } else {
      var before, step := steps[..|steps| - 1], steps[|steps| - 1];
      RunEndsOwn(outside, before);
      NeverStaleStep(outside, steps);
      if OwnOnly(Run(outside, before)) {
        StepEndsOwn(outside, before, step);
      } else {
        OnceNotOwn(outside, before, step);
      }
    }
  }

  lemma NothingEnded(outside: bool)
    ensures OwnOnly(Initial(outside)) && NeverStale(outside, [])
  {
  }

  lemma OnceNotOwn(outside: bool, steps: seq<Step>, step: Step)
    requires !OwnOnly(Run(outside, steps))
    ensures !OwnOnly(Next(Run(outside, steps), step))
  {
    var s := Run(outside, steps);
    var t := Next(s, step);
    RunHolds(outside, steps);
    hide Run, Ordered, GuardHolds, LossExplained;
    var k :| 0 <= k < |s.log| && s.log[k].open.Some?
             && !(s.log[k].guard < |s.guards| && s.log[k].open.value == s.guards[s.log[k].guard].ownBatch);
    assert EntryHolds(s, k);
    assert t.log[k] == s.log[k] && t.guards[s.log[k].guard].ownBatch == s.guards[s.log[k].guard].ownBatch;
  }

  /** The step is on the innermost guard: all guards created later are gone. */
  ghost predicate Innermost(s: System, step: Step) {
    step.Enter? || forall j :: step.guard < j < |s.guards| ==> !s.guards[j].alive
  }

  /** The guards are local variables of nested scopes: they are destroyed last in, first out. */
  ghost predicate Nested(outside: bool, steps: seq<Step>) {
    forall n :: 0 <= n < |steps| && steps[n].Exit? ==> Innermost(Run(outside, steps[..n]), steps[n])
  }

  /** No explicit commit or abort is stale. */
  ghost predicate NoStaleCall(outside: bool, steps: seq<Step>) {
    forall n :: 0 <= n < |steps| && (steps[n].Commit? || steps[n].Abort?) ==> !Stale(Run(outside, steps[..n]), steps[n])
  }

  lemma InnermostIsNotStale(s: System, step: Step)
    requires Holds(s) && Innermost(s, step)
    ensures !Stale(s, step)
  {
    hide GuardHolds, EntryHolds, Ordered, LossExplained;
    if Stale(s, step) {
      StaleHasInner(s, step.guard);
    }
  }

  /** A guard whose commit failed while a batch is open again: the batch belongs to a later guard, still alive. */
  lemma StaleHasInner(s: System, i: nat)
    requires Holds(s) && i < |s.guards| && Armed(s.guards[i].fields) && CommitFailed(s, i) && s.db.open.Some?
    ensures exists j :: i < j < |s.guards| && s.guards[j].alive
  {
    hide EntryHolds, Ordered, LossExplained;
    assert GuardHolds(s, i);
    var j :| Owner(s, j);
    assert GuardHolds(s, j);
  }

  /** With nested guards the destructor never ends the batch of another guard. */
  lemma NestedExitIsNotStale(outside: bool, steps: seq<Step>, n: nat)
    requires Nested(outside, steps) && n < |steps| && steps[n].Exit?
    ensures !Stale(Run(outside, steps[..n]), steps[n])
  {
    hide Run, Holds, Innermost, Stale;
    RunHolds(outside, steps[..n]);
    InnermostIsNotStale(Run(outside, steps[..n]), steps[n]);
  }

  /**
   * With nested guards only the guard that opened a batch ever ends it, if and only if no commit or
   * abort is called on a guard whose commit failed while a batch is open.
   */
  lemma NestedEndsOwn(outside: bool, steps: seq<Step>)
    requires Nested(outside, steps)
    ensures OwnOnly(Run(outside, steps)) <==> NoStaleCall(outside, steps)
  {
    hide Run, Stale, OwnOnly, Nested;
    RunEndsOwn(outside, steps);
    forall n | 0 <= n < |steps| && steps[n].Exit? ensures !Stale(Run(outside, steps[..n]), steps[n]) {
      NestedExitIsNotStale(outside, steps, n);
    }
    forall n | 0 <= n < |steps| && steps[n].Enter? ensures !Stale(Run(outside, steps[..n]), steps[n]) {
      EnterIsNotStale(Run(outside, steps[..n]), steps[n]);
    }
  }

  lemma EnterIsNotStale(s: System, step: Step)
    requires step.Enter?
    ensures !Stale(s, step)
  {
  }

  /** Calling the innermost guard only is enough for that. */
  lemma InnermostCallsEndOwn(outside: bool, steps: seq<Step>)
    requires forall n :: 0 <= n < |steps| ==> Innermost(Run(outside, steps[..n]), steps[n])
    ensures OwnOnly(Run(outside, steps))
  {
    hide Run, Holds, Innermost, Stale, OwnOnly;
    forall n | 0 <= n < |steps| ensures !Stale(Run(outside, steps[..n]), steps[n]) {
      RunHolds(outside, steps[..n]);
      InnermostIsNotStale(Run(outside, steps[..n]), steps[n]);
    }
    RunEndsOwn(outside, steps);
  }

  /** In any run at most one call ends a given batch, and at most one call of a given guard succeeds. */
  lemma AtMostOneClose(outside: bool, steps: seq<Step>, k: nat, l: nat)
    requires k < l < |Run(outside, steps).log|
    ensures var a, b := Run(outside, steps).log[k], Run(outside, steps).log[l];
            (a.open.Some? ==> a.open != b.open) && !(a.ok && b.ok && a.guard == b.guard)
  {
    RunHolds(outside, steps);
  }

  /** In any run no batch outlives the guard that opened it. */
  lemma NoBatchLeaks(outside: bool, steps: seq<Step>)
    ensures var s := Run(outside, steps);
            (forall i :: 0 <= i < |s.guards| ==> !s.guards[i].alive) ==> s.db.open.None? || s.db.open == Some(0)
  {
    RunHolds(outside, steps);
    hide Run, EntryHolds, Ordered, LossExplained;
    var s := Run(outside, steps);
    if s.db.open.Some? && s.db.open.value > 0 {
      var i :| Owner(s, i);
      assert GuardHolds(s, i);
    }
  }

  /** In any run, nested or not, a guard whose commit threw calls again before it is gone: it aborts, or a later commit succeeds. */
  lemma FailedCommitIsFollowed(outside: bool, steps: seq<Step>, i: nat, k: nat)
    requires k < |Run(outside, steps).log| && i < |Run(outside, steps).guards| && !Run(outside, steps).guards[i].alive
    requires var a := Run(outside, steps).log[k]; a.guard == i && a.call.StopCall? && !a.ok
    ensures var log := Run(outside, steps).log;
            exists l :: k < l < |log| && log[l].guard == i && (log[l].call.AbortCall? || log[l].ok)
  {
    RunHolds(outside, steps);
    hide Run, LossExplained;
    var s := Run(outside, steps);
    assert GuardHolds(s, i) && EntryHolds(s, k);
    if s.guards[i].fields.active {
      var l: nat :| LastAbort(s.log, i, l);
      assert k < l;
    } else {
      var l: nat :| Succeeded(s.log, i, l);
      assert k < l;
    }
  }

  // ----- When a failed commit is followed by an abort attempt -----

  /** After entry k, guard i attempts an abort. */
  ghost predicate Aborts(log: seq<Attempt>, i: nat, k: nat) {
    exists l :: k < l < |log| && log[l].guard == i && log[l].call.AbortCall?
  }

  /** After entry k, guard i commits with success before it attempts an abort. */
  ghost predicate Recommits(log: seq<Attempt>, i: nat, k: nat) {
    exists m :: k < m < |log| && RecommitsAt(log, i, k, m)
  }

  ghost predicate RecommitsAt(log: seq<Attempt>, i: nat, k: nat, m: nat)
    requires m < |log|
  {
    && log[m].guard == i && log[m].call.StopCall? && log[m].ok
    && forall l :: k < l < m && log[l].guard == i ==> log[l].call.StopCall?
  }

  /** In any run, a guard whose commit threw attempts an abort before it is gone, if and only if no later commit of it succeeds first. */
  lemma AbortFollows(outside: bool, steps: seq<Step>, i: nat, k: nat)
    requires k < |Run(outside, steps).log| && i < |Run(outside, steps).guards| && !Run(outside, steps).guards[i].alive
    requires var a := Run(outside, steps).log[k]; a.guard == i && a.call.StopCall? && !a.ok
    ensures Aborts(Run(outside, steps).log, i, k) <==> !Recommits(Run(outside, steps).log, i, k)
  {
    FailedCommitIsFollowed(outside, steps, i, k);
    RunHolds(outside, steps);
    hide Run, GuardHolds, LossExplained, EntryHolds;
    var log := Run(outside, steps).log;
    if !Aborts(log, i, k) {
      var l :| k < l < |log| && log[l].guard == i && (log[l].call.AbortCall? || log[l].ok);
      assert RecommitsAt(log, i, k, l);
    }
  }

  /** Guards and entries once there stay. */
  lemma StepExtends(s: System, step: Step)
    ensures s.log <= Next(s, step).log && |Next(s, step).log| <= |s.log| + 1
    ensures |s.guards| <= |Next(s, step).guards|
    ensures forall i :: 0 <= i < |s.guards| ==> Next(s, step).guards[i].ownBatch == s.guards[i].ownBatch
  {
  }

  lemma {:induction false} RunExtends(outside: bool, steps: seq<Step>, n: nat)
    requires n <= |steps|
    ensures Run(outside, steps[..n]).log <= Run(outside, steps).log
    ensures |Run(outside, steps[..n]).guards| <= |Run(outside, steps).guards|
    ensures forall i :: 0 <= i < |Run(outside, steps[..n]).guards| ==>
                          Run(outside, steps).guards[i].ownBatch == Run(outside, steps[..n]).guards[i].ownBatch
  {
    hide Next;
    if n == |steps| {
      assert steps[..n] == steps;
    } else {
      var m := |steps| - 1;
      RunExtends(outside, steps[..m], n);
      assert steps[..m][..n] == steps[..n];
      StepExtends(Run(outside, steps[..m]), steps[m]);
    }
  }

  /** The step that made entry m of the log. */
  lemma {:induction false} EntryStep(outside: bool, steps: seq<Step>, m: nat) returns (n: nat)
    requires m < |Run(outside, steps).log|
    ensures n < |steps| && Run(outside, steps[..n]).log == Run(outside, steps).log[..m]
    ensures Next(Run(outside, steps[..n]), steps[n]).log == Run(outside, steps).log[..m + 1]
  {
    hide Next;
    var last := |steps| - 1;
    var before := steps[..last];
    var log := Run(outside, steps).log;
    StepExtends(Run(outside, before), steps[last]);
    if m < |Run(outside, before).log| {
      n := EntryStep(outside, before, m);
      assert before[..n] == steps[..n];
    } else {
      n := last;
      assert log[..m + 1] == log;
    }
  }

  /** Step n commits guard i with success after its own commit failed at entry k, a batch being open again, and without an abort attempt in between. */
  ghost predicate StaleCommit(outside: bool, steps: seq<Step>, i: nat, k: nat, n: nat)
    requires n < |steps|
  {
    var s := Run(outside, steps[..n]);
    steps[n] == Commit(i, true) && Stale(s, steps[n]) && k < |s.log| && !Aborts(s.log, i, k)
  }

  lemma StaleCommitRecommits(outside: bool, steps: seq<Step>, i: nat, k: nat, n: nat)
    requires n < |steps| && StaleCommit(outside, steps, i, k, n)
    ensures Recommits(Run(outside, steps).log, i, k)
  {
    var s, log := Run(outside, steps[..n]), Run(outside, steps).log;
    RunExtends(outside, steps, n);
    RunExtends(outside, steps, n + 1);
    assert steps[..n + 1][..n] == steps[..n];
    var t := Run(outside, steps[..n + 1]);
    assert t == Next(s, steps[n]);
    var m := |s.log|;
    assert t.log[m] == Attempt(i, StopCall, s.db.open, true);
    hide Run, Next;
    assert forall l :: 0 <= l < m ==> log[l] == s.log[l];
    assert RecommitsAt(log, i, k, m);
  }

  lemma RecommitIsStale(outside: bool, steps: seq<Step>, i: nat, k: nat, m: nat) returns (n: nat)
    requires k < m < |Run(outside, steps).log| && i < |Run(outside, steps).guards| && RecommitsAt(Run(outside, steps).log, i, k, m)
    requires Run(outside, steps).log[k] == Attempt(i, StopCall, Some(Run(outside, steps).guards[i].ownBatch), false)
    ensures n < |steps| && StaleCommit(outside, steps, i, k, n)
  {
    var log := Run(outside, steps).log;
    n := EntryStep(outside, steps, m);
    var s := Run(outside, steps[..n]);
    RunHolds(outside, steps[..n]);
    RunExtends(outside, steps, n);
    hide Run, GuardHolds, LossExplained, Ordered;
    assert EntryHolds(s, k) && s.log[k] == log[k];
    assert Next(s, steps[n]).log[m] == log[m];
    assert forall l :: 0 <= l < m ==> s.log[l] == log[l];
    assert steps[n] == Commit(i, true);
    assert CommitFailed(s, i);
  }

  /**
   * Over steps: a guard whose own commit failed attempts an abort before it is gone, if and only if
   * no commit of it is called that is stale and succeeds.
   */
  lemma AbortFollowsSteps(outside: bool, steps: seq<Step>, i: nat, k: nat)
    requires k < |Run(outside, steps).log| && i < |Run(outside, steps).guards| && !Run(outside, steps).guards[i].alive
    requires Run(outside, steps).log[k] == Attempt(i, StopCall, Some(Run(outside, steps).guards[i].ownBatch), false)
    ensures Aborts(Run(outside, steps).log, i, k) <==> !exists n :: 0 <= n < |steps| && StaleCommit(outside, steps, i, k, n)
  {
    hide Run, Aborts, StaleCommit;
    AbortFollows(outside, steps, i, k);
    var log := Run(outside, steps).log;
    if n :| 0 <= n < |steps| && StaleCommit(outside, steps, i, k, n) {
      StaleCommitRecommits(outside, steps, i, k, n);
    }
    if Recommits(log, i, k) {
      var m :| k < m < |log| && RecommitsAt(log, i, k, m);
      var n := RecommitIsStale(outside, steps, i, k, m);
    }
  }

  /** If no call of the guard is stale, the abort attempt finds no batch and ends nothing. */
  lemma FailedCommitIsAborted(outside: bool, steps: seq<Step>, i: nat, k: nat)
    requires k < |Run(outside, steps).log| && i < |Run(outside, steps).guards| && !Run(outside, steps).guards[i].alive
    requires Run(outside, steps).log[k] == Attempt(i, StopCall, Some(Run(outside, steps).guards[i].ownBatch), false)
    requires forall n :: 0 <= n < |steps| && !steps[n].Enter? && steps[n].guard == i ==> !Stale(Run(outside, steps[..n]), steps[n])
    ensures exists l :: k < l < |Run(outside, steps).log| && Run(outside, steps).log[l] == Attempt(i, AbortCall, None, false)
  {
    hide Run, Next, GuardHolds, LossExplained, Ordered, Enabled;
    var log := Run(outside, steps).log;
    AbortFollowsSteps(outside, steps, i, k);
    var l :| k < l < |log| && log[l].guard == i && log[l].call.AbortCall?;
    var n := EntryStep(outside, steps, l);
    var s := Run(outside, steps[..n]);
    RunHolds(outside, steps[..n]);
    RunExtends(outside, steps, n);
    assert EntryHolds(s, k) && s.log[k] == log[k];
    assert log[..l + 1] == s.log + [log[l]];
    AbortEntry(s, steps[n], log[l]);
  }

  lemma AbortEntry(s: System, step: Step, a: Attempt)
    requires Next(s, step).log == s.log + [a] && a.call.AbortCall?
    ensures !step.Enter? && step.guard == a.guard && Enabled(s, step) && Armed(s.guards[a.guard].fields)
    ensures a.open == s.db.open && a.ok == s.db.open.Some?
  {
    assert Next(s, step).log[|s.log|] == a;
  }

  /** With nested guards only the explicit calls matter for that. */
  lemma NestedCommitIsAborted(outside: bool, steps: seq<Step>, i: nat, k: nat)
    requires k < |Run(outside, steps).log| && i < |Run(outside, steps).guards| && !Run(outside, steps).guards[i].alive
    requires Run(outside, steps).log[k] == Attempt(i, StopCall, Some(Run(outside, steps).guards[i].ownBatch), false)
    requires Nested(outside, steps)
    requires forall n :: 0 <= n < |steps| && (steps[n].Commit? || steps[n].Abort?) && steps[n].guard == i ==>
                           !Stale(Run(outside, steps[..n]), steps[n])
    ensures exists l :: k < l < |Run(outside, steps).log| && Run(outside, steps).log[l] == Attempt(i, AbortCall, None, false)
  {
    hide Run, Stale, Nested;
    forall n | 0 <= n < |steps| && steps[n].Exit? ensures !Stale(Run(outside, steps[..n]), steps[n]) {
      NestedExitIsNotStale(outside, steps, n);
    }
    FailedCommitIsAborted(outside, steps, i, k);
  }

  /** It does happen with nested guards: the outer guard's commit fails, it commits the batch of the inner one, and never aborts. */
  lemma StaleCommitSkipsAbort()
    ensures var steps := [Enter(true), Commit(0, false), Enter(true), Commit(0, true), Exit(1), Exit(0)];
            var s := Run(false, steps);
            && Nested(false, steps) && |s.guards| == 2 && !s.guards[0].alive && |s.log| > 0
            && s.log[0] == Attempt(0, StopCall, Some(s.guards[0].ownBatch), false) && !Aborts(s.log, 0, 0)
  {
    var s4 := StaleCommitRun();
    var steps := [Enter(true), Commit(0, false), Enter(true), Commit(0, true), Exit(1), Exit(0)];
    var four, five := steps[..4], steps[..5];
    assert four == [Enter(true), Commit(0, false), Enter(true), Commit(0, true)];
    assert five[..4] == four && steps[..6] == steps;
    var s5 := Run(false, five);
    assert s5 == Next(s4, Exit(1));
    var s6 := Run(false, steps);
    assert s6 == Next(s5, Exit(0));
    assert Innermost(s4, Exit(1)) && Innermost(s5, Exit(0));
    assert |s6.log| == 3 && s6.log[1] == s4.log[1] && s6.log[2].guard == 1;
  }

  lemma StaleCommitRun() returns (s: System)
    ensures s == Run(false, [Enter(true), Commit(0, false), Enter(true), Commit(0, true)])
    ensures s.db.open == None && |s.log| == 2 && s.log[0] == Attempt(0, StopCall, Some(1), false) && s.log[1] == Attempt(0, StopCall, Some(2), true)
    ensures |s.guards| == 2 && s.guards[0] == Guard(Fields(true, false), 1, true) && s.guards[1] == Guard(Fields(true, true), 2, true)
  {
    var three := TwoGuards();
    var steps := [Enter(true), Commit(0, false), Enter(true), Commit(0, true)];
    assert steps[..3] == [Enter(true), Commit(0, false), Enter(true)];
    s := Run(false, steps);
    assert s == Next(three, Commit(0, true));
  }

  /**
   * Nesting alone is not enough: the commit of the outer guard fails, an inner guard opens a batch,
   * the outer one is told to abort, and both leave their scopes.
   */
  lemma StaleGuardEndsAnother()
    ensures var steps := [Enter(true), Commit(0, false), Enter(true), Abort(0), Exit(1), Exit(0)];
            Nested(false, steps) && !OwnOnly(Run(false, steps))
  {
    var s4 := StaleRun();
    var steps := [Enter(true), Commit(0, false), Enter(true), Abort(0), Exit(1), Exit(0)];
    var four, five := steps[..4], steps[..5];
    assert four == [Enter(true), Commit(0, false), Enter(true), Abort(0)];
    assert five[..4] == four && steps[..6] == steps;
    var s5 := Run(false, five);
    assert s5 == Next(s4, Exit(1));
    var s6 := Run(false, steps);
    assert s6 == Next(s5, Exit(0));
    assert Innermost(s4, Exit(1)) && Innermost(s5, Exit(0));
    assert s6.log[1] == s4.log[1] && s6.guards[0].ownBatch == 1;
  }

  /** Guard 0 has failed to commit, and guard 1 has opened a batch. */
  lemma TwoGuards() returns (s: System)
    ensures s == Run(false, [Enter(true), Commit(0, false), Enter(true)])
    ensures s.db == Batches(Some(2), 3) && s.log == [Attempt(0, StopCall, Some(1), false)]
    ensures s.guards == [Guard(Fields(true, true), 1, true), Guard(Fields(true, true), 2, true)]
  {
    var none: seq<Step> := [];
    var one := [Enter(true)];
    var two := one + [Commit(0, false)];
    var three := two + [Enter(true)];
    assert one[..0] == none && two[..1] == one && three[..2] == two;
    var a := Run(false, one);
    assert Run(false, none) == Initial(false) && a == Next(Initial(false), Enter(true));
    var b := Run(false, two);
    assert b == Next(a, Commit(0, false));
    s := Run(false, three);
    assert s == Next(b, Enter(true));
    assert three == [Enter(true), Commit(0, false), Enter(true)];
  }

  lemma StaleRun() returns (s: System)
    ensures s == Run(false, [Enter(true), Commit(0, false), Enter(true), Abort(0)])
    ensures |s.log| == 2 && s.log[1] == Attempt(0, AbortCall, Some(2), true) && s.db.open == None
    ensures |s.guards| == 2 && s.guards[0] == Guard(Fields(true, false), 1, true) && s.guards[1] == Guard(Fields(true, true), 2, true)
  {
    var three := TwoGuards();
    var steps := [Enter(true), Commit(0, false), Enter(true), Abort(0)];
    assert steps[..3] == [Enter(true), Commit(0, false), Enter(true)];
    s := Run(false, steps);
    assert s == Next(three, Abort(0));
  }
}
