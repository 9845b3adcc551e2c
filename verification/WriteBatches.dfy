/**
 * Runs of add_block and pop_block inside and outside write batches, where a call that throws leaves
 * its writes in the open batch until the batch is stopped or aborted.
 */
module WriteBatches {
  import opened Outcomes
  import opened Ledger
  import opened Reorganization
  import opened FailedCalls

  /**
   * The calls.  Without an open batch, Add stands for add_block under a write guard, which commits
   * whatever was written, and Pop for pop_block, which runs in a transaction of its own.  Whether
   * starting a transaction and committing one succeeds is told with the call.
   */
  datatype Call = Add(entry: Entry) | Pop(commits: bool) | BatchStart(starts: bool) | BatchStop(commits: bool) | BatchAbort

  /** The tables, and as long as a batch is open those it started from. */
  datatype Session = Session(tables: State, saved: Option<State>)

  /** pop_block returns; without a batch it commits its own transaction. */
  predicate PopReturns(h: Hashing, x: Session, commits: bool) {
    PopBlock(h, x.tables).Success? && (x.saved.Some? || commits)
  }

  function Next(h: Hashing, x: Session, call: Call): Session {
    match call
    case Add(e) => x.(tables := AfterAdd(h, x.tables, e))
    case Pop(commits) =>
      if PopReturns(h, x, commits) then x.(tables := PopBlock(h, x.tables).value.state)
      else if x.saved.Some? then x.(tables := PopBlockLeft(h, x.tables))
      else x
    case BatchStart(starts) => if x.saved.None? && starts then x.(saved := Some(x.tables)) else x
    case BatchStop(commits) =>
      if x.saved.None? then x else Session(if commits then x.tables else x.saved.value, None)
    case BatchAbort => if x.saved.None? then x else Session(x.saved.value, None)
  }

  function Run(h: Hashing, calls: seq<Call>): Session {
    if calls == [] then Session(EMPTY, None) else Next(h, Run(h, calls[..|calls| - 1]), calls[|calls| - 1])
  }

  /**
   * The blocks added by calls that returned, not popped since and not in a batch that was dropped;
   * whether no failed call has left a trace; and both as they were when the open batch started.
   */
  datatype Track = Track(survivors: seq<Entry>, clean: bool, start: Option<(seq<Entry>, bool)>)

  ghost function Follow(h: Hashing, x: Session, t: Track, call: Call): Track {
    match call
    case Add(e) =>
      if AddBlock(h, x.tables, e).Success? then t.(survivors := t.survivors + [e])
      else t.(clean := t.clean && Untouched(h, x.tables, e))
    case Pop(commits) =>
      if t.survivors == [] || !PopReturns(h, x, commits) then t else t.(survivors := t.survivors[..|t.survivors| - 1])
    case BatchStart(starts) => if t.start.None? && starts then t.(start := Some((t.survivors, t.clean))) else t
    case BatchStop(commits) => if commits || t.start.None? then t.(start := None) else Dropped(t)
    case BatchAbort => if t.start.None? then t else Dropped(t)
  }

  function Dropped(t: Track): Track
    requires t.start.Some?
  {
    Track(t.start.value.0, t.start.value.1, None)
  }

  ghost function Tracked(h: Hashing, calls: seq<Call>): Track {
    if calls == [] then Track([], true, None)
    else
      var before := calls[..|calls| - 1];
      Follow(h, Run(h, before), Tracked(h, before), calls[|calls| - 1])
  }

  ghost function Surviving(h: Hashing, calls: seq<Call>): seq<Entry> {
    Tracked(h, calls).survivors
  }

  /** No failed call has left a trace in the tables. */
  ghost predicate Clean(h: Hashing, calls: seq<Call>) {
    Tracked(h, calls).clean
  }

  // ----- A clean run is a replay -----

  ghost predicate Agree(h: Hashing, x: Session, t: Track) {
    && (x.saved.Some? <==> t.start.Some?)
    && (t.clean ==> Replay(h, t.survivors) == Success(x.tables))
    && (t.start.Some? && t.start.value.1 ==> Replay(h, t.start.value.0) == Success(x.saved.value))
  }

  lemma AddAgrees(h: Hashing, x: Session, t: Track, e: Entry)
    requires Agree(h, x, t)
    ensures Agree(h, Next(h, x, Add(e)), Follow(h, x, t, Add(e)))
  {
    hide AddBlock, AddBlockLeft, Untouched, Replay;
    if AddBlock(h, x.tables, e).Failure? {
      FailedAddUntouched(h, x.tables, e);
    } else if t.clean {
      ReplayOneMore(h, t.survivors, e);
    }
  }

  lemma PopAgrees(h: Hashing, x: Session, t: Track, commits: bool)
    requires Agree(h, x, t)
    ensures Agree(h, Next(h, x, Pop(commits)), Follow(h, x, t, Pop(commits)))
  {
    hide PopBlock, PopBlockLeft, Replay;
    if t.clean {
      PopReplayed(h, t.survivors);
      if t.survivors == [] {
        NothingToPop(h, x.tables);
      }
    }
  }

  lemma NothingToPop(h: Hashing, s: State)
    requires Replay(h, []) == Success(s)
    ensures PopBlockLeft(h, s) == s
  {
    assert RemoveBlock(EMPTY.chain).Failure?;
  }

  lemma {:induction false} RunAgrees(h: Hashing, calls: seq<Call>)
    ensures Agree(h, Run(h, calls), Tracked(h, calls))
  {
    hide AddBlock, AfterAdd, PopBlock, PopBlockLeft, Untouched;
    if calls == [] {
    } else {
      hide Replay;
      var before, call := calls[..|calls| - 1], calls[|calls| - 1];
      RunAgrees(h, before);
      match call
      case Add(e) => AddAgrees(h, Run(h, before), Tracked(h, before), e);
      case Pop(commits) => PopAgrees(h, Run(h, before), Tracked(h, before), commits);
      case BatchStart(_) =>
      case BatchStop(_) =>
      case BatchAbort =>
    }
  }

  /**
   * Any run leaves the state that adding the surviving blocks in order gives, as long as no failed
   * call has left a trace.
   */
  lemma RunIsReplay(h: Hashing, calls: seq<Call>)
    requires Clean(h, calls)
    ensures Replay(h, Surviving(h, calls)) == Success(Run(h, calls).tables)
  {
    hide Replay, Run, Tracked;
    RunAgrees(h, calls);
  }

  /** A failed add_block breaks this exactly when its failing check comes after a write. */
  lemma FailedAddBreaksReplay(h: Hashing, calls: seq<Call>, e: Entry)
    requires Clean(h, calls) && AddBlock(h, Run(h, calls).tables, e).Failure?
    ensures Surviving(h, calls + [Add(e)]) == Surviving(h, calls)
    ensures Replay(h, Surviving(h, calls)) == Success(Run(h, calls + [Add(e)]).tables) <==> Untouched(h, Run(h, calls).tables, e)
  {
    hide Replay, AddBlock, AddBlockLeft, Untouched;
    assert (calls + [Add(e)])[..|calls|] == calls;
    RunIsReplay(h, calls);
    FailedAddUntouched(h, Run(h, calls).tables, e);
  }

  /** pop_block fails on the empty chain and nowhere else. */
  lemma PopSucceeds(h: Hashing, calls: seq<Call>)
    requires Clean(h, calls)
    ensures PopBlock(h, Run(h, calls).tables).Success? <==> Surviving(h, calls) != []
  {
    hide AddBlock, PopBlock, Run, Tracked, Replay;
    RunIsReplay(h, calls);
    PopReplayed(h, Surviving(h, calls));
  }

  // ----- Batches -----

  ghost predicate EndsNoBatch(calls: seq<Call>) {
    forall i :: 0 <= i < |calls| ==> !calls[i].BatchStop? && !calls[i].BatchAbort?
  }

  lemma {:induction false} SavedStays(h: Hashing, before: seq<Call>, during: seq<Call>)
    requires Run(h, before).saved.None? && EndsNoBatch(during)
    ensures Run(h, before + [BatchStart(true)] + during).saved == Some(Run(h, before).tables)
  {
    hide AfterAdd, PopBlock, PopBlockLeft;
    var started := before + [BatchStart(true)];
    if during == [] {
      assert started + during == started && started[..|before|] == before;
    } else {
      var n := |during| - 1;
      SavedStays(h, before, during[..n]);
      assert (started + during)[..|started| + n] == started + during[..n];
      assert (started + during)[|started| + n] == during[n];
    }
  }

  /** Whatever is called in a batch, and whichever calls fail, aborting it restores the tables it started from. */
  lemma AbortRestores(h: Hashing, before: seq<Call>, during: seq<Call>)
    requires Run(h, before).saved.None? && EndsNoBatch(during)
    ensures Run(h, before + [BatchStart(true)] + during + [BatchAbort]) == Run(h, before)
  {
    SavedStays(h, before, during);
    var calls := before + [BatchStart(true)] + during;
    assert (calls + [BatchAbort])[..|calls|] == calls;
    hide AfterAdd, PopBlock, PopBlockLeft;
  }

  /** m_batch_success of the blockchain: set when a batch starts, cleared by an add_block that throws. */
  ghost predicate BatchSuccess(h: Hashing, calls: seq<Call>) {
    if calls == [] then true
    else
      var before, call := calls[..|calls| - 1], calls[|calls| - 1];
      if call.BatchStart? && call.starts && Run(h, before).saved.None? then true
      else BatchSuccess(h, before) && (call.Add? ==> AddBlock(h, Run(h, before).tables, call.entry).Success?)
  }

  /** The call keeps the rule: a batch is stopped only if it was a success, and without a batch no add_block throws after a write. */
  ghost predicate Careful(h: Hashing, before: seq<Call>, call: Call) {
    var x := Run(h, before);
    && (call.BatchStop? && x.saved.Some? ==> BatchSuccess(h, before))
    && (call.Add? && x.saved.None? && AddBlock(h, x.tables, call.entry).Failure? ==> Untouched(h, x.tables, call.entry))
  }

  ghost predicate AllCareful(h: Hashing, calls: seq<Call>) {
    forall n :: 0 <= n < |calls| ==> Careful(h, calls[..n], calls[n])
  }

  ghost predicate OnTrack(t: Track, success: bool) {
    if t.start.None? then t.clean else t.start.value.1 && (success ==> t.clean)
  }

  lemma CarefulStep(h: Hashing, before: seq<Call>, call: Call)
    requires Careful(h, before, call) && OnTrack(Tracked(h, before), BatchSuccess(h, before))
    ensures OnTrack(Tracked(h, before + [call]), BatchSuccess(h, before + [call]))
  {
    hide AddBlock, PopBlock, Untouched, Replay;
    assert (before + [call])[..|before|] == before;
    SameBatch(h, before);
    hide Run;
  }

  lemma SameBatch(h: Hashing, calls: seq<Call>)
    ensures Run(h, calls).saved.Some? <==> Tracked(h, calls).start.Some?
  {
    hide Run, Tracked, Replay;
    RunAgrees(h, calls);
  }

  lemma {:induction false} CarefulTracks(h: Hashing, calls: seq<Call>)
    requires AllCareful(h, calls)
    ensures OnTrack(Tracked(h, calls), BatchSuccess(h, calls))
  {
    hide Run, Tracked, BatchSuccess, OnTrack, Careful;
    if calls == [] {
      NothingTracked(h);
    } else {
      var m := |calls| - 1;
      var before := calls[..m];
      assert forall n :: 0 <= n < m ==> before[..n] == calls[..n] && before[n] == calls[n];
      CarefulTracks(h, before);
      CarefulStep(h, before, calls[m]);
      assert before + [calls[m]] == calls;
    }
  }

  lemma NothingTracked(h: Hashing)
    ensures OnTrack(Tracked(h, []), BatchSuccess(h, []))
  {
  }

  /** Under the rule the tables are those of the surviving blocks, between batches and in a batch without a failed add_block. */
  lemma CarefulIsReplay(h: Hashing, calls: seq<Call>)
    requires AllCareful(h, calls) && (Run(h, calls).saved.None? || BatchSuccess(h, calls))
    ensures Clean(h, calls) && Replay(h, Surviving(h, calls)) == Success(Run(h, calls).tables)
  {
    hide Run, Tracked, AllCareful, BatchSuccess, Replay;
    CarefulTracks(h, calls);
    RunAgrees(h, calls);
  }
}
