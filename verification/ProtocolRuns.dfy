/** What holds over whole runs of the bridge, whatever the interleaving. */
module ProtocolRuns {
  import opened Common
  import opened Serve
  import opened Session
  import opened Protocol

  /** What a later state keeps of an earlier one. */
  predicate Grows(s: System, t: System) {
    && (forall id <- s.issued :: id in t.issued && t.issued[id] == s.issued[id])
    && (forall id <- s.replies :: id in t.replies && t.replies[id] == s.replies[id])
    && (forall id <- s.results :: id in t.results && t.results[id] == s.results[id])
    && s.remote <= t.remote && s.failedSyncs <= t.failedSyncs
    && s.client.nextId <= t.client.nextId
    && (forall id <- t.issued :: id in s.issued || s.client.nextId <= id)
    && s.strays <= t.strays
  }

  /** A session that is not open stays so, for the same reason until it is closed; it gives out
      no id and neither writes to the pipe nor reads from it. */
  predicate StaysShut(s: System, t: System) {
    !s.client.state.Open? ==>
      && (t.client.state == s.client.state || t.client.state.Closed?)
      && (s.client.state.Closed? ==> t.client == s.client)
      && t.client.nextId == s.client.nextId && t.issued == s.issued
      && s.toClient <= t.toClient
      && |t.toServer| <= |s.toServer| && t.toServer == s.toServer[|s.toServer| - |t.toServer|..]
  }

  predicate Follows(s: System, t: System) {
    Grows(s, t) && StaysShut(s, t)
  }

  lemma BeginFollows(s: System, operation: Operation)
    requires Inv(s)
    ensures Follows(s, DoBegin(s, operation))
  {
    hide LinesInOrder, HandInOrder, RepliesSafe, ResponsesTrue, FailedSyncIsLast;
  }

  lemma EndCallFollows(s: System, trip: RoundTrip, toClient: seq<Response>)
    requires Inv(s) && !s.holder.NoCall?
    ensures Follows(s, EndCall(s, trip).(toClient := toClient))
  {
    hide LinesInOrder, HandInOrder, RepliesSafe, ResponsesTrue, FailedSyncIsLast;
  }

  lemma PartialCallFollows(s: System, trip: RoundTrip, leavesPartial: bool)
    requires Inv(s) && !s.holder.NoCall? && !trip.Received? && !trip.EndOfFile?
    ensures Follows(s, EndCall(LeavePartial(s, leavesPartial), trip))
  {
    hide LinesInOrder, HandInOrder, RepliesSafe, ResponsesTrue, FailedSyncIsLast;
  }

  lemma CancelFollows(s: System, leavesPartial: bool)
    requires Inv(s)
    ensures Follows(s, DoCancel(s, leavesPartial))
  {
    hide LinesInOrder, HandInOrder, RepliesSafe, ResponsesTrue, FailedSyncIsLast;
  }

  lemma FinishWriteFollows(s: System)
    requires Inv(s)
    ensures Follows(s, DoFinishWrite(s))
  {
    hide LinesInOrder, HandInOrder, RepliesSafe, ResponsesTrue, FailedSyncIsLast;
  }

  lemma CallStepFollows(s: System, step: Step)
    requires Inv(s) && IsCallStep(step)
    ensures Follows(s, Do(s, step))
  {
    Stutter(s);
    hide Inv, Follows, DoBegin, DoFinishWrite, DoCancel, EndCall, LeavePartial;
    match step
    case Begin(operation) => BeginFollows(s, operation);
    case FinishWrite => FinishWriteFollows(s);
    case Read => if s.holder.Waiting? && s.toClient != [] { EndCallFollows(s, Received(s.toClient[0]), s.toClient[1..]); }
    case ReadEnd => if s.holder.Waiting? { EndCallFollows(s, EndOfFile, EndCall(s, EndOfFile).toClient); }
    case PipeBreaks(leavesPartial) => if !s.holder.NoCall? { PartialCallFollows(s, PipeFails, leavesPartial); }
    case TimeOut(leavesPartial) => if !s.holder.NoCall? { PartialCallFollows(s, Elapsed, leavesPartial); }
    case Cancel(leavesPartial) => CancelFollows(s, leavesPartial);
  }

  lemma Stutter(s: System)
    requires Inv(s)
    ensures Follows(s, s)
  {
    hide LinesInOrder, HandInOrder, RepliesSafe, ResponsesTrue, FailedSyncIsLast;
  }

  lemma ShutFollows(s: System)
    requires Inv(s)
    ensures Follows(s, Shut(s))
  {
    hide LinesInOrder, HandInOrder, RepliesSafe, ResponsesTrue, FailedSyncIsLast;
  }

  lemma MovedFollows(s: System, t: System, closes: map<nat, ClosePhase>)
    requires Follows(s, t)
    ensures Follows(s, t.(closes := closes))
  {
  }

  lemma CloseStepFollows(s: System, step: Step)
    requires Inv(s) && IsCloseStep(step)
    ensures Follows(s, Do(s, step))
  {
    Stutter(s);
    BeginFollows(s, CloseBudget);
    ShutFollows(s);
    hide Inv, Follows, DoBegin, Shut;
    var closes := Do(s, step).closes;
    MovedFollows(s, s, closes);
    MovedFollows(s, DoBegin(s, CloseBudget), closes);
    MovedFollows(s, Shut(s), closes);
  }

  lemma ReplyFollows(s: System, world: World)
    requires Inv(s)
    ensures Follows(s, DoReply(s, world))
  {
    hide DispatchOperation, IsWrite, Agrees, SyncFails, Ends;
    hide LinesInOrder, RepliesSafe, ResponsesTrue, ClosedIsOver, FailedSyncIsLast;
    ClosedServerIsDead(s);
  }

  lemma ClosedServerIsDead(s: System)
    requires Inv(s)
    ensures s.client.state.Closed? ==> !s.server.alive
  {
  }

  /** A step of the server that answers nothing. */
  predicate Silent(s: System, t: System) {
    && t == s.(toServer := t.toServer, toClient := t.toClient, server := t.server, taken := t.taken,
                local := t.local, remote := t.remote, served := t.served, lastWord := t.lastWord)
    && s.remote <= t.remote && s.toClient <= t.toClient
    && (t.toServer == s.toServer || (s.toServer != [] && t.toServer == s.toServer[1..]))
  }

  lemma SilentFollows(s: System, t: System)
    requires Inv(s) && Silent(s, t)
    ensures Follows(s, t)
  {
    hide LinesInOrder, HandInOrder, RepliesSafe, ResponsesTrue, FailedSyncIsLast;
  }

  lemma ServerStepFollows(s: System, step: Step)
    requires Inv(s) && !IsCallStep(step) && !IsCloseStep(step)
    ensures Follows(s, Do(s, step))
  {
    hide Inv, Follows, ToResponse, IsWrite, DoReply;
    if step.Reply? {
      ReplyFollows(s, step.world);
    } else {
      ServerStepSilent(s, step);
      SilentFollows(s, Do(s, step));
    }
  }

  lemma TakeSilent(s: System)
    ensures Silent(s, DoTake(s))
  {
    hide ToResponse;
    if s.server.alive && s.server.phase.Idle? && s.toServer != [] {
      match s.toServer[0]
      case Blank =>
      case NotJson =>
      case Request(id, operation) =>
        assert DoTake(s).toClient == s.toClient;
    }
  }

  lemma WriteSilent(s: System)
    ensures Silent(s, DoWrite(s))
  {
    hide IsWrite;
  }

  lemma SyncSilent(s: System)
    ensures Silent(s, DoSync(s))
  {
  }

  lemma CrashSilent(s: System, lastWords: LastWords)
    ensures Silent(s, DoCrash(s, lastWords))
  {
    hide ToResponse;
  }

  lemma LeavingSilent(s: System, more: set<nat>, pushed: set<nat>)
    ensures Silent(s, DoStraggle(s, more, pushed)) && Silent(s, DoExit(s))
  {
  }

  lemma ServerStepSilent(s: System, step: Step)
    requires !IsCallStep(step) && !IsCloseStep(step) && !step.Reply?
    ensures Silent(s, Do(s, step))
  {
    TakeSilent(s);
    WriteSilent(s);
    SyncSilent(s);
    hide Silent, DoTake, DoWrite, DoSync, DoCrash, DoStraggle, DoExit;
    match step
    case Crash(lastWords) => CrashSilent(s, lastWords);
    case Straggle(more, pushed) => LeavingSilent(s, more, pushed);
    case _ => LeavingSilent(s, {}, {});
  }

  lemma StepFollows(s: System, step: Step)
    requires Inv(s)
    ensures Follows(s, Do(s, step))
  {
    hide Inv, Follows, Do;
    if IsCallStep(step) {
      CallStepFollows(s, step);
    } else if IsCloseStep(step) {
      CloseStepFollows(s, step);
    } else {
      ServerStepFollows(s, step);
    }
  }

  lemma FollowsTransitive(s: System, t: System, u: System)
    requires Follows(s, t) && Follows(t, u)
    ensures Follows(s, u)
  {
    if !s.client.state.Open? {
      var i, j := |s.toServer| - |t.toServer|, |t.toServer| - |u.toServer|;
      assert s.toServer[i..][j..] == s.toServer[i + j..];
    }
  }

  /** Every state of a run is followed by all later ones. */
  lemma {:induction false} RunFollows(steps: seq<Step>, n: nat)
    requires n <= |steps|
    ensures Follows(After(steps[..n]), After(steps))
  {
    hide Follows, Inv, Do;
    InvAlways(steps);
    if n == |steps| {
      assert steps[..n] == steps;
      Stutter(After(steps));
    } else {
      var front := steps[..|steps| - 1];
      assert front[..n] == steps[..n];
      RunFollows(front, n);
      InvAlways(front);
      StepFollows(After(front), steps[|steps| - 1]);
      FollowsTransitive(After(steps[..n]), After(front), After(steps));
    }
  }

  // ----- what a caller may rely on

  /** A call that returned a value was given the server's ok reply to its own request; and that
      result, reply and request never change afterwards. */
  lemma OwnAnswerOnly(steps: seq<Step>, n: nat, id: nat)
    requires n <= |steps|
    requires id in After(steps[..n]).results && After(steps[..n]).results[id].Ok?
    ensures var s, t := After(steps[..n]), After(steps);
            && id in s.issued && id in s.replies && s.replies[id] == OkBody(s.results[id].value)
            && id in t.issued && t.issued[id] == s.issued[id]
            && id in t.replies && t.replies[id] == s.replies[id]
            && id in t.results && t.results[id] == s.results[id]
  {
    InvAlways(steps[..n]);
    RunFollows(steps, n);
    hide IdsInOrder, LinesInOrder, HandInOrder, RepliesSafe, ResponsesTrue, ClosedIsOver, FailedSyncIsLast;
  }

  /** Whether the call that is waiting is about to read an ok response that is not its own. */
  predicate StaleAhead(s: System) {
    && s.holder.Waiting? && s.toClient != []
    && s.toClient[0].Json? && s.toClient[0].error.None? && s.toClient[0].id != Some(s.holder.id)
  }

  lemma StaleIsEarlier(s: System)
    requires Inv(s) && StaleAhead(s)
    ensures var id := s.toClient[0].id;
            id.Some? && id.value < s.holder.id && id.value in s.replies
            && s.toClient[0] == ToResponse(Frame(id, s.replies[id.value]))
  {
    assert IsTrue(s.toClient[0], s.replies);
    hide LinesInOrder, HandInOrder, ResultsTrue, ClosedIsOver, FailedSyncIsLast, IsWrite, ResponsesTrue;
  }

  lemma StaleRead(s: System)
    requires StaleAhead(s)
    ensures var t := DoRead(s);
            && t.client.state == Poisoned(IdMismatch(s.holder.id, s.toClient[0].id))
            && s.holder.id in t.results && t.results[s.holder.id] == Err(Error.Protocol)
  {
    StaleAnswerPoisons(s.client, s.holder.id, s.toClient[0].id, s.toClient[0].ok);
    hide Receive;
  }

  /** An ok response that is not the reply to the call reading it belongs to an earlier request
      and is never delivered: the call fails and the session is poisoned. */
  lemma StaleAnswersPoison(steps: seq<Step>)
    requires StaleAhead(After(steps))
    ensures var s := After(steps);
            var t, id := DoRead(s), s.toClient[0].id;
            && id.Some? && id.value < s.holder.id && id.value in s.replies
            && s.toClient[0] == ToResponse(Frame(id, s.replies[id.value]))
            && t.client.state == Poisoned(IdMismatch(s.holder.id, id))
            && s.holder.id in t.results && t.results[s.holder.id] == Err(Error.Protocol)
  {
    InvAlways(steps);
    StaleIsEarlier(After(steps));
    StaleRead(After(steps));
    hide Inv, DoRead;
  }

  /** In any run, a session stays open after reading exactly if what it read is the ok reply to the
      reading call's own request, or an error, anyone's, that is not fatal. */
  lemma StaysOpenReading(steps: seq<Step>)
    requires After(steps).holder.Waiting? && After(steps).toClient != []
    ensures var s := After(steps);
            var id, head := s.holder.id, s.toClient[0];
            DoRead(s).client.state.Open? <==>
            || (id in s.replies && s.replies[id].OkBody? && head == ToResponse(Frame(Some(id), s.replies[id])))
            || (head.Json? && head.error.Some? && head.error.value.ApiError? && !head.error.value.fatal)
  {
    InvAlways(steps);
    HeadIsTrue(After(steps));
    hide Inv, After;
    OpenAfterReading(After(steps));
  }

  lemma OpenAfterReading(s: System)
    requires s.holder.Waiting? && s.toClient != [] && s.client.state.Open?
    requires IsTrue(s.toClient[0], s.replies)
    requires s.toClient[0].Json? && s.toClient[0].error.Some? ==> s.toClient[0].error.value.ApiError?
    ensures var id, head := s.holder.id, s.toClient[0];
            DoRead(s).client.state.Open? <==>
            || (id in s.replies && s.replies[id].OkBody? && head == ToResponse(Frame(Some(id), s.replies[id])))
            || (head.Json? && head.error.Some? && head.error.value.ApiError? && !head.error.value.fatal)
  {
    var id, head := s.holder.id, s.toClient[0];
    StaysOpenExactly(s.client, id, head);
    assert DoRead(s).client == Receive(s.client, id, head).0;
    hide Receive, DoRead;
    if head.Json? && head.id.Some? {
      assert head == ToResponse(Frame(head.id, s.replies[head.id.value]));
    }
  }

  lemma HeadIsTrue(s: System)
    requires Inv(s) && s.holder.Waiting? && s.toClient != []
    ensures IsTrue(s.toClient[0], s.replies) && s.client.state.Open?
    ensures s.toClient[0].Json? && s.toClient[0].error.Some? ==> s.toClient[0].error.value.ApiError?
  {
    assert IsTrue(s.toClient[0], s.replies);
  }

  /** A write whose caller was told it succeeded is on the remote, then and ever after. */
  lemma AcknowledgedIsRemote(steps: seq<Step>, n: nat, id: nat)
    requires n <= |steps|
    requires var s := After(steps[..n]); id in s.results && s.results[id].Ok? && id in s.issued && IsWrite(s.issued[id])
    ensures id in After(steps[..n]).remote && id in After(steps).remote
  {
    InvAlways(steps[..n]);
    RunFollows(steps, n);
    hide IdsInOrder, LinesInOrder, HandInOrder, ResponsesTrue, ClosedIsOver, FailedSyncIsLast;
    hide IsWrite;
  }

  /** An id is given to one request only: the id of a call that begins was never given before. */
  lemma IdsAreFresh(steps: seq<Step>, n: nat, m: nat)
    requires m <= n < |steps|
    requires After(steps[..n]).holder.NoCall? && !After(steps[..n + 1]).holder.NoCall?
    ensures var id := After(steps[..n + 1]).holder.id;
            id in After(steps[..n + 1]).issued && id !in After(steps[..m]).issued
  {
    InvAlways(steps[..n]);
    var before, after := steps[..n], steps[..n + 1];
    assert after[..n] == before && before[..m] == steps[..m];
    InvAlways(after);
    RunFollows(before, m);
    NewHolderIsFresh(After(before), steps[n]);
  }

  lemma NewHolderIsFresh(s: System, step: Step)
    requires Inv(s) && s.holder.NoCall?
    ensures !Do(s, step).holder.NoCall? ==> Do(s, step).holder.id == s.client.nextId && s.client.nextId !in s.issued
  {
    hide LinesInOrder, HandInOrder, RepliesSafe, ResponsesTrue, ResultsTrue, ClosedIsOver, FailedSyncIsLast;
    hide AfterRoundTrip, DispatchOperation, DoTake, DoWrite, DoSync;
    if step.Take? || step.Write? || step.Sync? {
      TakeSilent(s);
      WriteSilent(s);
      SyncSilent(s);
    }
  }

  /** From a session that is not open nothing more is ever sent or read, no id is used, and its
      state changes at most once, to closed; from then on the process has ended. */
  lemma ShutForGood(steps: seq<Step>, n: nat)
    requires n <= |steps| && !After(steps[..n]).client.state.Open?
    ensures StaysShut(After(steps[..n]), After(steps))
    ensures After(steps).client.state.Closed? ==> After(steps).client.child.Reaped? && !After(steps).server.alive
  {
    RunFollows(steps, n);
    InvAlways(steps);
    hide LinesInOrder, HandInOrder, RepliesSafe, ResponsesTrue, ResultsTrue, IdsInOrder, FailedSyncIsLast;
  }

  /** Once any close has returned, the session is closed. */
  lemma ReturnedCloseClosed(steps: seq<Step>, k: nat)
    requires k in After(steps).closes && After(steps).closes[k] == Returned
    ensures After(steps).client.state.Closed?
  {
    InvAlways(steps);
    hide LinesInOrder, HandInOrder, RepliesSafe, ResponsesTrue, ResultsTrue, IdsInOrder, FailedSyncIsLast;
  }

  // ----- a failed sync

  /** The fatal frame of a failed sync waits in the pipe for as long as the session is open. */
  predicate FatalPending(s: System) {
    s.client.state.Open? ==> forall id <- s.failedSyncs :: ToResponse(Frame(Some(id), SYNC_FAILED)) in s.toClient
  }

  lemma ReplyKeepsFatal(s: System, world: World)
    requires Inv(s) && FatalPending(s)
    ensures FatalPending(DoReply(s, world))
  {
    hide Inv, Agrees, Ends;
    if s.server.phase.Busy? {
      var operation := s.server.phase.operation;
      assert SyncFails(operation, s.server.isOpen, world) ==>
          DispatchOperation(operation, s.server.isOpen, world).body == SYNC_FAILED;
    }
    hide DispatchOperation, SyncFails, ToResponse;
  }

  lemma StepKeepsFatal(s: System, step: Step)
    requires Inv(s) && FatalPending(s)
    ensures FatalPending(Do(s, step))
  {
    hide LinesInOrder, HandInOrder, RepliesSafe, ResponsesTrue, ResultsTrue, ClosedIsOver, IsWrite, FailedSyncIsLast;
    if step.Reply? {
      ReplyKeepsFatal(s, step.world);
      hide DoReply;
    } else if !IsCallStep(step) && !IsCloseStep(step) {
      ServerStepSilent(s, step);
      hide Do;
    }
  }

  lemma {:induction false} FatalAlwaysPending(steps: seq<Step>)
    ensures FatalPending(After(steps))
  {
    hide Inv, Do;
    if steps != [] {
      InvAlways(steps[..|steps| - 1]);
      FatalAlwaysPending(steps[..|steps| - 1]);
      StepKeepsFatal(After(steps[..|steps| - 1]), steps[|steps| - 1]);
    }
  }

  /** After a write whose sync failed, every value ever delivered answers an earlier request, the
      session is no longer open or the fatal frame still waits to be read, and reading it ends
      the session. */
  lemma FailedSyncEndsSession(steps: seq<Step>, id: nat, later: nat)
    requires id in After(steps).failedSyncs
    ensures var s := After(steps);
            && (later in s.results && s.results[later].Ok? ==> later < id)
            && (s.client.state.Open? ==> ToResponse(Frame(Some(id), SYNC_FAILED)) in s.toClient)
            && (s.toClient == [] ==> !s.client.state.Open?)
            && (s.holder.Waiting? && s.toClient != [] && s.toClient[0] == ToResponse(Frame(Some(id), SYNC_FAILED)) ==>
                  DoRead(s).client.state == Poisoned(FatalError("sync-failed")))
  {
    InvAlways(steps);
    FatalAlwaysPending(steps);
    hide IdsInOrder, LinesInOrder, HandInOrder, ResponsesTrue, ClosedIsOver, IsWrite;
  }
}
