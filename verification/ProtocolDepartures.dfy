/** Exactly when the departure of a caller can make an error reach a call it is not about. */
module ProtocolDepartures {
  import opened Common
  import opened Serve
  import opened Session
  import opened Protocol
  import opened ProtocolRuns
  import opened ProtocolServer
  import opened ProtocolLockstep
  import opened ProtocolStrays

  predicate AllOwn(s: System) {
    forall id <- s.results :: OwnError(id, s.results[id], s.replies)
  }

  /** Whether a body says only that the whole process failed. */
  predicate IsProcessError(body: Body) {
    body == UNHANDLED || body == LOAD_FAILED
  }

  /** Whether the pipe begins with the reply to request `id`. */
  predicate Answered(s: System, id: nat) {
    s.toClient != [] && s.toClient[0].Json? && s.toClient[0].id == Some(id)
  }

  /** Whether the server still takes or answers requests. */
  predicate Serving(s: System) {
    s.server.alive && !s.server.phase.Leaving?
  }

  /** Whether the departure of the caller in progress is dangerous: it leaves something on the pipe,
      and that is its own reply, an error other than that of the whole process, or else something a
      serving bridge has yet to answer. All of it can be told before the caller goes. */
  predicate IsDangerous(s: System, leavesPartial: bool)
    requires !s.holder.NoCall?
  {
    && (s.holder.Waiting? || leavesPartial)
    && if s.holder.Waiting? && Answered(s, s.holder.id)
       then s.toClient[0].error.Some? && s.toClient[0].error.value.ApiError?
            && !IsProcessError(ErrorBody(s.toClient[0].error.value.code, s.toClient[0].error.value.fatal))
       else Serving(s)
  }

  // ----- no danger

  /** Whether the call that is waiting reads, if it reads now, an error of its own or none. */
  predicate ReadsOwn(s: System) {
    s.holder.Waiting? && s.toClient != [] ==>
      OwnError(s.holder.id, Receive(s.client, s.holder.id, s.toClient[0]).1, s.replies)
  }

  lemma EndCallKeepsOwn(s: System, trip: RoundTrip)
    requires AllOwn(s) && !s.holder.NoCall?
    requires OwnError(s.holder.id, AfterRoundTrip(s.client, s.holder.id, trip).1, s.replies)
    ensures AllOwn(EndCall(s, trip))
  {
    hide AfterRoundTrip;
  }

  lemma CallStepKeepsOwn(s: System, step: Step)
    requires AllOwn(s) && IsCallStep(step) && ReadsOwn(s)
    ensures AllOwn(Do(s, step))
  {
    match step
    case Begin(_) =>
    case FinishWrite =>
    case Cancel(_) =>
    case Read =>
      hide EndCall, AllOwn, OwnError, Receive;
      if s.holder.Waiting? && s.toClient != [] {
        EndCallKeepsOwn(s, Received(s.toClient[0]));
        OwnIgnoresPipe(EndCall(s, Received(s.toClient[0])), s.toClient[1..]);
      }
    case ReadEnd =>
      if !s.holder.NoCall? {
        EndCallKeepsOwn(s, EndOfFile);
      }
      hide EndCall, AllOwn, OwnError;
    case PipeBreaks(leavesPartial) =>
      if !s.holder.NoCall? {
        EndCallKeepsOwn(LeavePartial(s, leavesPartial), PipeFails);
      }
      hide EndCall, AllOwn, OwnError;
    case TimeOut(leavesPartial) =>
      if !s.holder.NoCall? {
        EndCallKeepsOwn(LeavePartial(s, leavesPartial), Elapsed);
      }
      hide EndCall, AllOwn, OwnError;
  }

  lemma OwnIgnoresPipe(s: System, toClient: seq<Response>)
    requires AllOwn(s)
    ensures AllOwn(s.(toClient := toClient))
  {
  }

  /** Only calls deliver results, and replies only grow. */
  lemma OtherStepKeepsOwn(s: System, step: Step)
    requires Inv(s) && AllOwn(s) && !IsCallStep(step)
    ensures AllOwn(Do(s, step))
  {
    hide Inv, Do;
    StepFollows(s, step);
    NoNewResults(s, step);
  }

  lemma NoNewResults(s: System, step: Step)
    requires !IsCallStep(step)
    ensures Do(s, step).results == s.results
  {
    if IsCloseStep(step) {
      CloseNoResults(s, step);
    } else if !step.Reply? {
      ServerStepSilent(s, step);
      hide Do;
    }
  }

  lemma CloseNoResults(s: System, step: Step)
    requires IsCloseStep(step)
    ensures Do(s, step).results == s.results
  {
    CheckNoResults(s, step.k);
    SendNoResults(s, step.k);
    hide DoCheckClose, DoSendClose, DoAnswerClose, DoFinishClose;
  }

  lemma CheckNoResults(s: System, k: nat)
    ensures DoCheckClose(s, k).results == s.results && DoAnswerClose(s, k).results == s.results
  {
  }

  lemma SendNoResults(s: System, k: nat)
    ensures DoSendClose(s, k).results == s.results && DoFinishClose(s, k).results == s.results
  {
  }

  // ----- no danger: the departed call's reply is ahead and harmless

  /** A response to request `id` that is ok or says only that the process failed. */
  predicate IsHarmless(response: Response, id: nat) {
    && response.Json? && response.id == Some(id)
    && (response.error.Some? ==>
          response.error.value.ApiError?
          && IsProcessError(ErrorBody(response.error.value.code, response.error.value.fatal)))
  }

  /** As long as the session is open, a harmless reply to an earlier request is the next to be read. */
  predicate HarmlessAhead(s: System, id: nat) {
    s.client.state.Open? ==>
      && s.toClient != [] && IsHarmless(s.toClient[0], id)
      && id < s.client.nextId && (!s.holder.NoCall? ==> id < s.holder.id)
  }

  lemma ReadsHarmless(s: System, id: nat)
    requires Inv(s) && HarmlessAhead(s, id)
    ensures ReadsOwn(s) && HarmlessAhead(DoRead(s), id)
  {
    hide LinesInOrder, HandInOrder, RepliesSafe, ResponsesTrue, ResultsTrue, ClosedIsOver, FailedSyncIsLast;
  }

  lemma CallStepKeepsAhead(s: System, step: Step, id: nat)
    requires Inv(s) && HarmlessAhead(s, id) && IsCallStep(step)
    ensures HarmlessAhead(Do(s, step), id)
  {
    ReadsHarmless(s, id);
    hide IsHarmless, DoRead;
    hide LinesInOrder, HandInOrder, RepliesSafe, ResponsesTrue, ResultsTrue, ClosedIsOver, FailedSyncIsLast;
  }

  lemma CloseStepKeepsAhead(s: System, step: Step, id: nat)
    requires HarmlessAhead(s, id) && IsCloseStep(step)
    ensures HarmlessAhead(Do(s, step), id)
  {
    hide IsHarmless;
    match step
    case CheckClose(k) => assert HarmlessAhead(DoCheckClose(s, k), id);
    case SendClose(k) => assert HarmlessAhead(DoSendClose(s, k), id);
    case AnswerClose(k) => assert HarmlessAhead(DoAnswerClose(s, k), id);
    case FinishClose(k) => assert HarmlessAhead(DoFinishClose(s, k), id);
  }

  lemma ServerStepKeepsAhead(s: System, step: Step, id: nat)
    requires HarmlessAhead(s, id) && !IsCallStep(step) && !IsCloseStep(step)
    ensures HarmlessAhead(Do(s, step), id)
  {
    hide IsHarmless, DispatchOperation, Agrees, ToResponse, Settle;
    if step.Reply? {
      ReplyKeepsAhead(s, step.world, id);
      hide DoReply;
    } else {
      ServerStepSilent(s, step);
      hide Do;
    }
  }

  lemma ReplyKeepsAhead(s: System, world: World, id: nat)
    requires HarmlessAhead(s, id)
    ensures HarmlessAhead(DoReply(s, world), id)
  {
    hide IsHarmless, DispatchOperation, Agrees, ToResponse, SyncFails, Ends;
  }

  // ----- no danger: the server answers nothing any more

  /** Only last words are left to read, and no reply will come. */
  predicate Ended(s: System) {
    !Serving(s) && forall i :: 0 <= i < |s.toClient| ==> IsLastWord(s.toClient[i])
  }

  lemma ReadsLastWord(s: System)
    requires Ended(s)
    ensures ReadsOwn(s) && Ended(DoRead(s))
  {
  }

  lemma ClientStepKeepsEnded(s: System, step: Step)
    requires Ended(s) && (IsCallStep(step) || IsCloseStep(step))
    ensures Ended(Do(s, step))
  {
    if step.Read? {
      ReadsLastWord(s);
      hide DoRead;
    } else if IsCallStep(step) {
      CallElsewhere(s, step);
      hide Do;
    } else {
      CloseElsewhere(s, step);
      hide Do;
    }
  }

  lemma ServerStepKeepsEnded(s: System, step: Step)
    requires Ended(s) && !IsCallStep(step) && !IsCloseStep(step)
    ensures Ended(Do(s, step))
  {
    match step
    case Crash(lastWords) => CrashKeepsEnded(s, lastWords);
    case Take => hide IsLastWord;
    case Write => hide IsLastWord;
    case Sync => hide IsLastWord;
    case Reply(_) => hide IsLastWord;
    case Straggle(_, _) => hide IsLastWord;
    case Exit => hide IsLastWord;
  }

  lemma CrashKeepsEnded(s: System, lastWords: LastWords)
    requires Ended(s)
    ensures Ended(DoCrash(s, lastWords))
  {
  }

  // ----- no danger, over all continuations

  /** A state from which no call is ever failed with an error that is not its own. */
  predicate IsSafe(s: System, id: nat) {
    AllOwn(s) && (HarmlessAhead(s, id) || Ended(s))
  }

  lemma StepKeepsSafe(s: System, step: Step, id: nat)
    requires Inv(s) && IsSafe(s, id)
    ensures IsSafe(Do(s, step), id)
  {
    hide Inv, HarmlessAhead, Ended, AllOwn, ReadsOwn, Do;
    if HarmlessAhead(s, id) {
      ReadsHarmless(s, id);
    } else {
      ReadsLastWord(s);
    }
    if IsCallStep(step) {
      CallStepKeepsOwn(s, step);
    } else {
      OtherStepKeepsOwn(s, step);
    }
    if HarmlessAhead(s, id) {
      if IsCallStep(step) {
        CallStepKeepsAhead(s, step, id);
      } else if IsCloseStep(step) {
        CloseStepKeepsAhead(s, step, id);
      } else {
        ServerStepKeepsAhead(s, step, id);
      }
    } else if IsCallStep(step) || IsCloseStep(step) {
      ClientStepKeepsEnded(s, step);
    } else {
      ServerStepKeepsEnded(s, step);
    }
  }

  lemma {:induction false} StaysSafe(steps: seq<Step>, more: seq<Step>, id: nat)
    requires IsSafe(After(steps), id)
    ensures IsSafe(After(steps + more), id)
  {
    hide IsSafe, Do;
    if more == [] {
      assert steps + more == steps;
    } else {
      var front, last := more[..|more| - 1], more[|more| - 1];
      StaysSafe(steps, front, id);
      assert steps + more == steps + front + [last];
      AfterMore(steps + front, last);
      InvAlways(steps + front);
      hide After;
      StepKeepsSafe(After(steps + front), last, id);
    }
  }

  /** After a departure that leaves something on the pipe but is not dangerous. */
  lemma DepartureIsSafe(s: System, leavesPartial: bool)
    requires Inv(s) && Lockstep(s) && s.strays == 0 && s.client.state.Open? && !s.holder.NoCall?
    requires (s.holder.Waiting? || leavesPartial) && !IsDangerous(s, leavesPartial)
    ensures IsSafe(DoCancel(s, leavesPartial), s.holder.id)
  {
    hide LinesInOrder, HandInOrder, RepliesSafe, ResultsTrue, ClosedIsOver, FailedSyncIsLast;
    assert s.toClient != [] ==> IsTrue(s.toClient[0], s.replies);
    hide OwnError, IsLastWord, ResponsesTrue;
    assert AllOwn(DoCancel(s, leavesPartial));
    if s.holder.Waiting? && Answered(s, s.holder.id) {
      assert HarmlessAhead(DoCancel(s, leavesPartial), s.holder.id);
    } else {
      assert Ended(DoCancel(s, leavesPartial));
    }
  }

  // ----- danger

  /** Whether, after the caller in progress departs and things go on without anything else left
      behind, call `id` has been failed with an error that is neither its own nor the process's. */
  predicate GoesWrong(steps: seq<Step>, leavesPartial: bool, more: seq<Step>, id: nat) {
    var t := After(steps + [Cancel(leavesPartial)] + more);
    t.strays == After(steps + [Cancel(leavesPartial)]).strays && id in t.results && !OwnError(id, t.results[id], t.replies)
  }

  /** A run with nothing astray, an open session and a call in progress. */
  predicate InProgress(s: System) {
    s.strays == 0 && s.client.state.Open? && !s.holder.NoCall?
  }

  lemma CancelledStrays(steps: seq<Step>, leavesPartial: bool)
    requires InProgress(After(steps))
    ensures var s, gone := After(steps), After(steps + [Cancel(leavesPartial)]);
            gone == DoCancel(s, leavesPartial)
            && gone.strays == if s.holder.Waiting? || leavesPartial then 1 else 0
  {
    AfterMore(steps, Cancel(leavesPartial));
    hide After;
  }

  lemma AnsweredGoesWrong(steps: seq<Step>, leavesPartial: bool) returns (more: seq<Step>, id: nat)
    requires InProgress(After(steps)) && IsDangerous(After(steps), leavesPartial)
    requires After(steps).holder.Waiting? && Answered(After(steps), After(steps).holder.id)
    ensures GoesWrong(steps, false, more, id)
  {
    var s := After(steps);
    InvAlways(steps);
    AlwaysInStep(steps);
    assert IsTrue(s.toClient[0], s.replies);
    assert !s.partial;
    hide Inv, Lockstep;
    var error := s.toClient[0].error.value;
    CancelledStrays(steps, false);
    AnsweredErrorIsMisdelivered(steps, CloseBudget, error.code, error.fatal);
    more, id := [Begin(CloseBudget), FinishWrite, Read], s.client.nextId;
    hide After;
  }

  /** In step, a waiting call of a serving bridge that has no answer on the pipe is unanswered. */
  lemma InStepUnanswered(s: System)
    requires Inv(s) && Lockstep(s) && InProgress(s) && s.holder.Waiting? && !Answered(s, s.holder.id) && Serving(s)
    ensures Unanswered(s)
  {
    hide LinesInOrder, RepliesSafe, ResponsesTrue, ResultsTrue, ClosedIsOver, FailedSyncIsLast, IsWrite;
  }

  lemma UnansweredGoesWrong(steps: seq<Step>) returns (more: seq<Step>, id: nat)
    requires var s := After(steps); InProgress(s) && s.holder.Waiting? && !Answered(s, s.holder.id) && Serving(s)
    ensures GoesWrong(steps, false, more, id)
  {
    var s := After(steps);
    InvAlways(steps);
    AlwaysInStep(steps);
    InStepUnanswered(s);
    hide Inv, Lockstep, Unanswered, Fails;
    WaysToFail(s, "");
    CancelledStrays(steps, false);
    AbandonedErrorIsMisdelivered(steps, CloseBudget, STALLS, "operation-timeout", true);
    more, id := NextCall(s, CloseBudget, STALLS), s.client.nextId;
    hide After, NextCall;
  }

  lemma UnfinishedGoesWrong(steps: seq<Step>) returns (more: seq<Step>, id: nat)
    requires var s := After(steps); InProgress(s) && s.holder.Writing? && Serving(s)
    ensures GoesWrong(steps, true, more, id)
  {
    var s := After(steps);
    AlwaysInStep(steps);
    assert InStep(s) && s.toClient == [];
    hide Lockstep, InStep;
    CancelledStrays(steps, true);
    UnfinishedLineIsMisdelivered(steps, CloseBudget);
    more, id := Garbles(CloseBudget), s.client.nextId;
    hide After, Garbles;
  }

  /** A departure can make an error reach a call it is not about, without anything else left
      behind, if and only if it is dangerous. */
  lemma GoesWrongExactly(steps: seq<Step>, leavesPartial: bool)
    requires InProgress(After(steps))
    ensures (exists more, id :: GoesWrong(steps, leavesPartial, more, id)) <==> IsDangerous(After(steps), leavesPartial)
  {
    var s := After(steps);
    if IsDangerous(s, leavesPartial) {
      DangerousGoesWrong(steps, leavesPartial);
    } else {
      forall more, id
        ensures !GoesWrong(steps, leavesPartial, more, id)
      {
        HarmlessGoesRight(steps, leavesPartial, more, id);
      }
    }
  }

  lemma DangerousGoesWrong(steps: seq<Step>, leavesPartial: bool)
    requires InProgress(After(steps)) && IsDangerous(After(steps), leavesPartial)
    ensures exists more, id :: GoesWrong(steps, leavesPartial, more, id)
  {
    hide GoesWrong;
    var s := After(steps);
    if s.holder.Writing? {
      var more, id := UnfinishedGoesWrong(steps);
    } else {
      WaitingIgnoresPartial(steps, leavesPartial);
      if Answered(s, s.holder.id) {
        var more, id := AnsweredGoesWrong(steps, leavesPartial);
        assert GoesWrong(steps, leavesPartial, more, id);
      } else {
        var more, id := UnansweredGoesWrong(steps);
        assert GoesWrong(steps, leavesPartial, more, id);
      }
    }
  }

  /** A caller that waits has written its line already. */
  lemma WaitingIgnoresPartial(steps: seq<Step>, leavesPartial: bool)
    requires After(steps).holder.Waiting?
    ensures forall more, id {:trigger GoesWrong(steps, leavesPartial, more, id)} ::
              GoesWrong(steps, false, more, id) ==> GoesWrong(steps, leavesPartial, more, id)
  {
    forall more: seq<Step>
      ensures After(steps + [Cancel(leavesPartial)] + more) == After(steps + [Cancel(false)] + more)
    {
      SameAfter(steps + [Cancel(leavesPartial)], steps + [Cancel(false)], more) by {
        AfterMore(steps, Cancel(leavesPartial));
        AfterMore(steps, Cancel(false));
      }
    }
    assert forall lp :: steps + [Cancel(lp)] + [] == steps + [Cancel(lp)];
  }

  lemma {:induction false} SameAfter(steps: seq<Step>, others: seq<Step>, more: seq<Step>)
    requires After(steps) == After(others)
    ensures After(steps + more) == After(others + more)
  {
    hide Do;
    if more == [] {
      assert steps + more == steps && others + more == others;
    } else {
      var front, last := more[..|more| - 1], more[|more| - 1];
      SameAfter(steps, others, front);
      assert steps + more == steps + front + [last] && others + more == others + front + [last];
      AfterMore(steps + front, last);
      AfterMore(others + front, last);
    }
  }

  lemma HarmlessGoesRight(steps: seq<Step>, leavesPartial: bool, more: seq<Step>, id: nat)
    requires InProgress(After(steps)) && !IsDangerous(After(steps), leavesPartial)
    ensures !GoesWrong(steps, leavesPartial, more, id)
  {
    var s := After(steps);
    CancelledStrays(steps, leavesPartial);
    if s.holder.Waiting? || leavesPartial {
      InvAlways(steps);
      AlwaysInStep(steps);
      hide Inv, Lockstep, After, HarmlessAhead, Ended;
      DepartureIsSafe(s, leavesPartial);
      StaysSafe(steps + [Cancel(leavesPartial)], more, s.holder.id);
    } else if After(steps + [Cancel(leavesPartial)] + more).strays == 0 {
      ErrorsAreOwn(steps + [Cancel(leavesPartial)] + more, id);
    }
  }
}
