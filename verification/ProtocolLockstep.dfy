/** What keeps requests and responses in step as long as no caller leaves anything on the pipe. */
module ProtocolLockstep {
  import opened Common
  import opened Serve
  import opened Session
  import opened Protocol

  /** What a dying server may leave on the pipe. */
  predicate IsLastWord(response: Response) {
    response.NotJson? || response == ToResponse(Frame(None, UNHANDLED)) || response == ToResponse(Frame(None, LOAD_FAILED))
  }

  predicate OnlyLastWords(responses: seq<Response>, server: Server) {
    && (responses != [] ==> !server.alive)
    && forall i :: 0 <= i < |responses| ==> IsLastWord(responses[i])
  }

  /** Nothing is outstanding on either pipe. */
  predicate Quiet(s: System) {
    s.toServer == [] && !s.server.phase.Busy? && OnlyLastWords(s.toClient, s.server)
  }

  /** The request of the call in progress is in exactly one place: on its way, in the server's
      hands, or answered. */
  predicate OneOutstanding(s: System)
    requires s.holder.Waiting?
  {
    || (s.toServer == [Request(Some(s.holder.id), s.holder.operation)]
        && !s.server.phase.Busy? && OnlyLastWords(s.toClient, s.server))
    || (s.toServer == [] && s.server.phase.Busy? && s.server.phase.id == Some(s.holder.id)
        && OnlyLastWords(s.toClient, s.server))
    || (s.toServer == [] && !s.server.phase.Busy? && s.toClient != []
        && s.toClient[0].Json? && s.toClient[0].id == Some(s.holder.id)
        && OnlyLastWords(s.toClient[1..], s.server))
  }

  predicate InStep(s: System) {
    !s.partial && if s.holder.Waiting? then OneOutstanding(s) else Quiet(s)
  }

  predicate Mismatched(state: State) {
    state.Poisoned? && state.reason.IdMismatch?
  }

  /** An error reported to a call is the reply to its own request, or the last word of a dying
      process. */
  predicate OwnError(id: nat, result: InvokeResult, replies: map<nat, Body>) {
    result.Err? && result.error.Api? ==>
      var body := ErrorBody(result.error.code, result.error.fatal);
      body == UNHANDLED || body == LOAD_FAILED || (id in replies && replies[id] == body)
  }

  /** As long as no caller has left anything on the pipe, requests and responses are in step. */
  predicate Lockstep(s: System) {
    s.strays == 0 ==>
      && (s.client.state.Open? ==> InStep(s))
      && !Mismatched(s.client.state)
      && (forall id <- s.results :: OwnError(id, s.results[id], s.replies))
  }

  lemma ReadKeepsStep(s: System)
    requires Inv(s) && Lockstep(s)
    ensures Lockstep(DoRead(s))
  {
    hide LinesInOrder, HandInOrder, RepliesSafe, ResultsTrue, ClosedIsOver, FailedSyncIsLast;
    if s.strays == 0 && s.holder.Waiting? && s.toClient != [] {
      assert IsTrue(s.toClient[0], s.replies);
    }
  }

  lemma CallStepKeepsStep(s: System, step: Step)
    requires Inv(s) && Lockstep(s) && IsCallStep(step)
    ensures Lockstep(Do(s, step))
  {
    ReadKeepsStep(s);
    hide LinesInOrder, HandInOrder, RepliesSafe, ResponsesTrue, ResultsTrue, ClosedIsOver, FailedSyncIsLast;
    hide DoRead, IsLastWord;
  }

  lemma CloseStepKeepsStep(s: System, step: Step)
    requires Inv(s) && Lockstep(s) && IsCloseStep(step)
    ensures Lockstep(Do(s, step))
  {
    BeginKeepsStep(s, CloseBudget);
    ShutKeepsStep(s);
    hide Inv, Lockstep, DoBegin, Shut;
    var closes := Do(s, step).closes;
    MovedKeepsStep(s, closes);
    MovedKeepsStep(DoBegin(s, CloseBudget), closes);
    if s.holder.NoCall? {
      MovedKeepsStep(Shut(s), closes);
    }
  }

  lemma BeginKeepsStep(s: System, operation: Operation)
    requires Lockstep(s)
    ensures Lockstep(DoBegin(s, operation))
  {
    hide OnlyLastWords;
  }

  lemma ShutKeepsStep(s: System)
    requires Lockstep(s)
    ensures Lockstep(Shut(s))
  {
  }

  lemma MovedKeepsStep(s: System, closes: map<nat, ClosePhase>)
    requires Lockstep(s)
    ensures Lockstep(s.(closes := closes))
  {
  }

  lemma ReplyKeepsStep(s: System, world: World)
    requires Inv(s) && Lockstep(s)
    ensures Lockstep(DoReply(s, world))
  {
    hide IdsInOrder, LinesInOrder, RepliesSafe, ResponsesTrue, ResultsTrue, ClosedIsOver, FailedSyncIsLast;
    hide DispatchOperation, IsWrite, Agrees, SyncFails, Ends, IsLastWord;
  }

  lemma CrashKeepsStep(s: System, lastWords: LastWords)
    requires Lockstep(s)
    ensures Lockstep(DoCrash(s, lastWords))
  {
  }

  lemma TakeKeepsStep(s: System)
    requires Lockstep(s)
    ensures Lockstep(DoTake(s))
  {
    hide IsLastWord, ToResponse;
    if s.server.alive && s.server.phase.Idle? && s.toServer != [] {
      match s.toServer[0]
      case Blank =>
      case NotJson =>
      case Request(id, operation) =>
    }
  }

  lemma EffectKeepsStep(s: System, step: Step)
    requires Lockstep(s) && (step.Write? || step.Sync? || step.Straggle? || step.Exit?)
    ensures Lockstep(Do(s, step))
  {
    hide IsLastWord, IsWrite;
    match step
    case Write =>
    case Sync =>
    case Straggle(_, _) =>
    case Exit =>
  }

  lemma StepKeepsStep(s: System, step: Step)
    requires Inv(s) && Lockstep(s)
    ensures Lockstep(Do(s, step))
  {
    hide Inv, Lockstep, DoReply, DoCrash, DoTake;
    if IsCallStep(step) {
      CallStepKeepsStep(s, step);
    } else if IsCloseStep(step) {
      CloseStepKeepsStep(s, step);
    } else {
      match step
      case Take => TakeKeepsStep(s);
      case Reply(world) => ReplyKeepsStep(s, world);
      case Crash(lastWords) => CrashKeepsStep(s, lastWords);
      case _ => EffectKeepsStep(s, step);
    }
  }

  lemma {:induction false} AlwaysInStep(steps: seq<Step>)
    ensures Lockstep(After(steps))
  {
    hide Inv, Do;
    if steps != [] {
      InvAlways(steps[..|steps| - 1]);
      AlwaysInStep(steps[..|steps| - 1]);
      StepKeepsStep(After(steps[..|steps| - 1]), steps[|steps| - 1]);
    }
  }

  // ----- what a caller may rely on

  /** If no caller went away with something on the pipe, the stream never desynchronises, and
      every error reported to a call is about that call or about the whole process. */
  lemma ErrorsAreOwn(steps: seq<Step>, id: nat)
    requires After(steps).strays == 0
    ensures !Mismatched(After(steps).client.state)
    ensures id in After(steps).results ==> OwnError(id, After(steps).results[id], After(steps).replies)
  {
    AlwaysInStep(steps);
  }
}
