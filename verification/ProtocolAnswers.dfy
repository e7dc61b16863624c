/** What the callers are told is what the budget library did with their own requests. */
module ProtocolAnswers {
  import opened Common
  import opened Serve
  import opened Session
  import opened Protocol
  import opened ProtocolRuns
  import opened ProtocolServer
  import opened ProtocolLockstep

  /** Whether exchange `j` of the server is the request of call `id`, and its reply what that
      request must be told. */
  predicate IsServedAs(s: System, id: nat, j: nat)
    requires id in s.replies
  {
    && j < |s.served| && id in s.issued
    && s.served[j].line == Request(Some(id), s.issued[id])
    && IsToldRight(s.served[j], HasOpened(s.served[..j]), s.replies[id])
  }

  ghost predicate RepliesTold(s: System) {
    forall id <- s.replies :: exists j: nat :: IsServedAs(s, id, j)
  }

  /** A longer log and more requests issued change nothing for the replies there are. */
  lemma LongerLogKeepsTold(s: System, t: System)
    requires RepliesTold(s) && t.replies == s.replies && s.served <= t.served
    requires forall id <- s.issued :: id in t.issued && t.issued[id] == s.issued[id]
    ensures RepliesTold(t)
  {
    hide IsToldRight, HasOpened;
    forall id <- t.replies
      ensures exists j: nat :: IsServedAs(t, id, j)
    {
      var j: nat :| IsServedAs(s, id, j);
      assert t.served[j] == s.served[j] && t.served[..j] == s.served[..j];
      assert IsServedAs(t, id, j);
    }
  }

  lemma ReplyTold(s: System, world: World)
    requires Inv(s) && RunsLoop(s)
    requires s.server.alive && s.server.phase.Busy?
    ensures var x := Exchange(Request(s.server.phase.id, s.server.phase.operation), world);
            IsToldRight(x, HasOpened(s.served), DispatchOperation(s.server.phase.operation, s.server.isOpen, world).body)
  {
    hide Inv, Turns, IsToldRight, DispatchOperation, IsSuffix, Written;
    OpenedMeansOpen(s.served);
    DispatchTellsRight(Exchange(Request(s.server.phase.id, s.server.phase.operation), world), s.server.isOpen);
  }

  lemma ReplyRecords(s: System, world: World)
    requires Inv(s)
    requires s.server.alive && s.server.phase.Busy? && Agrees(s.server.phase, s.server.isOpen, world)
    ensures var t, operation := DoReply(s, world), s.server.phase.operation;
            && s.taken in s.issued && s.issued[s.taken] == operation && s.server.phase.id == Some(s.taken)
            && s.taken !in s.replies && t.issued == s.issued
            && t.replies == s.replies[s.taken := DispatchOperation(operation, s.server.isOpen, world).body]
            && t.served == s.served + [Exchange(Request(Some(s.taken), operation), world)]
  {
    hide DispatchOperation, Agrees, SyncFails, Ends, ToResponse, IsWrite;
    hide IdsInOrder, LinesInOrder, RepliesSafe, ResponsesTrue, ResultsTrue, ClosedIsOver, FailedSyncIsLast;
  }

  lemma ReplyKeepsTold(s: System, world: World)
    requires Inv(s) && RunsLoop(s) && RepliesTold(s)
    ensures RepliesTold(DoReply(s, world))
  {
    hide Inv, RunsLoop, IsToldRight, HasOpened, DispatchOperation, Agrees, Settle;
    if s.server.alive && s.server.phase.Busy? && Agrees(s.server.phase, s.server.isOpen, world) {
      ReplyTold(s, world);
      ReplyRecords(s, world);
      var t, n := DoReply(s, world), |s.served|;
      hide DoReply;
      forall id <- t.replies
        ensures exists j: nat :: IsServedAs(t, id, j)
      {
        if id == s.taken {
          assert t.served[..n] == s.served;
          assert IsServedAs(t, id, n);
        } else {
          var j: nat :| IsServedAs(s, id, j);
          assert t.served[j] == s.served[j] && t.served[..j] == s.served[..j];
          assert IsServedAs(t, id, j);
        }
      }
    }
  }

  lemma StepLogs(s: System, step: Step)
    requires !step.Reply?
    ensures Do(s, step).replies == s.replies && s.served <= Do(s, step).served
  {
    if step.Read? {
      ReadLogs(s);
      hide DoRead;
    } else if step.Take? {
      TakeLogs(s);
      hide DoTake;
    } else if step.Crash? {
      CrashLogs(s, step.lastWords);
      hide DoCrash;
    } else if IsCallStep(step) {
      CallElsewhere(s, step);
      hide Do;
    } else if IsCloseStep(step) {
      CloseElsewhere(s, step);
      hide Do;
    } else {
      EffectElsewhere(s, step);
      hide Do;
    }
  }

  lemma ReadLogs(s: System)
    ensures DoRead(s).replies == s.replies && DoRead(s).served == s.served
  {
    hide AfterRoundTrip;
  }

  lemma TakeLogs(s: System)
    ensures DoTake(s).replies == s.replies && s.served <= DoTake(s).served
  {
    hide ToResponse;
    if s.server.alive && s.server.phase.Idle? && s.toServer != [] {
      match s.toServer[0]
      case Blank =>
      case NotJson =>
      case Request(_, _) => assert DoTake(s).served == s.served;
    }
  }

  lemma CrashLogs(s: System, lastWords: LastWords)
    ensures DoCrash(s, lastWords).replies == s.replies && DoCrash(s, lastWords).served == s.served
  {
    hide ToResponse;
  }

  lemma StepKeepsTold(s: System, step: Step)
    requires Inv(s) && RunsLoop(s) && RepliesTold(s)
    ensures RepliesTold(Do(s, step))
  {
    hide Inv, RunsLoop, RepliesTold;
    if step.Reply? {
      ReplyKeepsTold(s, step.world);
    } else {
      hide Do;
      StepLogs(s, step);
      StepFollows(s, step);
      LongerLogKeepsTold(s, Do(s, step));
    }
  }

  /** In every run, every reply is what its own request must be told, given what the budget library
      did with it. */
  lemma {:induction false} RepliesAlwaysTold(steps: seq<Step>)
    ensures RepliesTold(After(steps))
  {
    hide Inv, RunsLoop, Do;
    if steps != [] {
      var front := steps[..|steps| - 1];
      InvAlways(front);
      ServerRunsLoop(front);
      RepliesAlwaysTold(front);
      StepKeepsTold(After(front), steps[|steps| - 1]);
    }
  }

  // ----- what a caller is told

  /** Whether exchange `j` is the request of call `id` and came to an ok end with a value. */
  predicate IsReturnedBy(s: System, id: nat, j: nat, value: Value) {
    && j < |s.served| && id in s.issued && s.served[j].line == Request(Some(id), s.issued[id])
    && var operation, world := s.issued[id], s.served[j].world;
    && !world.stalls && !operation.NotAString?
    && (operation.CloseBudget? ==> value == "{}" && world.syncs && world.shutsDown)
    && (!operation.CloseBudget? ==> world.attempt == Returns(value))
    && (operation == Named("add-transaction") ==> world.syncs)
    && (operation == Named("import-transaction") ==> world.syncs)
    && (operation == Named("ensure-payee") ==> world.syncs)
  }

  lemma OkToldIsReturned(s: System, id: nat, j: nat)
    requires id in s.replies && IsServedAs(s, id, j) && s.replies[id].OkBody?
    ensures IsReturnedBy(s, id, j, s.replies[id].value)
  {
    OperationsByName(s.issued[id]);
    hide HasOpened;
  }

  /** In every run, the value delivered to a call is what the budget library returned when the server
      served that call's own request, after the sync if it was one of the three writes. */
  lemma DeliveredIsReturned(steps: seq<Step>, id: nat)
    requires id in After(steps).results && After(steps).results[id].Ok?
    ensures exists j: nat :: IsReturnedBy(After(steps), id, j, After(steps).results[id].value)
  {
    var s := After(steps);
    RepliesAlwaysTold(steps);
    assert steps[..|steps|] == steps;
    OwnAnswerOnly(steps, |steps|, id);
    hide After, IsServedAs, IsReturnedBy;
    var j: nat :| IsServedAs(s, id, j);
    OkToldIsReturned(s, id, j);
  }

  /** With nothing astray, an error delivered to a call is what its own request had to be told, or a
      failure of the whole process. */
  lemma FailedAsServed(steps: seq<Step>, id: nat)
    requires var s := After(steps); s.strays == 0 && id in s.results && s.results[id].Err? && s.results[id].error.Api?
    ensures var s := After(steps);
            var body := ErrorBody(s.results[id].error.code, s.results[id].error.fatal);
            || body == ErrorBody("unhandled", true) || body == ErrorBody("bridge-load-failed", true)
            || (id in s.replies && s.replies[id] == body && exists j: nat :: IsServedAs(s, id, j))
  {
    RepliesAlwaysTold(steps);
    ErrorsAreOwn(steps, id);
    hide After, IsServedAs;
  }

  /** Whoever was told that a transaction was added or imported, or a payee ensured, finds it on the
      remote, then and ever after. */
  lemma NamedWriteIsRemote(steps: seq<Step>, n: nat, id: nat)
    requires n <= |steps|
    requires var s := After(steps[..n]); id in s.results && s.results[id].Ok? && id in s.issued
    requires var operation := After(steps[..n]).issued[id];
             operation in {Named("add-transaction"), Named("import-transaction"), Named("ensure-payee")}
    ensures id in After(steps[..n]).remote && id in After(steps).remote
  {
    hide After;
    OperationsByName(After(steps[..n]).issued[id]);
    AcknowledgedIsRemote(steps, n, id);
  }
}
