/** In every interleaving the server's half is a run of the serving loop, and the pipe to the
    client is a queue: what it holds is the unread end of what the loop has written. */
module ProtocolServer {
  import opened Common
  import opened Serve
  import opened Session
  import opened Protocol

  function Responses(frames: seq<Frame>): seq<Response> {
    seq(|frames|, i requires 0 <= i < |frames| => ToResponse(frames[i]))
  }

  /** Everything the server process has ever written: the frames of its loop, and what it may
      have said when it died. */
  function Written(s: System): seq<Response> {
    Responses(Turns(s.served).frames) + s.lastWord
  }

  predicate IsSuffix(unread: seq<Response>, all: seq<Response>) {
    |unread| <= |all| && unread == all[|all| - |unread|..]
  }

  predicate RunsLoop(s: System) {
    && Turns(s.served).isOpen == s.server.isOpen
    && (Turns(s.served).stopped <==> s.server.phase.Leaving?)
    && (s.server.alive ==> s.lastWord == [])
    && IsSuffix(s.toClient, Written(s))
  }

  lemma TurnsMore(xs: seq<Exchange>, x: Exchange)
    ensures Turns(xs + [x]) == Turn(Turns(xs), x)
  {
    hide Turn;
    assert (xs + [x])[..|xs|] == xs;
  }

  lemma ResponsesMore(frames: seq<Frame>, frame: Frame)
    ensures Responses(frames + [frame]) == Responses(frames) + [ToResponse(frame)]
  {
  }

  lemma SuffixMore(unread: seq<Response>, all: seq<Response>, response: Response)
    requires IsSuffix(unread, all)
    ensures IsSuffix(unread + [response], all + [response])
  {
  }

  lemma SuffixLess(unread: seq<Response>, all: seq<Response>)
    requires IsSuffix(unread, all) && unread != []
    ensures IsSuffix(unread[1..], all)
  {
  }

  /** A step that leaves the server's state, its log and replies and the pipe to the client alone. */
  predicate Elsewhere(s: System, t: System) {
    && (t.served, t.replies, t.lastWord, t.toClient) == (s.served, s.replies, s.lastWord, s.toClient)
    && t.server.isOpen == s.server.isOpen && (t.server.phase.Leaving? <==> s.server.phase.Leaving?)
    && (t.server.alive ==> s.server.alive)
  }

  lemma ElsewhereKeepsLoop(s: System, t: System)
    requires RunsLoop(s) && Elsewhere(s, t)
    ensures RunsLoop(t)
  {
    hide Turns;
  }

  lemma CallElsewhere(s: System, step: Step)
    requires IsCallStep(step) && !step.Read?
    ensures Elsewhere(s, Do(s, step))
  {
    hide AfterRoundTrip;
  }

  lemma CheckCloseElsewhere(s: System, k: nat)
    ensures Elsewhere(s, DoCheckClose(s, k)) && Elsewhere(s, DoAnswerClose(s, k))
  {
  }

  lemma SendCloseElsewhere(s: System, k: nat)
    ensures Elsewhere(s, DoSendClose(s, k)) && Elsewhere(s, DoFinishClose(s, k))
  {
  }

  lemma CloseElsewhere(s: System, step: Step)
    requires IsCloseStep(step)
    ensures Elsewhere(s, Do(s, step))
  {
    CheckCloseElsewhere(s, step.k);
    SendCloseElsewhere(s, step.k);
    hide Elsewhere, DoCheckClose, DoSendClose, DoAnswerClose, DoFinishClose;
  }

  lemma EffectElsewhere(s: System, step: Step)
    requires step.Write? || step.Sync? || step.Straggle? || step.Exit?
    ensures Elsewhere(s, Do(s, step))
  {
    hide IsWrite;
    match step
    case Write => assert Elsewhere(s, DoWrite(s));
    case Sync => assert Elsewhere(s, DoSync(s));
    case Straggle(more, pushed) => assert Elsewhere(s, DoStraggle(s, more, pushed));
    case Exit => assert Elsewhere(s, DoExit(s));
  }

  lemma ReadKeepsLoop(s: System)
    requires RunsLoop(s)
    ensures RunsLoop(DoRead(s))
  {
    hide Turns, AfterRoundTrip;
    if s.toClient != [] {
      SuffixLess(s.toClient, Written(s));
    }
    hide IsSuffix;
  }

  lemma TakeKeepsLoop(s: System)
    requires RunsLoop(s)
    ensures RunsLoop(DoTake(s))
  {
    hide Turns, ToResponse, Responses;
    if s.server.alive && s.server.phase.Idle? && s.toServer != [] {
      match s.toServer[0]
      case Blank => TurnsMore(s.served, Exchange(Blank, UNUSED));
      case NotJson => RejectKeepsLoop(s);
      case Request(_, _) => assert DoTake(s).served == s.served;
    }
  }

  lemma RejectKeepsLoop(s: System)
    requires RunsLoop(s) && s.server.alive && s.server.phase.Idle? && s.toServer != [] && s.toServer[0].NotJson?
    ensures RunsLoop(DoTake(s))
  {
    hide Turns, ToResponse;
    var frame := Frame(None, ErrorBody("bad-request-json", false));
    TurnsMore(s.served, Exchange(Line.NotJson, UNUSED));
    ResponsesMore(Turns(s.served).frames, frame);
    SuffixMore(s.toClient, Responses(Turns(s.served).frames), ToResponse(frame));
    hide IsSuffix, Responses;
  }

  lemma ReplyKeepsLoop(s: System, world: World)
    requires RunsLoop(s)
    ensures RunsLoop(DoReply(s, world))
  {
    hide Turns, ToResponse, DispatchOperation, Ends, SyncFails, IsWrite, Agrees;
    if s.server.alive && s.server.phase.Busy? {
      var id, operation := s.server.phase.id, s.server.phase.operation;
      var frame := Frame(id, DispatchOperation(operation, s.server.isOpen, world).body);
      TurnsMore(s.served, Exchange(Request(id, operation), world));
      ResponsesMore(Turns(s.served).frames, frame);
      SuffixMore(s.toClient, Responses(Turns(s.served).frames), ToResponse(frame));
    }
  }

  lemma CrashKeepsLoop(s: System, lastWords: LastWords)
    requires RunsLoop(s)
    ensures RunsLoop(DoCrash(s, lastWords))
  {
    hide Turns;
    if DoCrash(s, lastWords) != s && !lastWords.Silent? {
      SuffixMore(s.toClient, Responses(Turns(s.served).frames), DoCrash(s, lastWords).lastWord[0]);
    }
  }

  lemma StepKeepsLoop(s: System, step: Step)
    requires RunsLoop(s)
    ensures RunsLoop(Do(s, step))
  {
    match step
    case Read => ReadKeepsLoop(s);
    case Take => TakeKeepsLoop(s);
    case Reply(world) => ReplyKeepsLoop(s, world);
    case Crash(lastWords) => CrashKeepsLoop(s, lastWords);
    case _ =>
      hide RunsLoop, Elsewhere, Do;
      if IsCallStep(step) {
        CallElsewhere(s, step);
      } else if IsCloseStep(step) {
        CloseElsewhere(s, step);
      } else {
        EffectElsewhere(s, step);
      }
      ElsewhereKeepsLoop(s, Do(s, step));
  }

  /** Over every run. */
  lemma {:induction false} ServerRunsLoop(steps: seq<Step>)
    ensures RunsLoop(After(steps))
  {
    hide Do;
    if steps != [] {
      ServerRunsLoop(steps[..|steps| - 1]);
      StepKeepsLoop(After(steps[..|steps| - 1]), steps[|steps| - 1]);
    }
  }

  /** Until the server leaves its loop, its budget counts as open exactly when an open request
      has succeeded in this run. */
  lemma OpenMeansOpened(steps: seq<Step>)
    ensures var s := After(steps);
            !s.server.phase.Leaving? ==>
              (s.server.isOpen <==> exists k :: 0 <= k < |s.served| && OpenSucceeds(s.served[k]))
  {
    ServerRunsLoop(steps);
    if !After(steps).server.phase.Leaving? {
      OpenedMeansOpen(After(steps).served);
    }
  }

  /** Nothing but the last word of a dying process is ever written after a fatal frame. */
  lemma NothingAfterFatal(steps: seq<Step>, i: nat)
    requires i < |Turns(After(steps).served).frames| && IsFatal(Turns(After(steps).served).frames[i].body)
    ensures Written(After(steps))[i + 1..] == After(steps).lastWord
    ensures After(steps).server.phase.Leaving?
  {
    ServerRunsLoop(steps);
    FatalFrameIsLast(After(steps).served, i);
  }
}
