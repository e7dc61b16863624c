/** Client, pipe, server, local replica and remote server as one state machine.

    A run is any sequence of steps: callers starting and abandoning calls, timeouts, partial
    writes, the server reading, writing, syncing and answering, crashes, closes. A step that is
    not possible in a state leaves it as it is, so what holds of all sequences holds of all
    interleavings. The client's reaction to a response and the server's reaction to a request
    are the functions that specify the session and the serving loop. */
module Protocol {
  import opened Common
  import opened Serve
  import opened Session

  /** The call holding the session's mutex, and how far its request has got. */
  datatype Holder = NoCall | Writing(id: nat, operation: Operation) | Waiting(id: nat, operation: Operation)

  /** How far the server is with a request: the handler may have changed the local replica, and
      the replica may have been pushed to the remote. */
  datatype Progress = Started | Wrote | Synced

  datatype Phase = Idle | Busy(id: Option<nat>, operation: Operation, progress: Progress) | Leaving

  datatype Server = Server(alive: bool, isOpen: bool, phase: Phase)

  /** A close between its sections. `Checked` found the session open; `Closing` has sent its
      request; `Finishing` has its answer. */
  datatype ClosePhase = Checked | Closing(id: nat) | Finishing | Returned

  datatype System = System(
    client: Client,
    holder: Holder,
    closes: map<nat, ClosePhase>,
    issued: map<nat, Operation>,
    results: map<nat, InvokeResult>,
    toServer: seq<Line>,
    partial: bool,
    toClient: seq<Response>,
    server: Server,
    taken: nat,
    replies: map<nat, Body>,
    failedSyncs: set<nat>,
    local: set<nat>,
    remote: set<nat>,
    strays: nat,
    served: seq<Exchange>,
    lastWord: seq<Response>)

  datatype LastWords = Silent | Garbled | Unhandled | LoadFails

  datatype Step =
    | Begin(operation: Operation)
    | FinishWrite
    | Read
    | ReadEnd
    | PipeBreaks(leavesPartial: bool)
    | TimeOut(leavesPartial: bool)
    | Cancel(leavesPartial: bool)
    | CheckClose(k: nat)
    | SendClose(k: nat)
    | AnswerClose(k: nat)
    | FinishClose(k: nat)
    | Take
    | Write
    | Sync
    | Reply(world: World)
    | Straggle(more: set<nat>, pushed: set<nat>)
    | Exit
    | Crash(lastWords: LastWords)

  const INITIAL: System := System(
    Client(Open, 1, Running), NoCall, map[], map[], map[], [], false, [],
    Server(true, false, Idle), 0, map[], {}, {}, {}, 0, [], [])

  // ----- client steps

  /** Takes the mutex, an id and starts writing, if the session is open. */
  function DoBegin(s: System, operation: Operation): System {
    if !s.holder.NoCall? || !s.client.state.Open? then s
    else
      var id := s.client.nextId;
      s.(client := s.client.(nextId := id + 1), holder := Writing(id, operation), issued := s.issued[id := operation])
  }

  /** The line is complete; after an unfinished line it is one with it, and not JSON. */
  function DoFinishWrite(s: System): System {
    if !s.holder.Writing? then s
    else
      var line := if s.partial then Line.NotJson else Request(Some(s.holder.id), s.holder.operation);
      s.(holder := Waiting(s.holder.id, s.holder.operation), toServer := s.toServer + [line], partial := false)
  }

  /** The call that holds the mutex ends with the outcome of its round trip. */
  function EndCall(s: System, trip: RoundTrip): System
    requires !s.holder.NoCall?
  {
    var (client, result) := AfterRoundTrip(s.client, s.holder.id, trip);
    s.(client := client, holder := NoCall, results := s.results[s.holder.id := result])
  }

  function DoRead(s: System): System {
    if !s.holder.Waiting? || s.toClient == [] then s
    else EndCall(s, Received(s.toClient[0])).(toClient := s.toClient[1..])
  }

  function DoReadEnd(s: System): System {
    if !s.holder.Waiting? || s.toClient != [] || s.server.alive then s else EndCall(s, EndOfFile)
  }

  /** An interrupted write may leave an unfinished line behind. */
  function LeavePartial(s: System, leavesPartial: bool): System {
    if s.holder.Writing? && leavesPartial then s.(partial := true) else s
  }

  function DoPipeBreaks(s: System, leavesPartial: bool): System {
    if s.holder.NoCall? then s else EndCall(LeavePartial(s, leavesPartial), PipeFails)
  }

  function DoTimeOut(s: System, leavesPartial: bool): System {
    if s.holder.NoCall? then s else EndCall(LeavePartial(s, leavesPartial), Elapsed)
  }

  /** The caller goes away: the mutex is free again and nothing else happens. What has been
      written stays on the pipe, a stray. */
  function DoCancel(s: System, leavesPartial: bool): System {
    if s.holder.NoCall? then s
    else
      LeavePartial(s, leavesPartial).(holder := NoCall,
                                      strays := s.strays + if s.holder.Waiting? || leavesPartial then 1 else 0)
  }

  /** The session is closed and its process has ended, by itself or killed, and been waited for. */
  function Shut(s: System): System {
    s.(client := s.client.(state := Closed, child := Reap(s.client.child)), server := s.server.(alive := false))
  }

  function DoCheckClose(s: System, k: nat): System {
    if !s.holder.NoCall? || k in s.closes then s
    else
      match s.client.state
      case Closed => s.(closes := s.closes[k := Returned])
      case Poisoned(_) => Shut(s).(closes := s.closes[k := Returned])
      case Open => s.(closes := s.closes[k := Checked])
  }

  function DoSendClose(s: System, k: nat): System {
    if !s.holder.NoCall? || k !in s.closes || s.closes[k] != Checked then s
    else if s.client.state.Open? then DoBegin(s, CloseBudget).(closes := s.closes[k := Closing(s.client.nextId)])
    else s.(closes := s.closes[k := Finishing])
  }

  function DoAnswerClose(s: System, k: nat): System {
    if k !in s.closes || !s.closes[k].Closing? || s.closes[k].id !in s.results then s
    else s.(closes := s.closes[k := Finishing])
  }

  function DoFinishClose(s: System, k: nat): System {
    if !s.holder.NoCall? || k !in s.closes || s.closes[k] != Finishing then s
    else Shut(s).(closes := s.closes[k := Returned])
  }

  // ----- server steps

  function ToResponse(frame: Frame): Response {
    match frame.body
    case OkBody(value) => Json(frame.id, None, Some(value))
    case ErrorBody(code, fatal) => Json(frame.id, Some(ApiError(code, fatal)), None)
  }

  /** The world of a line that runs nothing. */
  const UNUSED: World := World(false, Throws, false, false, false)

  function DoTake(s: System): System {
    if !s.server.alive || !s.server.phase.Idle? || s.toServer == [] then s
    else
      var rest := s.(toServer := s.toServer[1..]);
      match s.toServer[0]
      case Blank => rest.(served := s.served + [Exchange(Blank, UNUSED)])
      case NotJson =>
        rest.(toClient := s.toClient + [ToResponse(Frame(None, ErrorBody("bad-request-json", false)))],
              served := s.served + [Exchange(Line.NotJson, UNUSED)])
      case Request(id, operation) =>
        rest.(server := s.server.(phase := Busy(id, operation, Started)), taken := if id.Some? then id.value else s.taken)
  }

  /** A handler that mutates the budget changes the local replica. */
  function DoWrite(s: System): System {
    if !s.server.alive || !s.server.phase.Busy? || !s.server.isOpen || !s.server.phase.progress.Started?
       || s.server.phase.id.None? || !IsWrite(s.server.phase.operation) then s
    else s.(local := s.local + {s.server.phase.id.value}, server := s.server.(phase := s.server.phase.(progress := Wrote)))
  }

  /** A successful sync brings the whole replica to the remote. */
  function DoSync(s: System): System {
    if !s.server.alive || !s.server.phase.Busy? then s
    else if s.server.phase.progress.Wrote? then s.(remote := s.remote + s.local, server := s.server.(phase := s.server.phase.(progress := Synced)))
    else if s.server.phase.operation.CloseBudget? then s.(remote := s.remote + s.local)
    else s
  }

  /** Whether the reply the server is about to give agrees with what it has done: a write whose
      handler returned has changed the replica, and if its sync succeeded that has been pushed.
      A sync that fails may have got through all the same. */
  predicate Agrees(phase: Phase, isOpen: bool, world: World)
    requires phase.Busy?
  {
    IsWrite(phase.operation) && isOpen && !world.stalls && world.attempt.Returns? ==>
      !phase.progress.Started? && (world.syncs ==> phase.progress.Synced?)
  }

  /** Whether a write's handler returned but its sync failed. */
  predicate SyncFails(operation: Operation, isOpen: bool, world: World) {
    IsWrite(operation) && isOpen && !world.stalls && world.attempt.Returns? && !world.syncs
  }

  /** What a reply does besides putting its frame on the pipe. */
  function Settle(s: System, world: World): System
    requires s.server.phase.Busy?
  {
    var id, operation := s.server.phase.id, s.server.phase.operation;
    var outcome := DispatchOperation(operation, s.server.isOpen, world);
    s.(server := Server(s.server.alive, outcome.isOpen, if Ends(operation, outcome.body) then Leaving else Idle),
       replies := if id.Some? then s.replies[id.value := outcome.body] else s.replies,
       failedSyncs := if id.Some? && SyncFails(operation, s.server.isOpen, world) then s.failedSyncs + {id.value} else s.failedSyncs,
       served := s.served + [Exchange(Request(id, operation), world)])
  }

  function DoReply(s: System, world: World): System {
    if !s.server.alive || !s.server.phase.Busy? || !Agrees(s.server.phase, s.server.isOpen, world) then s
    else
      var body := DispatchOperation(s.server.phase.operation, s.server.isOpen, world).body;
      Settle(s, world).(toClient := s.toClient + [ToResponse(Frame(s.server.phase.id, body))])
  }

  /** A stalled handler may still write and push while the process shuts down. */
  function DoStraggle(s: System, more: set<nat>, pushed: set<nat>): System {
    if !s.server.alive || !s.server.phase.Leaving? then s
    else s.(local := s.local + more, remote := s.remote + (pushed * (s.local + more)))
  }

  function DoExit(s: System): System {
    if !s.server.alive || !s.server.phase.Leaving? then s else s.(server := s.server.(alive := false))
  }

  const UNHANDLED: Body := ErrorBody("unhandled", true)
  const LOAD_FAILED: Body := ErrorBody("bridge-load-failed", true)

  /** The process dies at any time, saying nothing, half a frame, or a fatal frame without id; if
      it cannot load the budget library it does so before it reads its first line. */
  function DoCrash(s: System, lastWords: LastWords): System {
    if !s.server.alive || (lastWords.LoadFails? && (s.served != [] || !s.server.phase.Idle?)) then s
    else
      var said := match lastWords
        case Silent => []
        case Garbled => [Response.NotJson]
        case Unhandled => [ToResponse(Frame(None, UNHANDLED))]
        case LoadFails => [ToResponse(Frame(None, LOAD_FAILED))];
      s.(server := s.server.(alive := false), toClient := s.toClient + said, lastWord := said)
  }

  function Do(s: System, step: Step): System {
    match step
    case Begin(operation) => DoBegin(s, operation)
    case FinishWrite => DoFinishWrite(s)
    case Read => DoRead(s)
    case ReadEnd => DoReadEnd(s)
    case PipeBreaks(leavesPartial) => DoPipeBreaks(s, leavesPartial)
    case TimeOut(leavesPartial) => DoTimeOut(s, leavesPartial)
    case Cancel(leavesPartial) => DoCancel(s, leavesPartial)
    case CheckClose(k) => DoCheckClose(s, k)
    case SendClose(k) => DoSendClose(s, k)
    case AnswerClose(k) => DoAnswerClose(s, k)
    case FinishClose(k) => DoFinishClose(s, k)
    case Take => DoTake(s)
    case Write => DoWrite(s)
    case Sync => DoSync(s)
    case Reply(world) => DoReply(s, world)
    case Straggle(more, pushed) => DoStraggle(s, more, pushed)
    case Exit => DoExit(s)
    case Crash(lastWords) => DoCrash(s, lastWords)
  }

  function After(steps: seq<Step>): System {
    if steps == [] then INITIAL else Do(After(steps[..|steps| - 1]), steps[|steps| - 1])
  }

  // ----- invariants of every run

  predicate CallInOrder(s: System)
    requires !s.holder.NoCall?
  {
    && s.client.state.Open?
    && s.holder.id == s.client.nextId - 1
    && s.holder.id in s.issued && s.issued[s.holder.id] == s.holder.operation
    && s.holder.id !in s.results
  }

  /** Ids count up from 1; the call in progress has the latest one and the session open. */
  predicate IdsInOrder(s: System) {
    && 1 <= s.client.nextId
    && s.taken < s.client.nextId
    && (forall id <- s.issued :: 1 <= id < s.client.nextId)
    && (!s.holder.NoCall? ==> CallInOrder(s))
    && (s.holder.Writing? ==> s.taken < s.holder.id)
  }

  /** Requests on their way carry issued ids, increasing, all after what the server has taken. */
  predicate LinesInOrder(s: System) {
    && (forall i :: 0 <= i < |s.toServer| && s.toServer[i].Request? ==>
          && s.toServer[i].id.Some?
          && s.taken < s.toServer[i].id.value < s.client.nextId
          && s.toServer[i].id.value in s.issued
          && s.issued[s.toServer[i].id.value] == s.toServer[i].operation
          && (s.holder.Writing? ==> s.toServer[i].id.value < s.holder.id))
    && (forall i, j :: 0 <= i < j < |s.toServer| && s.toServer[i].Request? && s.toServer[j].Request? ==>
          s.toServer[i].id.value < s.toServer[j].id.value)
  }

  /** The request in hand is the last one taken and unanswered; its progress is in the replica. */
  predicate HandInOrder(s: System) {
    s.server.phase.Busy? ==>
      && s.server.phase.id == Some(s.taken)
      && s.taken in s.issued && s.issued[s.taken] == s.server.phase.operation
      && s.taken !in s.replies
      && (s.server.phase.progress.Wrote? ==> s.taken in s.local)
      && (s.server.phase.progress.Synced? ==> s.taken in s.remote)
  }

  /** Every reply is to an issued request already taken; acknowledged writes are on the remote. */
  predicate RepliesSafe(s: System) {
    forall id <- s.replies ::
      && id in s.issued && id <= s.taken
      && (IsWrite(s.issued[id]) && s.replies[id].OkBody? ==> id in s.remote)
  }

  /** A response that carries an id is the reply to that request; one without is an error. */
  predicate IsTrue(response: Response, replies: map<nat, Body>) {
    response.Json? ==>
      match response.id
      case None => response.error.Some? && response.error.value.ApiError?
      case Some(id) => id in replies && response == ToResponse(Frame(Some(id), replies[id]))
  }

  predicate ResponsesTrue(s: System) {
    forall i :: 0 <= i < |s.toClient| ==> IsTrue(s.toClient[i], s.replies)
  }

  /** Every value delivered to a call is the reply to that call's own request. */
  predicate ResultsTrue(s: System) {
    forall id <- s.results ::
      && id in s.issued
      && (s.results[id].Ok? ==> id in s.replies && s.replies[id] == OkBody(s.results[id].value))
  }

  /** A closed session has waited for its process, and a close that returned left it closed. */
  predicate ClosedIsOver(s: System) {
    && !s.client.child.Absent?
    && (s.client.child.Reaped? ==> !s.server.alive)
    && (s.client.state.Closed? ==> s.client.child.Reaped?)
    && (forall k <- s.closes :: s.closes[k] == Returned ==> s.client.state.Closed?)
  }

  const SYNC_FAILED: Body := ErrorBody("sync-failed", true)

  /** A write whose sync failed is the last request the server ever took. */
  predicate FailedSyncIsLast(s: System) {
    forall id <- s.failedSyncs ::
      && id == s.taken && id in s.replies && s.replies[id] == SYNC_FAILED
      && (s.server.phase.Leaving? || !s.server.alive)
  }

  predicate Inv(s: System) {
    && IdsInOrder(s) && LinesInOrder(s) && HandInOrder(s) && RepliesSafe(s)
    && ResponsesTrue(s) && ResultsTrue(s) && ClosedIsOver(s) && FailedSyncIsLast(s)
  }

  lemma BeginKeepsInv(s: System, operation: Operation)
    requires Inv(s)
    ensures Inv(DoBegin(s, operation))
  {
    hide IsWrite;
  }

  lemma FinishWriteKeepsInv(s: System)
    requires Inv(s)
    ensures Inv(DoFinishWrite(s))
  {
    hide IsWrite;
  }

  lemma EndCallKeepsInv(s: System, trip: RoundTrip)
    requires Inv(s) && !s.holder.NoCall?
    requires trip.EndOfFile? ==> !s.server.alive
    requires trip.Received? ==> IsTrue(trip.response, s.replies)
    ensures Inv(EndCall(s, trip))
  {
    hide IsWrite;
  }

  lemma ReadKeepsInv(s: System)
    requires Inv(s)
    ensures Inv(DoRead(s))
  {
    hide IsWrite, AfterRoundTrip, IsTrue;
    assert s.toClient != [] ==> IsTrue(s.toClient[0], s.replies);
    hide Inv;
    if s.holder.Waiting? && s.toClient != [] {
      EndCallKeepsInv(s, Received(s.toClient[0]));
      DropResponseKeepsInv(EndCall(s, Received(s.toClient[0])));
    }
  }

  lemma DropResponseKeepsInv(s: System)
    requires Inv(s) && s.toClient != []
    ensures Inv(s.(toClient := s.toClient[1..]))
  {
    hide IsWrite;
  }

  lemma LeavePartialKeepsInv(s: System, leavesPartial: bool)
    requires Inv(s)
    ensures Inv(LeavePartial(s, leavesPartial)) && LeavePartial(s, leavesPartial).holder == s.holder
  {
    hide IsWrite;
  }

  lemma CancelKeepsInv(s: System, leavesPartial: bool)
    requires Inv(s)
    ensures Inv(DoCancel(s, leavesPartial))
  {
    hide IsWrite;
  }

  predicate IsCallStep(step: Step) {
    step.Begin? || step.FinishWrite? || step.Read? || step.ReadEnd? || step.PipeBreaks? || step.TimeOut? || step.Cancel?
  }

  predicate IsCloseStep(step: Step) {
    step.CheckClose? || step.SendClose? || step.AnswerClose? || step.FinishClose?
  }

  lemma CallStepKeepsInv(s: System, step: Step)
    requires Inv(s)
    requires IsCallStep(step)
    ensures Inv(Do(s, step))
  {
    hide Inv, DoBegin, DoFinishWrite, DoRead, EndCall, LeavePartial, DoCancel;
    match step
    case Begin(operation) => BeginKeepsInv(s, operation);
    case FinishWrite => FinishWriteKeepsInv(s);
    case Read => ReadKeepsInv(s);
    case ReadEnd => if !s.holder.NoCall? && !s.server.alive { EndCallKeepsInv(s, EndOfFile); }
    case PipeBreaks(leavesPartial) =>
      LeavePartialKeepsInv(s, leavesPartial);
      if !s.holder.NoCall? { EndCallKeepsInv(LeavePartial(s, leavesPartial), PipeFails); }
    case TimeOut(leavesPartial) =>
      LeavePartialKeepsInv(s, leavesPartial);
      if !s.holder.NoCall? { EndCallKeepsInv(LeavePartial(s, leavesPartial), Elapsed); }
    case Cancel(leavesPartial) => CancelKeepsInv(s, leavesPartial);
  }

  lemma ShutKeepsInv(s: System)
    requires Inv(s) && s.holder.NoCall?
    ensures Inv(Shut(s)) && Shut(s).client.state.Closed?
  {
    hide IsWrite;
  }

  /** Moving a close on changes nothing else; it may count as returned once the session is closed. */
  lemma MoveCloseKeepsInv(s: System, k: nat, phase: ClosePhase)
    requires Inv(s) && (phase.Returned? ==> s.client.state.Closed?)
    ensures Inv(s.(closes := s.closes[k := phase]))
  {
    hide IsWrite;
  }

  lemma CloseStepKeepsInv(s: System, step: Step)
    requires Inv(s)
    requires IsCloseStep(step)
    ensures Inv(Do(s, step))
  {
    hide Inv;
    BeginKeepsInv(s, CloseBudget);
    if s.holder.NoCall? {
      ShutKeepsInv(s);
    }
    match step
    case CheckClose(k) =>
      match s.client.state {
        case Closed => MoveCloseKeepsInv(s, k, Returned);
        case Poisoned(_) => if s.holder.NoCall? { MoveCloseKeepsInv(Shut(s), k, Returned); }
        case Open => MoveCloseKeepsInv(s, k, Checked);
      }
    case SendClose(k) =>
      MoveCloseKeepsInv(DoBegin(s, CloseBudget), k, Closing(s.client.nextId));
      MoveCloseKeepsInv(s, k, Finishing);
    case AnswerClose(k) => MoveCloseKeepsInv(s, k, Finishing);
    case FinishClose(k) => if s.holder.NoCall? { MoveCloseKeepsInv(Shut(s), k, Returned); }
  }

  /** The line taken leaves the pipe; the lines behind it carry later ids. */
  lemma DropLineKeepsInv(s: System)
    requires Inv(s) && s.toServer != []
    ensures Inv(s.(toServer := s.toServer[1..]))
  {
    hide IsWrite;
    hide HandInOrder, RepliesSafe, ResponsesTrue, ResultsTrue, ClosedIsOver, FailedSyncIsLast;
    KeepRest(s, s.(toServer := s.toServer[1..]));
  }

  lemma KeepRest(s: System, t: System)
    requires HandInOrder(s) && RepliesSafe(s) && ResponsesTrue(s) && ResultsTrue(s) && ClosedIsOver(s) && FailedSyncIsLast(s)
    requires t == s.(toServer := t.toServer)
    ensures HandInOrder(t) && RepliesSafe(t) && ResponsesTrue(t) && ResultsTrue(t) && ClosedIsOver(t) && FailedSyncIsLast(t)
  {
    hide IsWrite;
  }

  lemma SayKeepsInv(s: System, response: Response)
    requires Inv(s) && IsTrue(response, s.replies)
    ensures Inv(s.(toClient := s.toClient + [response]))
  {
    hide IsWrite;
  }

  /** What is logged of the server's work plays no part in the invariants. */
  lemma LogKeepsInv(s: System, served: seq<Exchange>, lastWord: seq<Response>)
    requires Inv(s)
    ensures Inv(s.(served := served, lastWord := lastWord))
  {
    hide IsWrite;
  }

  lemma TakeRequestKeepsInv(s: System)
    requires Inv(s) && s.server.alive && s.server.phase.Idle?
    requires s.toServer != [] && s.toServer[0].Request?
    ensures Inv(DoTake(s))
  {
    hide IsWrite, LinesInOrder, ResponsesTrue, ResultsTrue;
    TakeRequestKeepsLines(s);
  }

  lemma TakeRequestKeepsLines(s: System)
    requires Inv(s) && s.server.alive && s.server.phase.Idle?
    requires s.toServer != [] && s.toServer[0].Request?
    ensures LinesInOrder(DoTake(s)) && ResponsesTrue(DoTake(s)) && ResultsTrue(DoTake(s))
    ensures s.toServer[0].id.Some? && s.taken < s.toServer[0].id.value < s.client.nextId
    ensures var id := s.toServer[0].id.value; id in s.issued && s.issued[id] == s.toServer[0].operation
    ensures s.holder.Writing? ==> s.toServer[0].id.value < s.holder.id
  {
    hide IsWrite, HandInOrder, RepliesSafe, ClosedIsOver, FailedSyncIsLast;
  }

  lemma TakeKeepsInv(s: System)
    requires Inv(s)
    ensures Inv(DoTake(s))
  {
    hide Inv;
    if s.server.alive && s.server.phase.Idle? && s.toServer != [] {
      DropLineKeepsInv(s);
      var rest, x := s.(toServer := s.toServer[1..]), Exchange(s.toServer[0], UNUSED);
      LogKeepsInv(rest, s.served + [x], s.lastWord);
      match s.toServer[0]
      case Blank =>
      case NotJson => SayKeepsInv(rest.(served := s.served + [x]), ToResponse(Frame(None, ErrorBody("bad-request-json", false))));
      case Request(_, _) => TakeRequestKeepsInv(s);
    }
  }

  lemma WriteKeepsInv(s: System)
    requires Inv(s)
    ensures Inv(DoWrite(s))
  {
    hide IsWrite;
  }

  lemma PushKeepsInv(s: System, remote: set<nat>)
    requires Inv(s) && s.remote <= remote
    ensures Inv(s.(remote := remote))
  {
    hide IsWrite;
  }

  lemma MarkSyncedKeepsInv(s: System)
    requires Inv(s) && s.server.phase.Busy? && s.taken in s.remote
    ensures Inv(s.(server := s.server.(phase := s.server.phase.(progress := Synced))))
  {
    hide IsWrite;
  }

  lemma SyncKeepsInv(s: System)
    requires Inv(s)
    ensures Inv(DoSync(s))
  {
    assert s.server.phase.Busy? && s.server.phase.progress.Wrote? ==> s.taken in s.local;
    hide Inv;
    PushKeepsInv(s, s.remote + s.local);
    if s.server.phase.Busy? && s.server.phase.progress.Wrote? {
      MarkSyncedKeepsInv(s.(remote := s.remote + s.local));
    }
  }

  lemma StraggleKeepsInv(s: System, more: set<nat>, pushed: set<nat>)
    requires Inv(s)
    ensures Inv(DoStraggle(s, more, pushed))
  {
    hide IsWrite;
  }

  lemma CrashKeepsInv(s: System, lastWords: LastWords)
    requires Inv(s)
    ensures Inv(DoCrash(s, lastWords))
  {
    hide Inv;
    if DoCrash(s, lastWords) != s {
      EndServerKeepsInv(s);
      var dead := s.(server := s.server.(alive := false), lastWord := DoCrash(s, lastWords).lastWord);
      LogKeepsInv(s.(server := s.server.(alive := false)), s.served, dead.lastWord);
      match lastWords
      case Silent => assert s.toClient + [] == s.toClient;
      case Garbled => SayKeepsInv(dead, Response.NotJson);
      case Unhandled => SayKeepsInv(dead, ToResponse(Frame(None, UNHANDLED)));
      case LoadFails => SayKeepsInv(dead, ToResponse(Frame(None, LOAD_FAILED)));
    }
  }

  lemma EndServerKeepsInv(s: System)
    requires Inv(s)
    ensures Inv(s.(server := s.server.(alive := false)))
  {
    hide IsWrite;
  }

  lemma SettleKeepsReplies(s: System, world: World)
    requires Inv(s)
    requires s.server.alive && s.server.phase.Busy? && Agrees(s.server.phase, s.server.isOpen, world)
    ensures RepliesSafe(Settle(s, world)) && FailedSyncIsLast(Settle(s, world))
  {
    hide LinesInOrder, ResponsesTrue, ResultsTrue, ClosedIsOver;
    var operation := s.server.phase.operation;
    if IsWrite(operation) {
      WriteAcknowledgedAfterSync(operation, s.server.isOpen, world);
    }
    var body := DispatchOperation(operation, s.server.isOpen, world).body;
    assert IsWrite(operation) && body.OkBody? ==> s.server.phase.progress == Synced;
    assert SyncFails(operation, s.server.isOpen, world) ==> body == SYNC_FAILED;
    hide IsWrite, DispatchOperation, SyncFails, Agrees;
  }

  lemma SettleKeepsInv(s: System, world: World)
    requires Inv(s)
    requires s.server.alive && s.server.phase.Busy? && Agrees(s.server.phase, s.server.isOpen, world)
    ensures Inv(Settle(s, world))
  {
    hide IsWrite, DispatchOperation, SyncFails, Agrees;
    hide LinesInOrder, ResponsesTrue, ResultsTrue, RepliesSafe, FailedSyncIsLast;
    SettleKeepsReplies(s, world);
    KeepLines(s, Settle(s, world));
    MoreReplies(s, Settle(s, world));
  }

  lemma KeepLines(s: System, t: System)
    requires LinesInOrder(s)
    requires t.toServer == s.toServer && t.taken == s.taken && t.client == s.client && t.issued == s.issued && t.holder == s.holder
    ensures LinesInOrder(t)
  {
  }

  lemma MoreReplies(s: System, t: System)
    requires ResponsesTrue(s) && ResultsTrue(s)
    requires t.toClient == s.toClient && t.results == s.results && t.issued == s.issued
    requires forall id <- s.replies :: id in t.replies && t.replies[id] == s.replies[id]
    ensures ResponsesTrue(t) && ResultsTrue(t)
  {
  }

  lemma ReplyKeepsInv(s: System, world: World)
    requires Inv(s)
    ensures Inv(DoReply(s, world))
  {
    if s.server.alive && s.server.phase.Busy? && Agrees(s.server.phase, s.server.isOpen, world) {
      assert s.server.phase.id == Some(s.taken);
      hide Inv, Agrees, SyncFails, DispatchOperation, IsWrite, Ends, Settle;
      SettleKeepsInv(s, world);
      var body := DispatchOperation(s.server.phase.operation, s.server.isOpen, world).body;
      SayKeepsInv(Settle(s, world), ToResponse(Frame(Some(s.taken), body)));
    }
  }

  /** The invariants hold after every sequence of steps. */
  lemma {:induction false} InvAlways(steps: seq<Step>)
    ensures Inv(After(steps))
  {
    hide Inv, Do;
    if steps == [] {
      InvInitially();
    } else {
      var s, step := After(steps[..|steps| - 1]), steps[|steps| - 1];
      InvAlways(steps[..|steps| - 1]);
      StepKeepsInv(s, step);
    }
  }

  lemma InvInitially()
    ensures Inv(INITIAL)
  {
  }

  lemma StepKeepsInv(s: System, step: Step)
    requires Inv(s)
    ensures Inv(Do(s, step))
  {
    hide Inv, DoReply, DoTake, DoCrash, DoWrite;
    if IsCallStep(step) {
      CallStepKeepsInv(s, step);
    } else if IsCloseStep(step) {
      CloseStepKeepsInv(s, step);
    } else {
      match step
      case Take => TakeKeepsInv(s);
      case Write => WriteKeepsInv(s);
      case Sync => SyncKeepsInv(s);
      case Reply(world) => ReplyKeepsInv(s, world);
      case Straggle(more, pushed) => StraggleKeepsInv(s, more, pushed);
      case Exit => EndServerKeepsInv(s);
      case Crash(lastWords) => CrashKeepsInv(s, lastWords);
    }
  }
}
