/** The serving side of the bridge: one process, one budget, one request line at a time.

    What the budget library does with a request (answer, throw, stall, fail to sync) is an
    input: one `World` per line. */
module Serve {
  import opened Common

  /** A JSON payload, as text. */
  type Value = string

  datatype Operation = OpenBudget | CloseBudget | Named(name: string) | NotAString

  const HANDLERS: set<string> := {
    "list-accounts", "get-balance", "add-transaction", "get-last-transaction", "get-balance-at",
    "ensure-payee", "import-transaction", "get-account-note", "find-transaction", "get-budget-month",
    "get-payees", "get-schedules", "get-payee-totals", "get-category-projection"
  }

  const WRITE_OPERATIONS: set<string> := {"add-transaction", "import-transaction", "ensure-payee"}

  /** Whether an operation has a handler, and whether that handler mutates the budget. */
  predicate IsHandler(operation: Operation) {
    operation.Named? && operation.name in HANDLERS
  }

  predicate IsWrite(operation: Operation) {
    operation.Named? && operation.name in WRITE_OPERATIONS
  }

  datatype Line = Blank | NotJson | Request(id: Option<nat>, operation: Operation)

  datatype Body = OkBody(value: Value) | ErrorBody(code: string, fatal: bool)

  datatype Frame = Frame(id: Option<nat>, body: Body)

  datatype Attempt = Returns(value: Value) | ThrowsApi(code: string) | Throws

  /** What happens while one request is served: whether it outlasts its timeout, what the
      operation does, whether syncing and shutting down succeed, and, for a stalled close,
      whether it got as far as calling shutdown. */
  datatype World = World(stalls: bool, attempt: Attempt, syncs: bool, shutsDown: bool, stalledInShutdown: bool)

  datatype Outcome = Outcome(isOpen: bool, body: Body)

  function RunOpen(world: World): Outcome {
    match world.attempt
    case Returns(value) => Outcome(true, OkBody(value))
    case ThrowsApi(code) => Outcome(true, ErrorBody(code, true))
    case Throws => Outcome(true, ErrorBody("unhandled", true))
  }

  function RunClose(isOpen: bool, world: World): Outcome {
    if !world.shutsDown then Outcome(isOpen, ErrorBody("unhandled", true))
    else if !world.syncs then Outcome(isOpen, ErrorBody("sync-failed", false))
    else Outcome(isOpen, OkBody("{}"))
  }

  function RunHandler(operation: Operation, isOpen: bool, world: World): Outcome {
    match world.attempt
    case Returns(value) =>
      if IsWrite(operation) && !world.syncs then Outcome(isOpen, ErrorBody("sync-failed", true))
      else Outcome(isOpen, OkBody(value))
    case ThrowsApi(code) => Outcome(isOpen, ErrorBody(code, false))
    case Throws => Outcome(isOpen, ErrorBody("unhandled", true))
  }

  function HandleOperation(operation: Operation, isOpen: bool, world: World): Outcome {
    if operation.NotAString? then Outcome(isOpen, ErrorBody("bad-request", false))
    else if operation.OpenBudget? then RunOpen(world)
    else if !isOpen then Outcome(isOpen, ErrorBody("session-not-open", true))
    else if operation.CloseBudget? then RunClose(isOpen, world)
    else if !IsHandler(operation) then Outcome(isOpen, ErrorBody("unknown-operation", true))
    else RunHandler(operation, isOpen, world)
  }

  function DispatchOperation(operation: Operation, isOpen: bool, world: World): Outcome {
    if world.stalls then Outcome(true, ErrorBody("operation-timeout", true))
    else HandleOperation(operation, isOpen, world)
  }

  predicate IsFatal(body: Body) {
    body.ErrorBody? && body.fatal
  }

  /** Whether the loop is left after a request. */
  predicate Ends(operation: Operation, body: Body) {
    operation.CloseBudget? || IsFatal(body)
  }

  /** How often serving a request calls `shutdown`: once for a close that reaches it. */
  function ShutdownCalls(operation: Operation, isOpen: bool, world: World): nat {
    if operation.CloseBudget? && isOpen && (!world.stalls || world.stalledInShutdown) then 1 else 0
  }

  // ----- the loop

  datatype Exchange = Exchange(line: Line, world: World)

  datatype Loop = Loop(isOpen: bool, closedCleanly: bool, stopped: bool, taken: nat, frames: seq<Frame>, shutdowns: nat)

  /** One turn of the loop, as a value. */
  function Turn(loop: Loop, x: Exchange): Loop {
    if loop.stopped then loop
    else
      match x.line
      case Blank => loop.(taken := loop.taken + 1)
      case NotJson =>
        loop.(taken := loop.taken + 1, frames := loop.frames + [Frame(None, ErrorBody("bad-request-json", false))])
      case Request(id, operation) =>
        var outcome := DispatchOperation(operation, loop.isOpen, x.world);
        Loop(outcome.isOpen,
             loop.closedCleanly || (operation.CloseBudget? && outcome.body.OkBody?),
             Ends(operation, outcome.body),
             loop.taken + 1,
             loop.frames + [Frame(id, outcome.body)],
             loop.shutdowns + ShutdownCalls(operation, loop.isOpen, x.world))
  }

  function Turns(xs: seq<Exchange>): Loop {
    if xs == [] then Loop(false, false, false, 0, [], 0)
    else Turn(Turns(xs[..|xs| - 1]), xs[|xs| - 1])
  }

  /** Whether a line is an open request that succeeds. */
  predicate OpenSucceeds(x: Exchange) {
    x.line.Request? && x.line.operation.OpenBudget? && !x.world.stalls && x.world.attempt.Returns?
  }

  /** Whether a line runs a handler, given whether the budget is open. */
  predicate RunsHandler(x: Exchange, isOpen: bool) {
    x.line.Request? && isOpen && IsHandler(x.line.operation)
  }

  /** The id a line's frame carries; lines that are not JSON get a frame without id. */
  function AnswerIds(xs: seq<Exchange>): seq<Option<nat>> {
    if xs == [] then []
    else
      var line := xs[|xs| - 1].line;
      AnswerIds(xs[..|xs| - 1]) + (if line.Blank? then [] else [if line.Request? then line.id else None])
  }

  function FrameIds(frames: seq<Frame>): seq<Option<nat>> {
    seq(|frames|, i requires 0 <= i < |frames| => frames[i].id)
  }

  /** Serves lines until one ends the loop, then shuts an open budget down unless a clean close
      has done so. */
  method Serve(xs: seq<Exchange>) returns (frames: seq<Frame>, shutdowns: nat)
    ensures frames == Turns(xs).frames
    ensures Turns(xs).closedCleanly ==> shutdowns == 1
    ensures Turns(xs).isOpen ==> shutdowns >= 1
    ensures !Turns(xs).isOpen ==> shutdowns == 0
    ensures (exists i: nat :: IsCleanClose(xs, i)) ==> shutdowns == 1
    ensures Turns(xs).taken <= |xs| && FrameIds(frames) == AnswerIds(xs[..Turns(xs).taken])
  {
    hide DispatchOperation, Ends, ShutdownCalls, IsCleanClose;
    var isOpen, closedCleanly := false, false;
    frames, shutdowns := [], 0;
    ghost var stopped, taken := false, 0;
    for i := 0 to |xs|
      invariant !stopped && taken == i
      invariant Turns(xs[..i]) == Loop(isOpen, closedCleanly, stopped, taken, frames, shutdowns)
    {
      var x := xs[i];
      TurnsPush(xs, i);
      taken := taken + 1;
      if x.line.Blank? {
        continue;
      }
      if x.line.NotJson? {
        frames := frames + [Frame(None, ErrorBody("bad-request-json", false))];
        continue;
      }
      var outcome := DispatchOperation(x.line.operation, isOpen, x.world);
      shutdowns := shutdowns + ShutdownCalls(x.line.operation, isOpen, x.world);
      isOpen := outcome.isOpen;
      frames := frames + [Frame(x.line.id, outcome.body)];
      if x.line.operation.CloseBudget? && outcome.body.OkBody? {
        closedCleanly := true;
      }
      if Ends(x.line.operation, outcome.body) {
        stopped := true;
        break;
      }
    }
    StoppedStays(xs, taken);
    assert xs[..|xs|] == xs;
    LoopShutdowns(xs);
    LoopFrames(xs);
    CleanlyExactly(xs);
    if isOpen && !closedCleanly {
      shutdowns := shutdowns + 1;
    }
  }

  // ----- what holds at every head of the loop

  lemma TurnsPush(xs: seq<Exchange>, i: nat)
    requires i < |xs|
    ensures Turns(xs[..i + 1]) == Turn(Turns(xs[..i]), xs[i])
  {
    hide Turn;
    assert xs[..i + 1][..i] == xs[..i];
  }

  /** Once the loop has been left, further lines change nothing. */
  lemma {:induction false} StoppedStays(xs: seq<Exchange>, n: nat)
    requires n <= |xs|
    ensures Turns(xs[..n]).stopped ==> Turns(xs) == Turns(xs[..n])
  {
    if n < |xs| {
      StoppedStays(xs[..|xs| - 1], n);
      assert xs[..|xs| - 1][..n] == xs[..n];
    } else {
      assert xs[..n] == xs;
    }
  }

  /** As long as the loop runs, `isOpen` says exactly that an earlier open succeeded. */
  lemma {:induction false} OpenedMeansOpen(xs: seq<Exchange>)
    requires !Turns(xs).stopped
    ensures Turns(xs).isOpen <==> exists k :: 0 <= k < |xs| && OpenSucceeds(xs[k])
  {
    if xs != [] {
      var front, x := xs[..|xs| - 1], xs[|xs| - 1];
      OpenedMeansOpen(front);
      if OpenSucceeds(x) {
        assert xs[|xs| - 1] == x;
      }
      assert forall k :: 0 <= k < |front| ==> front[k] == xs[k];
    }
  }

  /** No handler ever runs before an open has succeeded. */
  lemma NoHandlerUnopened(xs: seq<Exchange>, i: nat)
    requires i < |xs| && !Turns(xs[..i]).stopped
    requires RunsHandler(xs[i], Turns(xs[..i]).isOpen)
    ensures exists k :: 0 <= k < i && OpenSucceeds(xs[k])
  {
    OpenedMeansOpen(xs[..i]);
    var k :| 0 <= k < i && OpenSucceeds(xs[..i][k]);
    assert xs[..i][k] == xs[k];
  }

  /** Every line taken that is not blank got exactly one frame, in order, with its own id. */
  lemma {:induction false} LoopFrames(xs: seq<Exchange>)
    ensures Turns(xs).taken <= |xs| && (!Turns(xs).stopped ==> Turns(xs).taken == |xs|)
    ensures FrameIds(Turns(xs).frames) == AnswerIds(xs[..Turns(xs).taken])
  {
    hide DispatchOperation, Ends, ShutdownCalls;
    if xs == [] {
    } else {
      var front := xs[..|xs| - 1];
      LoopFrames(front);
      var loop := Turns(front);
      if loop.stopped {
        assert front[..loop.taken] == xs[..loop.taken];
      } else {
        assert front[..loop.taken] == front && xs[..|xs|] == xs;
        assert FrameIds(Turns(xs).frames) == FrameIds(loop.frames) +
               (if xs[|xs| - 1].line.Blank? then [] else [Turns(xs).frames[|loop.frames|].id]);
      }
    }
  }

  /** While the loop runs, shutdown has not been called and no close has been answered; a clean
      close has called it once; no shutdown is ever called twice inside the loop. */
  lemma {:induction false} LoopShutdowns(xs: seq<Exchange>)
    ensures var loop := Turns(xs);
            && (!loop.stopped ==> loop.shutdowns == 0 && !loop.closedCleanly)
            && (loop.closedCleanly ==> loop.shutdowns == 1 && loop.isOpen)
            && (loop.shutdowns > 0 ==> loop.isOpen)
            && loop.shutdowns <= 1
  {
    if xs != [] {
      LoopShutdowns(xs[..|xs| - 1]);
    }
  }

  // ----- what each request is told

  /** Whether some line opened the budget. */
  predicate HasOpened(xs: seq<Exchange>) {
    exists k :: 0 <= k < |xs| && OpenSucceeds(xs[k])
  }

  /** What a request must be told, given whether the budget has been opened: the value its attempt
      returned, the refusal or the failure that took its place, or why it was not attempted. */
  predicate IsToldRight(x: Exchange, wasOpened: bool, body: Body) {
    x.line.Request? ==>
      var operation, world := x.line.operation, x.world;
      && (world.stalls ==> body == ErrorBody("operation-timeout", true))
      && (!world.stalls && operation.NotAString? ==> body == ErrorBody("bad-request", false))
      && (!world.stalls && operation.OpenBudget? ==>
            match world.attempt
            case Returns(value) => body == OkBody(value)
            case ThrowsApi(code) => body == ErrorBody(code, true)
            case Throws => body == ErrorBody("unhandled", true))
      && (!world.stalls && (operation.CloseBudget? || operation.Named?) && !wasOpened ==>
            body == ErrorBody("session-not-open", true))
      && (!world.stalls && operation.CloseBudget? && wasOpened ==>
            && (!world.shutsDown ==> body == ErrorBody("unhandled", true))
            && (world.shutsDown && !world.syncs ==> body == ErrorBody("sync-failed", false))
            && (world.shutsDown && world.syncs ==> body == OkBody("{}")))
      && (!world.stalls && operation.Named? && wasOpened ==>
            && (IsListed(operation.name) ==>
                  match world.attempt
                  case Returns(value) =>
                    body == if WritesByName(operation.name) && !world.syncs then ErrorBody("sync-failed", true) else OkBody(value)
                  case ThrowsApi(code) => body == ErrorBody(code, false)
                  case Throws => body == ErrorBody("unhandled", true))
            && (!IsListed(operation.name) ==> body == ErrorBody("unknown-operation", true)))
  }

  /** The three operations that write, and the eleven that only read. */
  predicate WritesByName(name: string) {
    name == "add-transaction" || name == "import-transaction" || name == "ensure-payee"
  }

  predicate IsListed(name: string) {
    || WritesByName(name)
    || name == "list-accounts" || name == "get-balance" || name == "get-last-transaction" || name == "get-balance-at"
    || name == "get-account-note" || name == "find-transaction" || name == "get-budget-month" || name == "get-payees"
    || name == "get-schedules" || name == "get-payee-totals" || name == "get-category-projection"
  }

  lemma OperationsByName(operation: Operation)
    ensures IsHandler(operation) <==> operation.Named? && IsListed(operation.name)
    ensures IsWrite(operation) <==> operation.Named? && WritesByName(operation.name)
  {
  }

  lemma DispatchTellsRight(x: Exchange, isOpen: bool)
    requires x.line.Request?
    ensures IsToldRight(x, isOpen, DispatchOperation(x.line.operation, isOpen, x.world).body)
  {
    OperationsByName(x.line.operation);
    hide IsHandler, IsWrite, IsListed, WritesByName;
  }

  /** Over all lists of lines: the request on a line taken gets, as the frame in its place, exactly
      what it must be told. */
  lemma {:induction false} LoopTellsRight(xs: seq<Exchange>, i: nat)
    requires i < |xs| && i < Turns(xs).taken && xs[i].line.Request?
    ensures var j := |AnswerIds(xs[..i])|;
            && j < |Turns(xs).frames| && Turns(xs).frames[j].id == xs[i].line.id
            && IsToldRight(xs[i], HasOpened(xs[..i]), Turns(xs).frames[j].body)
  {
    hide DispatchOperation, Ends, ShutdownCalls, IsToldRight, HasOpened, AnswerIds;
    var front := xs[..|xs| - 1];
    LoopFrames(front);
    FramesStay(xs);
    if i < Turns(front).taken {
      LoopTellsRight(front, i);
      assert front[..i] == xs[..i] && front[i] == xs[i];
    } else {
      assert i == |front|;
      assert front[..|front|] == front == xs[..i];
      LastTellsRight(xs);
    }
  }

  /** One more line takes back no frame. */
  lemma FramesStay(xs: seq<Exchange>)
    requires xs != []
    ensures Turns(xs[..|xs| - 1]).frames <= Turns(xs).frames
    ensures Turns(xs[..|xs| - 1]).stopped ==> Turns(xs).taken == Turns(xs[..|xs| - 1]).taken
    ensures Turns(xs).taken <= Turns(xs[..|xs| - 1]).taken + 1
  {
    hide Turn, Turns;
    LastTurn(xs);
    var loop := Turns(xs[..|xs| - 1]);
    TurnKeepsFrames(loop, xs[|xs| - 1]);
    assert loop.frames <= Turns(xs).frames;
  }

  lemma LastTurn(xs: seq<Exchange>)
    requires xs != []
    ensures Turns(xs) == Turn(Turns(xs[..|xs| - 1]), xs[|xs| - 1])
  {
    hide Turn;
  }

  lemma TurnKeepsFrames(loop: Loop, x: Exchange)
    ensures loop.frames <= Turn(loop, x).frames && Turn(loop, x).taken <= loop.taken + 1
    ensures loop.stopped ==> Turn(loop, x).taken == loop.taken
  {
    hide DispatchOperation, Ends, ShutdownCalls;
    if !loop.stopped {
      match x.line
      case Blank =>
      case NotJson =>
      case Request(_, _) =>
    }
  }

  /** An ok frame carries what the attempt returned, and a write's comes only after its sync; any
      other outcome of an attempt is told as it was. */
  lemma OkIsReturned(xs: seq<Exchange>, i: nat)
    requires i < |xs| && i < Turns(xs).taken && xs[i].line.Request? && |AnswerIds(xs[..i])| < |Turns(xs).frames|
    ensures var operation, world, body := xs[i].line.operation, xs[i].world, Turns(xs).frames[|AnswerIds(xs[..i])|].body;
            && (body.OkBody? ==>
                  && !world.stalls && !operation.NotAString?
                  && (operation.CloseBudget? ==> body.value == "{}" && world.syncs && world.shutsDown)
                  && (!operation.CloseBudget? ==> world.attempt == Returns(body.value))
                  && (operation == Named("add-transaction") ==> world.syncs)
                  && (operation == Named("import-transaction") ==> world.syncs)
                  && (operation == Named("ensure-payee") ==> world.syncs))
            && (RunsHandler(xs[i], HasOpened(xs[..i])) && !world.stalls && world.attempt.ThrowsApi? ==>
                  body == ErrorBody(world.attempt.code, false))
            && (RunsHandler(xs[i], HasOpened(xs[..i])) && !world.stalls && world.attempt.Throws? ==>
                  body == ErrorBody("unhandled", true))
  {
    LoopTellsRight(xs, i);
    OperationsByName(xs[i].line.operation);
    hide Turns, AnswerIds, HasOpened, HANDLERS;
  }

  lemma LastTellsRight(xs: seq<Exchange>)
    requires xs != [] && xs[|xs| - 1].line.Request? && !Turns(xs[..|xs| - 1]).stopped
    ensures var front, x := xs[..|xs| - 1], xs[|xs| - 1];
            var frames := Turns(xs).frames;
            && |frames| == |Turns(front).frames| + 1 && frames[|frames| - 1].id == x.line.id
            && IsToldRight(x, HasOpened(front), frames[|frames| - 1].body)
  {
    hide DispatchOperation, Ends, ShutdownCalls, IsToldRight;
    var front, x := xs[..|xs| - 1], xs[|xs| - 1];
    OpenedMeansOpen(front);
    DispatchTellsRight(x, Turns(front).isOpen);
  }

  /** Whether a line taken is a close that syncs and shuts an opened budget down. */
  predicate IsCleanClose(xs: seq<Exchange>, i: nat) {
    && i < |xs| && i < Turns(xs).taken && xs[i].line.Request? && xs[i].line.operation.CloseBudget?
    && HasOpened(xs[..i]) && !xs[i].world.stalls && xs[i].world.syncs && xs[i].world.shutsDown
  }

  /** The loop knows of a clean close exactly if there was one. */
  lemma {:induction false} CleanlyExactly(xs: seq<Exchange>)
    ensures Turns(xs).closedCleanly <==> exists i: nat :: IsCleanClose(xs, i)
  {
    hide DispatchOperation, Ends, ShutdownCalls, HasOpened;
    if xs != [] {
      var front, n := xs[..|xs| - 1], |xs| - 1;
      CleanlyExactly(front);
      LoopFrames(front);
      FramesStay(xs);
      CleanlyLast(xs);
      forall i: nat | i < n
        ensures IsCleanClose(front, i) <==> IsCleanClose(xs, i)
      {
        assert front[..i] == xs[..i];
        TakenStays(xs);
      }
      assert front == xs[..n];
    }
  }

  lemma TakenStays(xs: seq<Exchange>)
    requires xs != []
    ensures Turns(xs[..|xs| - 1]).taken == Turns(xs).taken || (Turns(xs[..|xs| - 1]).taken == |xs| - 1 && Turns(xs).taken == |xs|)
  {
    hide DispatchOperation, Ends, ShutdownCalls;
    LoopFrames(xs[..|xs| - 1]);
  }

  /** The last line makes the difference between what the loop knew and what it knows. */
  lemma CleanlyLast(xs: seq<Exchange>)
    requires xs != []
    ensures var front, n := xs[..|xs| - 1], |xs| - 1;
            Turns(xs).closedCleanly <==> Turns(front).closedCleanly || IsCleanClose(xs, n)
  {
    hide Ends, ShutdownCalls;
    var front, x := xs[..|xs| - 1], xs[|xs| - 1];
    LoopFrames(front);
    if !Turns(front).stopped && x.line.Request? && x.line.operation.CloseBudget? {
      OpenedMeansOpen(front);
      CloseTold(x, Turns(front).isOpen);
      hide DispatchOperation;
    }
  }

  lemma CloseTold(x: Exchange, isOpen: bool)
    requires x.line.Request? && x.line.operation.CloseBudget?
    ensures DispatchOperation(x.line.operation, isOpen, x.world).body.OkBody? <==>
            isOpen && !x.world.stalls && x.world.syncs && x.world.shutsDown
  {
  }

  /** Whether a line taken is a close that gets as far as shutting an opened budget down. */
  predicate CallsShutdown(xs: seq<Exchange>, i: nat) {
    && i < |xs| && i < Turns(xs).taken && xs[i].line.Request? && xs[i].line.operation.CloseBudget?
    && HasOpened(xs[..i]) && (xs[i].world.stalls ==> xs[i].world.stalledInShutdown)
  }

  /** Inside the loop shutdown is called once if a close gets that far, and otherwise never. */
  lemma {:induction false} ShutdownsExactly(xs: seq<Exchange>)
    ensures Turns(xs).shutdowns == if exists i: nat :: CallsShutdown(xs, i) then 1 else 0
  {
    hide DispatchOperation, Ends, ShutdownCalls, HasOpened;
    LoopShutdowns(xs);
    if xs != [] {
      var front, n := xs[..|xs| - 1], |xs| - 1;
      ShutdownsExactly(front);
      LoopFrames(front);
      TakenStays(xs);
      ShutdownLast(xs);
      forall i: nat | i < n
        ensures CallsShutdown(front, i) <==> CallsShutdown(xs, i)
      {
        assert front[..i] == xs[..i];
      }
      assert front == xs[..n];
    }
  }

  lemma ShutdownLast(xs: seq<Exchange>)
    requires xs != []
    ensures var front, n := xs[..|xs| - 1], |xs| - 1;
            Turns(xs).shutdowns == Turns(front).shutdowns + if CallsShutdown(xs, n) then 1 else 0
  {
    hide DispatchOperation, Ends;
    var front, x := xs[..|xs| - 1], xs[|xs| - 1];
    LoopFrames(front);
    if !Turns(front).stopped {
      OpenedMeansOpen(front);
    }
  }

  /** The loop is left only by the last line it took: a close, or a request answered with a fatal
      error. */
  lemma {:induction false} StoppedByLast(xs: seq<Exchange>)
    ensures var loop := Turns(xs);
            loop.stopped ==>
              && 1 <= loop.taken <= |xs| && xs[loop.taken - 1].line.Request? && loop.frames != []
              && (xs[loop.taken - 1].line.operation.CloseBudget? ||
                  (loop.frames[|loop.frames| - 1].body.ErrorBody? && loop.frames[|loop.frames| - 1].body.fatal))
  {
    hide DispatchOperation, ShutdownCalls;
    if xs != [] {
      StoppedByLast(xs[..|xs| - 1]);
      LoopFrames(xs[..|xs| - 1]);
    }
  }

  /** A fatal frame, or the answer to a close, is the last frame ever written. */
  lemma {:induction false} FatalFrameIsLast(xs: seq<Exchange>, i: nat)
    requires i < |Turns(xs).frames| && IsFatal(Turns(xs).frames[i].body)
    ensures i == |Turns(xs).frames| - 1 && Turns(xs).stopped
  {
    hide DispatchOperation, ShutdownCalls;
    if xs != [] {
      var front := xs[..|xs| - 1];
      if i < |Turns(front).frames| {
        FatalFrameIsLast(front, i);
      }
    }
  }

  /** An acknowledged write has been synced: the ok body of a write means its sync succeeded. */
  lemma WriteAcknowledgedAfterSync(operation: Operation, isOpen: bool, world: World)
    requires IsWrite(operation)
    ensures DispatchOperation(operation, isOpen, world).body.OkBody? <==>
            isOpen && !world.stalls && world.attempt.Returns? && world.syncs
    ensures isOpen && !world.stalls && world.attempt.Returns? && !world.syncs ==>
            IsFatal(DispatchOperation(operation, isOpen, world).body)
  {
  }
}
