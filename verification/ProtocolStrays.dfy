/** What a caller that goes away while its request is on the pipe does to the next one. */
module ProtocolStrays {
  import opened Common
  import opened Serve
  import opened Session
  import opened Protocol

  // ----- single steps from explicit states

  lemma Sent(s: System, operation: Operation)
    requires s.holder.NoCall? && s.client.state.Open? && !s.partial
    ensures var id := s.client.nextId;
            Do(Do(s, Begin(operation)), FinishWrite) ==
            s.(client := s.client.(nextId := id + 1), issued := s.issued[id := operation],
               holder := Waiting(id, operation), toServer := s.toServer + [Request(Some(id), operation)])
  {
  }

  /** One caller goes away and the next one sends its request. */
  lemma Replaced(s: System, next: Operation)
    requires s.holder.Waiting? && s.client.state.Open? && !s.partial
    ensures var id := s.client.nextId;
            Do(Do(Do(s, Cancel(false)), Begin(next)), FinishWrite) ==
            s.(client := s.client.(nextId := id + 1), issued := s.issued[id := next],
               holder := Waiting(id, next), toServer := s.toServer + [Request(Some(id), next)], strays := s.strays + 1)
  {
    var gone := s.(holder := NoCall, strays := s.strays + 1);
    assert Do(s, Cancel(false)) == gone;
    hide Do;
    Sent(gone, next);
  }

  lemma Taken(s: System, id: nat, operation: Operation)
    requires s.server.alive && s.server.phase.Idle?
    requires s.toServer != [] && s.toServer[0] == Request(Some(id), operation)
    ensures Do(s, Take) ==
            s.(toServer := s.toServer[1..], taken := id, server := s.server.(phase := Busy(Some(id), operation, Started)))
  {
  }

  lemma Replied(s: System, world: World, id: nat)
    requires s.server.alive && s.server.phase.Busy? && s.server.phase.id == Some(id)
    requires Agrees(s.server.phase, s.server.isOpen, world)
    ensures var t := Do(s, Reply(world));
            var body := DispatchOperation(s.server.phase.operation, s.server.isOpen, world).body;
            && (t.client, t.holder, t.issued, t.results) == (s.client, s.holder, s.issued, s.results)
            && (t.toServer, t.partial, t.strays) == (s.toServer, s.partial, s.strays)
            && t.replies == s.replies[id := body]
            && t.toClient == s.toClient + [ToResponse(Frame(Some(id), body))]
  {
    hide DispatchOperation, Agrees, SyncFails, Ends, ToResponse;
  }

  /** Whatever request an error frame is about, or none, the call that reads it fails with it. */
  lemma ErrorRead(s: System, id: Option<nat>, code: string, fatal: bool)
    requires s.holder.Waiting? && s.client.state.Open?
    requires s.toClient != [] && s.toClient[0] == ToResponse(Frame(id, ErrorBody(code, fatal)))
    ensures var t := Do(s, Read);
            && t.results == s.results[s.holder.id := Err(Api(code, fatal))]
            && (t.issued, t.replies, t.toServer, t.strays) == (s.issued, s.replies, s.toServer, s.strays)
            && (t.client.state.Open? <==> !fatal)
  {
  }

  lemma AfterMore(steps: seq<Step>, step: Step)
    ensures After(steps + [step]) == Do(After(steps), step)
  {
    hide Do;
    assert (steps + [step])[..|steps|] == steps;
  }

  // ----- a request that has not been answered

  /** Whether a call waits on a request that has not been answered yet: it is on its way to an idle
      server, or in the server's hands. */
  predicate Unanswered(s: System) {
    && s.client.state.Open? && s.holder.Waiting? && !s.partial && s.toClient == [] && s.server.alive
    && if s.server.phase.Busy?
       then s.server.phase.id == Some(s.holder.id) && s.server.phase.operation == s.holder.operation && s.toServer == []
       else s.server.phase.Idle? && s.toServer == [Request(Some(s.holder.id), s.holder.operation)]
  }

  /** Whether the server, in a given world, answers the request of the waiting call with an error. */
  predicate Fails(s: System, world: World, code: string, fatal: bool)
    requires s.holder.Waiting?
  {
    && DispatchOperation(s.holder.operation, s.server.isOpen, world).body == ErrorBody(code, fatal)
    && Agrees(if s.server.phase.Busy? then s.server.phase else Busy(Some(s.holder.id), s.holder.operation, Started),
              s.server.isOpen, world)
  }

  /** The caller has gone; another one sends its request, the server answers the first one, and the
      other caller reads. */
  function NextCall(s: System, next: Operation, world: World): seq<Step> {
    [Begin(next), FinishWrite] + (if s.server.phase.Idle? then [Take] else []) + [Reply(world), Read]
  }

  /** What the next caller gets, and what is left behind. */
  predicate Misdelivered(s: System, t: System, next: Operation, code: string, fatal: bool)
    requires s.holder.Waiting?
  {
    var id := s.client.nextId;
    && t.results == s.results[id := Err(Api(code, fatal))]
    && t.issued == s.issued[id := next] && t.replies == s.replies[s.holder.id := ErrorBody(code, fatal)]
    && t.toServer == [Request(Some(id), next)] && t.strays == s.strays + 1
    && (t.client.state.Open? <==> !fatal)
  }

  function Gone(s: System, next: Operation): System {
    Do(Do(Do(s, Cancel(false)), Begin(next)), FinishWrite)
  }

  lemma FailedWhenGone(s: System, next: Operation, world: World, code: string, fatal: bool)
    requires Unanswered(s) && Fails(s, world, code, fatal)
    ensures var gone := Gone(s, next);
            var taken := if s.server.phase.Idle? then Do(gone, Take) else gone;
            Misdelivered(s, Do(Do(taken, Reply(world)), Read), next, code, fatal)
  {
    hide Do, DispatchOperation, Agrees;
    Replaced(s, next);
    var gone := Gone(s, next);
    var taken := if s.server.phase.Idle? then Do(gone, Take) else gone;
    if s.server.phase.Idle? {
      Taken(gone, s.holder.id, s.holder.operation);
    }
    Replied(taken, world, s.holder.id);
    ErrorRead(Do(taken, Reply(world)), Some(s.holder.id), code, fatal);
  }

  lemma NextCallTaken(steps: seq<Step>, next: Operation, world: World)
    ensures var s := After(steps);
            var gone := Gone(s, next);
            var taken := if s.server.phase.Idle? then Do(gone, Take) else gone;
            After(steps + [Cancel(false)] + NextCall(s, next, world)) == Do(Do(taken, Reply(world)), Read)
  {
    hide Do, After;
    var idle := After(steps).server.phase.Idle?;
    var one := steps + [Cancel(false)];
    var two := one + [Begin(next)];
    var three := two + [FinishWrite];
    var four := if idle then three + [Take] else three;
    var five := four + [Reply(world)];
    AfterMore(steps, Cancel(false));
    AfterMore(one, Begin(next));
    AfterMore(two, FinishWrite);
    AfterMore(three, Take);
    AfterMore(four, Reply(world));
    AfterMore(five, Read);
    assert five + [Read] == one + NextCall(After(steps), next, world);
  }

  /** In any run, when a call waits on a request that has not been answered, and its caller goes
      away, the next caller, whatever it asks for, can be failed with any error the server may give
      to that request. The server has not seen the next request; unless the error is fatal the
      session stays open. */
  lemma AbandonedErrorIsMisdelivered(steps: seq<Step>, next: Operation, world: World, code: string, fatal: bool)
    requires Unanswered(After(steps)) && Fails(After(steps), world, code, fatal)
    ensures var s := After(steps);
            var t := After(steps + [Cancel(false)] + NextCall(s, next, world));
            Misdelivered(s, t, next, code, fatal) && s.client.nextId !in t.replies
  {
    InvAlways(steps);
    NextIdUnused(After(steps));
    hide Do, After, Unanswered, Fails, Inv;
    NextCallTaken(steps, next, world);
    FailedWhenGone(After(steps), next, world, code, fatal);
  }

  lemma NextIdUnused(s: System)
    requires Inv(s)
    ensures s.client.nextId !in s.issued && s.client.nextId !in s.replies && s.client.nextId !in s.results
    ensures s.holder.Waiting? ==> s.holder.id < s.client.nextId
  {
    hide LinesInOrder, HandInOrder, ResponsesTrue, ClosedIsOver, FailedSyncIsLast, IsWrite;
  }

  function Refuses(code: string): World {
    World(false, ThrowsApi(code), true, true, false)
  }

  const STALLS: World := World(true, Throws, false, false, false)
  const NO_FINAL_SYNC: World := World(false, Throws, false, true, false)

  /** Which errors those may be: any refusal of a handler, a failed final sync of a close, and a
      fatal timeout of any request at all. */
  lemma WaysToFail(s: System, code: string)
    requires Unanswered(s)
    ensures s.server.isOpen && IsHandler(s.holder.operation) ==> Fails(s, Refuses(code), code, false)
    ensures s.server.isOpen && s.holder.operation.CloseBudget? ==> Fails(s, NO_FINAL_SYNC, "sync-failed", false)
    ensures Fails(s, STALLS, "operation-timeout", true)
  {
  }

  // ----- a request that has been answered with an error

  /** The same happens when the error is already on the pipe as the caller goes away. */
  lemma AnsweredErrorIsMisdelivered(steps: seq<Step>, next: Operation, code: string, fatal: bool)
    requires var s := After(steps);
             && s.client.state.Open? && s.holder.Waiting? && !s.partial
             && s.toClient != [] && s.toClient[0] == ToResponse(Frame(Some(s.holder.id), ErrorBody(code, fatal)))
    ensures var s, t := After(steps), After(steps + [Cancel(false)] + [Begin(next), FinishWrite, Read]);
            var id := s.client.nextId;
            && t.results == s.results[id := Err(Api(code, fatal))] && id !in t.replies
            && t.issued == s.issued[id := next] && t.strays == s.strays + 1
            && (t.client.state.Open? <==> !fatal)
  {
    var s := After(steps);
    InvAlways(steps);
    NextIdUnused(s);
    hide Do, After, Inv, ToResponse;
    var one := steps + [Cancel(false)];
    var two := one + [Begin(next)];
    var three := two + [FinishWrite];
    AfterMore(steps, Cancel(false));
    AfterMore(one, Begin(next));
    AfterMore(two, FinishWrite);
    AfterMore(three, Read);
    assert three + [Read] == one + [Begin(next), FinishWrite, Read];
    Replaced(s, next);
    ErrorRead(Gone(s, next), Some(s.holder.id), code, fatal);
  }

  // ----- a line left unfinished

  const BAD_JSON: Body := ErrorBody("bad-request-json", false)

  /** What follows the departure of a caller that left an unfinished line. */
  function Garbles(next: Operation): seq<Step> {
    [Begin(next), FinishWrite, Take, Read]
  }

  lemma GarbledNext(s: System, next: Operation)
    requires s.client.state.Open? && s.holder.Writing? && s.toServer == [] && s.toClient == []
    requires s.server.alive && s.server.phase.Idle?
    ensures var t := Do(Do(Do(Do(Do(s, Cancel(true)), Begin(next)), FinishWrite), Take), Read);
            var id := s.client.nextId;
            && t.results == s.results[id := Err(Api("bad-request-json", false))]
            && t.issued == s.issued[id := next] && t.replies == s.replies
            && t.strays == s.strays + 1 && t.client.state.Open?
  {
    hide Do, ToResponse;
    LeftUnfinished(s, next);
    var sent := Do(Do(Do(s, Cancel(true)), Begin(next)), FinishWrite);
    Rejected(sent);
    ErrorRead(Do(sent, Take), None, "bad-request-json", false);
  }

  lemma LeftUnfinished(s: System, next: Operation)
    requires s.client.state.Open? && s.holder.Writing? && s.toServer == []
    ensures var id := s.client.nextId;
            Do(Do(Do(s, Cancel(true)), Begin(next)), FinishWrite) ==
            s.(client := s.client.(nextId := id + 1), issued := s.issued[id := next], holder := Waiting(id, next),
               partial := false, toServer := [Line.NotJson], strays := s.strays + 1)
  {
  }

  lemma Rejected(s: System)
    requires s.server.alive && s.server.phase.Idle? && s.toServer == [Line.NotJson]
    ensures Do(s, Take) == s.(toServer := [], toClient := s.toClient + [ToResponse(Frame(None, BAD_JSON))],
                              served := s.served + [Exchange(Line.NotJson, UNUSED)])
  {
    hide ToResponse;
  }

  /** A caller that goes away in the middle of its line spoils the next one: the server rejects the
      two as one line that is not JSON, the next caller is told that its request was malformed, and
      neither request is ever seen. The session stays open. */
  lemma UnfinishedLineIsMisdelivered(steps: seq<Step>, next: Operation)
    requires var s := After(steps);
             && s.client.state.Open? && s.holder.Writing? && s.toServer == [] && s.toClient == []
             && s.server.alive && s.server.phase.Idle?
    ensures var s, t := After(steps), After(steps + [Cancel(true)] + Garbles(next));
            var id := s.client.nextId;
            && t.results == s.results[id := Err(Api("bad-request-json", false))] && id !in t.replies
            && t.issued == s.issued[id := next] && t.replies == s.replies
            && t.strays == s.strays + 1 && t.client.state.Open?
  {
    InvAlways(steps);
    NextIdUnused(After(steps));
    GarblesTaken(steps, next);
    GarbledNext(After(steps), next);
    hide Do, After, Inv, Garbles;
  }

  lemma GarblesTaken(steps: seq<Step>, next: Operation)
    ensures After(steps + [Cancel(true)] + Garbles(next))
         == Do(Do(Do(Do(Do(After(steps), Cancel(true)), Begin(next)), FinishWrite), Take), Read)
  {
    hide Do, After;
    var one := steps + [Cancel(true)];
    var two := one + [Begin(next)];
    var three := two + [FinishWrite];
    var four := three + [Take];
    AfterMore(steps, Cancel(true));
    AfterMore(one, Begin(next));
    AfterMore(two, FinishWrite);
    AfterMore(three, Take);
    AfterMore(four, Read);
    assert four + [Read] == one + Garbles(next);
  }

  // ----- one such run

  const LIST_ACCOUNTS: Operation := Named("list-accounts")
  const GET_BALANCE: Operation := Named("get-balance")
  const OPENS: World := World(false, Returns("[]"), true, true, false)

  /** The budget is opened and one caller waits for a balance. */
  const OPENING: seq<Step> := [Begin(OpenBudget)] + [FinishWrite] + [Take] + [Reply(OPENS)] + [Read]
  const BALANCE_ASKED: seq<Step> := OPENING + [Begin(GET_BALANCE)] + [FinishWrite]

  const OPENED: System := System(
    Client(Open, 2, Running), NoCall, map[], map[1 := OpenBudget], map[1 := Ok("[]")], [], false, [],
    Server(true, true, Idle), 1, map[1 := OkBody("[]")], {}, {}, {}, 0, [Exchange(Request(Some(1), OpenBudget), OPENS)], [])

  lemma OpeningRun()
    ensures After(OPENING) == OPENED
  {
    var sent := Do(Do(INITIAL, Begin(OpenBudget)), FinishWrite);
    Sent(INITIAL, OpenBudget);
    Taken(sent, 1, OpenBudget);
    OpenReplied(Do(sent, Take));
    FirstAnswerRead();
    OpeningTaken();
    hide Do, After, DispatchOperation;
  }

  lemma OpeningTaken()
    ensures After(OPENING) == Do(Do(Do(Do(Do(INITIAL, Begin(OpenBudget)), FinishWrite), Take), Reply(OPENS)), Read)
  {
    hide Do;
    var one := [Begin(OpenBudget)];
    assert After([]) == INITIAL;
    assert [] + one == one;
    AfterMore([], Begin(OpenBudget));
    hide After;
    AfterMore(one, FinishWrite);
    AfterMore(one + [FinishWrite], Take);
    AfterMore(one + [FinishWrite] + [Take], Reply(OPENS));
    AfterMore(one + [FinishWrite] + [Take] + [Reply(OPENS)], Read);
  }

  lemma OpenReplied(s: System)
    requires s.server == Server(true, false, Busy(Some(1), OpenBudget, Started))
    ensures Do(s, Reply(OPENS)) ==
            s.(server := Server(true, true, Idle), replies := s.replies[1 := OkBody("[]")],
               served := s.served + [Exchange(Request(Some(1), OpenBudget), OPENS)],
               toClient := s.toClient + [ToResponse(Frame(Some(1), OkBody("[]")))])
  {
    assert !IsWrite(OpenBudget);
    assert DispatchOperation(OpenBudget, false, OPENS) == Outcome(true, OkBody("[]"));
    hide DispatchOperation, IsWrite, ToResponse;
  }

  lemma FirstAnswerRead()
    ensures Do(OPENED.(holder := Waiting(1, OpenBudget), results := map[], toServer := ([] + [Request(Some(1), OpenBudget)])[1..],
                       toClient := [] + [ToResponse(Frame(Some(1), OkBody("[]")))]), Read) == OPENED
  {
  }

  /** Here the listing of accounts, never seen by the server, fails with the refusal of the
      abandoned request for a balance. */
  lemma StrayErrorIsMisdelivered()
    ensures Unanswered(After(BALANCE_ASKED))
    ensures var s := After(BALANCE_ASKED + [Cancel(false)]
                           + NextCall(After(BALANCE_ASKED), LIST_ACCOUNTS, Refuses("account-not-found")));
            && s.issued == map[1 := OpenBudget, 2 := GET_BALANCE, 3 := LIST_ACCOUNTS]
            && 3 in s.results && s.results[3] == Err(Api("account-not-found", false))
            && s.replies.Keys == {1, 2} && s.toServer == [Request(Some(3), LIST_ACCOUNTS)]
            && s.client.state.Open?
  {
    OpeningRun();
    AfterMore(OPENING, Begin(GET_BALANCE));
    AfterMore(OPENING + [Begin(GET_BALANCE)], FinishWrite);
    Sent(OPENED, GET_BALANCE);
    hide Do, After, Fails;
    WaysToFail(After(BALANCE_ASKED), "account-not-found");
    AbandonedErrorIsMisdelivered(BALANCE_ASKED, LIST_ACCOUNTS, Refuses("account-not-found"), "account-not-found", false);
  }
}
