/** The client side of the bridge: one session over one child process.

    The session's mutex makes each section below atomic. What the pipe yields to a request
    is an input, a `RoundTrip`; what other callers do between two sections of a `close` is an
    input as well, a sequence of `Section`s. */
module Session {
  import opened Common
  import opened Serve

  datatype Reason = TimedOut | IoFailed | ProcessEnded | Unparsable | IdMismatch(sent: nat, got: Option<nat>) | FatalError(code: string)

  datatype State = Open | Closed | Poisoned(reason: Reason)

  /** `Reaped`: the process has ended and has been waited for. `Absent`: there is none (the
      in-memory form of a session). */
  datatype Child = Absent | Running | Killed | Reaped

  /** The error field of a response: well formed, or not what the client can decode. */
  datatype ErrorField = ApiError(code: string, fatal: bool) | Undecodable

  datatype Response =
    | NotJson
    | Json(id: Option<nat>, error: Option<ErrorField>, ok: Option<Value>)

  datatype RoundTrip = Elapsed | PipeFails | EndOfFile | Received(response: Response)

  datatype Error =
    | SessionClosed
    | Timeout
    | Bridge
    | Protocol
    | Api(code: string, fatal: bool)
    | Conversion

  type InvokeResult = Result<Value, Error>

  datatype Client = Client(state: State, nextId: nat, child: Child)

  const NULL_VALUE: Value := "null"

  function Kill(child: Child): Child {
    if child.Running? then Killed else child
  }

  /** The process is waited for; a session without one has nothing to wait for. */
  function Reap(child: Child): Child {
    if child.Absent? then Absent else Reaped
  }

  /** What a received response does to a session waiting for the answer to request `id`. */
  function Receive(client: Client, id: nat, response: Response): (Client, InvokeResult) {
    match response
    case NotJson => (client.(state := Poisoned(Unparsable)), Err(Protocol))
    case Json(got, Some(ApiError(code, fatal)), _) =>
      (if fatal then client.(state := Poisoned(FatalError(code))) else client, Err(Api(code, fatal)))
    case Json(got, Some(Undecodable), _) => (client, Err(Conversion))
    case Json(got, None, ok) =>
      if got != Some(id) then (client.(state := Poisoned(IdMismatch(id, got))), Err(Protocol))
      else (client, Ok(if ok.Some? then ok.value else NULL_VALUE))
  }

  function AfterRoundTrip(client: Client, id: nat, trip: RoundTrip): (Client, InvokeResult) {
    match trip
    case Elapsed => (client.(state := Poisoned(TimedOut), child := Kill(client.child)), Err(Timeout))
    case PipeFails => (client.(state := Poisoned(IoFailed)), Err(Bridge))
    case EndOfFile => (client.(state := Poisoned(ProcessEnded), child := Reap(client.child)), Err(Protocol))
    case Received(response) => Receive(client, id, response)
  }

  /** One critical section of a caller. `Cancelled` is an invoke dropped while it waits: it has
      used up its id and left everything else alone. `CloseCheck` is the first section of a
      close and `CloseFinish` its last. */
  datatype Section = Invoke(trip: RoundTrip) | Cancelled | CloseCheck | CloseFinish

  function Run(client: Client, section: Section): Client {
    match section
    case Invoke(trip) =>
      if client.state.Open? then AfterRoundTrip(client.(nextId := client.nextId + 1), client.nextId, trip).0 else client
    case Cancelled =>
      if client.state.Open? then client.(nextId := client.nextId + 1) else client
    case CloseCheck =>
      if client.state.Poisoned? then client.(state := Closed, child := Reap(client.child)) else client
    case CloseFinish => client.(state := Closed, child := Reap(client.child))
  }

  function RunAll(client: Client, sections: seq<Section>): Client {
    if sections == [] then client
    else Run(RunAll(client, sections[..|sections| - 1]), sections[|sections| - 1])
  }

  /** A closed session has no running child. */
  predicate Tidy(client: Client) {
    client.state.Closed? ==> client.child.Absent? || client.child.Reaped?
  }

  class BridgeSession {
    var state: State
    var nextId: nat
    var child: Child

    function Snapshot(): Client
      reads this
    {
      Client(state, nextId, child)
    }

    constructor (hasChild: bool)
      ensures Snapshot() == Client(Open, 1, if hasChild then Running else Absent)
    {
      state := Open;
      nextId := 1;
      child := if hasChild then Running else Absent;
    }

    /** Sends one request and returns its answer. A value is returned exactly when the session
        was open and the response is free of error and carries this request's own id. */
    method Invoke(trip: RoundTrip) returns (result: InvokeResult)
      modifies this
      ensures Snapshot() == Run(old(Snapshot()), Section.Invoke(trip))
      ensures !old(state).Open? ==> Snapshot() == old(Snapshot()) && result == Err(SessionClosed)
      ensures old(state).Open? ==> result == AfterRoundTrip(Client(Open, nextId, old(child)), old(nextId), trip).1
      ensures result.Ok? <==>
              old(state).Open? && trip.Received? && trip.response.Json?
              && trip.response.error.None? && trip.response.id == Some(old(nextId))
      ensures result.Ok? ==> result.value == if trip.response.ok.Some? then trip.response.ok.value else "null"
      ensures old(state).Open? ==> nextId == old(nextId) + 1
      ensures result.Ok? ==> state == Open && child == old(child)
      ensures old(state).Open? && trip.Elapsed? ==>
              result == Err(Timeout) && state == Poisoned(TimedOut)
              && child == if old(child).Running? then Killed else old(child)
      ensures old(state).Open? && trip.PipeFails? ==>
              result == Err(Bridge) && state == Poisoned(IoFailed) && child == old(child)
      ensures old(state).Open? && trip.EndOfFile? ==>
              result == Err(Protocol) && state == Poisoned(ProcessEnded)
              && child == if old(child).Absent? then Absent else Reaped
      ensures old(state).Open? && trip == Received(Response.NotJson) ==>
              result == Err(Protocol) && state == Poisoned(Unparsable) && child == old(child)
      ensures old(state).Open? && trip.Received? && trip.response.Json? ==>
              child == old(child) && match trip.response.error
              case Some(ApiError(code, fatal)) =>
                result == Err(Api(code, fatal)) && state == if fatal then Poisoned(FatalError(code)) else Open
              case Some(Undecodable) => result == Err(Conversion) && state == Open
              case None =>
                trip.response.id != Some(old(nextId)) ==>
                  result == Err(Protocol) && state == Poisoned(IdMismatch(old(nextId), trip.response.id))
      ensures old(Tidy(Snapshot())) ==> Tidy(Snapshot())
    {
      if state.Closed? || state.Poisoned? {
        return Err(SessionClosed);
      }
      var id := nextId;
      nextId := nextId + 1;
      match trip {
        case Elapsed =>
          state := Poisoned(TimedOut);
          child := Kill(child);
          return Err(Timeout);
        case PipeFails =>
          state := Poisoned(IoFailed);
          return Err(Bridge);
        case EndOfFile =>
          child := Reap(child);
          state := Poisoned(ProcessEnded);
          return Err(Protocol);
        case Received(NotJson) =>
          state := Poisoned(Unparsable);
          return Err(Protocol);
        case Received(Json(got, error, ok)) =>
          if error.Some? {
            match error.value {
              case Undecodable =>
                return Err(Conversion);
              case ApiError(code, fatal) =>
                if fatal {
                  state := Poisoned(FatalError(code));
                }
                return Err(Api(code, fatal));
            }
          }
          if got != Some(id) {
            state := Poisoned(IdMismatch(id, got));
            return Err(Protocol);
          }
          return Ok(if ok.Some? then ok.value else NULL_VALUE);
      }
    }

    /** What other callers do while a close waits for the mutex. */
    method Others(sections: seq<Section>)
      modifies this
      ensures Snapshot() == RunAll(old(Snapshot()), sections)
    {
      for i := 0 to |sections|
        invariant Snapshot() == RunAll(old(Snapshot()), sections[..i])
      {
        var client := Run(Snapshot(), sections[i]);
        assert sections[..i + 1][..i] == sections[..i];
        state, nextId, child := client.state, client.nextId, client.child;
      }
      assert sections[..|sections|] == sections;
    }

    /** Closes the session whatever other callers do meanwhile: afterwards it is closed and its
        child has ended and been waited for. Closing a closed session changes nothing. Closing an
        open one succeeds exactly if its close request finds the session still open and is answered
        free of error and with its own id; otherwise the error says what became of that request,
        which has used up an id if it was sent. */
    method Close(before: seq<Section>, trip: RoundTrip, after: seq<Section>) returns (result: Result<(), Error>)
      requires Tidy(Snapshot())
      modifies this
      ensures state == Closed && Tidy(Snapshot())
      ensures old(state).Closed? ==> result == Ok(()) && Snapshot() == old(Snapshot())
      ensures old(state).Poisoned? ==> result == Err(SessionClosed) && nextId == old(nextId)
      ensures var sent := RunAll(old(Snapshot()), before);
              old(state).Open? ==>
                && (result.Ok? <==> sent.state.Open? && trip.Received? && trip.response.Json?
                                    && trip.response.error.None? && trip.response.id == Some(sent.nextId))
                && (!sent.state.Open? ==> result == Err(SessionClosed))
                && (sent.state.Open? ==> nextId >= sent.nextId + 1 && (after == [] ==> nextId == sent.nextId + 1))
                && (sent.state.Open? && trip.Elapsed? ==> result == Err(Timeout))
                && (sent.state.Open? && trip.PipeFails? ==> result == Err(Bridge))
                && (sent.state.Open? && (trip.EndOfFile? || trip == Received(Response.NotJson)) ==> result == Err(Error.Protocol))
                && (sent.state.Open? && trip.Received? && trip.response.Json? ==>
                      match trip.response.error
                      case Some(ApiError(code, fatal)) => result == Err(Api(code, fatal))
                      case Some(Undecodable) => result == Err(Conversion)
                      case None => trip.response.id != Some(sent.nextId) ==> result == Err(Error.Protocol))
      ensures old(child).Absent? <==> child.Absent?
      ensures old(state).Poisoned? ==> Snapshot() == Run(old(Snapshot()), CloseCheck)
      ensures old(state).Open? ==>
              Snapshot() == Run(RunAll(Run(RunAll(old(Snapshot()), before), Section.Invoke(trip)), after), CloseFinish)
    {
      match state {
        case Closed =>
          return Ok(());
        case Poisoned(_) =>
          child := Reap(child);
          state := Closed;
          return Err(SessionClosed);
        case Open =>
      }
      Others(before);
      SectionsKeep(old(Snapshot()), before);
      var answer := Invoke(trip);
      ghost var invoked := Snapshot();
      Others(after);
      SectionsKeep(invoked, after);
      child := Reap(child);
      state := Closed;
      result := match answer case Ok(_) => Ok(()) case Err(error) => Err(error);
    }
  }

  // ----- the life of a session, whatever its callers do

  /** Over any sections of any callers: a closed session never changes again; a poisoned one
      stays poisoned for the same reason, using no id, until a close closes it; ids only grow;
      and a closed session's child has been waited for. */
  lemma {:induction false} SectionsKeep(client: Client, sections: seq<Section>)
    ensures var later := RunAll(client, sections);
            && (client.state.Closed? ==> later.state.Closed? && later.nextId == client.nextId)
            && (client.state.Poisoned? ==> (later.state == client.state || later.state.Closed?) && later.nextId == client.nextId)
            && client.nextId <= later.nextId
            && (Tidy(client) ==> Tidy(later))
            && (client.child.Absent? <==> later.child.Absent?)
  {
    if sections != [] {
      SectionsKeep(client, sections[..|sections| - 1]);
    }
  }

  /** A caller that goes away has used up an id of an open session and changed nothing else. */
  lemma CancelledExactly(client: Client)
    ensures Run(client, Cancelled).nextId == client.nextId + (if client.state.Open? then 1 else 0)
    ensures Run(client, Cancelled).state == client.state && Run(client, Cancelled).child == client.child
  {
  }

  /** An ok response that carries another id, or none, is never delivered: it poisons the session. */
  lemma StaleAnswerPoisons(client: Client, id: nat, got: Option<nat>, ok: Option<Value>)
    requires got != Some(id)
    ensures var (after, result) := Receive(client, id, Json(got, None, ok));
            after.state == Poisoned(IdMismatch(id, got)) && result == Err(Protocol)
  {
  }

  /** A session stays open after a response exactly when the response is an answer with its own
      id, an error that is not fatal, or an error it cannot decode. */
  lemma StaysOpenExactly(client: Client, id: nat, response: Response)
    requires client.state.Open?
    ensures Receive(client, id, response).0.state.Open? <==>
            response.Json? && (if response.error.None? then response.id == Some(id)
                               else response.error.value.ApiError? ==> !response.error.value.fatal)
  {
  }
}
