/**
  One CRPC connection: any number of sender threads, the client's input loop, `Close`, and the
  server's loop. A step is a mutex section, the read or write of one encoded item, or a call of a
  method; a run is any interleaving of such steps with failures of the connection.
 */
module Crpc {
  import opened Results

  /** What a method call on the server gives: a reply, or an error with its text. */
  datatype Reply = Returned(value: string) | Failed(err: string)

  datatype Request = Header(name: string, number: nat) | Args(value: string)

  /** A response header carries the error text, empty for success; a body follows only then. */
  datatype Response = Answer(number: nat, err: string) | Body(value: string)

  /** How `done` is called on a call: with the reply, the server's error or an error found locally. */
  datatype Completion = Got(value: string) | ServerError(err: string) | LocalError

  /** Where a call's `send` stands. `Sent`, `GivenUp` and `Rejected` mean that it has returned. */
  datatype Phase = Rejected | Registered | HeaderSent | Sent | Failing | Removed | GivenUp

  datatype Call = Call(name: string, args: string, number: nat, phase: Phase, done: seq<Completion>)

  /** Where the client's input loop stands. */
  datatype Input =
    | Reading
    | GotHeader(number: nat, err: string)
    | Taken(call: Option<nat>, err: string)
    | Draining
    | Ended

  /** Where the server's loop stands. */
  datatype Serving =
    | AwaitHeader
    | AwaitArgs(name: string, number: nat)
    | Invoking(name: string, number: nat, args: string)
    | Replying(number: nat, reply: Reply)
    | SendingBody(value: string)
    | Stopped

  /** A method call the server made, and what came of it. */
  datatype Exec = Exec(name: string, number: nat, args: string, reply: Reply)

  /**
    `requests` and `responses` hold everything ever written to either direction of the connection;
    `read` and `received` say how much of it the other side has decoded. `owner[n]` is the call that
    got number `n`, `executed` the method calls made, `finished` the replies the input loop is done with.
   */
  datatype State = State(
    calls: seq<Call>,
    nextNumber: nat,
    pending: map<nat, nat>,
    closing: bool,
    shutdown: bool,
    connClosed: bool,
    broken: bool,
    input: Input,
    requests: seq<Request>,
    read: nat,
    serving: Serving,
    responses: seq<Response>,
    received: nat,
    owner: seq<nat>,
    executed: seq<Exec>,
    finished: nat)

  /** What callers and methods may be relied on for. */
  datatype Config = Config(serialised: bool, encodable: bool, namedErrors: bool)

  const INIT := State([], 0, map[], false, false, false, false, Reading, [], 0, AwaitHeader, [], 0, [], [], 0)

  /** `guess` is what a decoder may make of an item that is not what it expects. */
  datatype Step =
    | Go(name: string, args: string)
    | WriteHeader(call: nat)
    | WriteArgs(call: nat)
    | WriteFails(call: nat, lost: bool)
    | Remove(call: nat)
    | GiveUp(call: nat)
    | Close
    | CloseConn
    | ReadHeader(guess: Response)
    | ReadHeaderFails
    | Take
    | FinishWithError
    | ReadBody(value: string)
    | ReadBodyFails
    | Drain
    | ServerReadsHeader(guessed: Request)
    | ServerReadsArgs(argument: string)
    | ServerCalls(reply: Reply)
    | ServerWritesHeader
    | ServerWritesBody
    | ServerStops

  predicate InPhase(s: State, c: nat, phase: Phase) {
    c < |s.calls| && s.calls[c].phase == phase
  }

  predicate CanWrite(s: State) {
    !s.broken && !s.connClosed
  }

  predicate CanReceive(s: State) {
    s.received < |s.responses| && !s.connClosed
  }

  predicate Enabled(cfg: Config, s: State, step: Step) {
    match step
    case Go(_, _) => true
    case WriteHeader(c) =>
      InPhase(s, c, Registered) && CanWrite(s) && (cfg.serialised ==> forall x | x in s.calls :: x.phase != HeaderSent)
    case WriteArgs(c) => InPhase(s, c, HeaderSent) && CanWrite(s)
    case WriteFails(c, lost) =>
      || (InPhase(s, c, Registered) && (lost || !CanWrite(s)))
      || (InPhase(s, c, HeaderSent) && (lost || !CanWrite(s) || !cfg.encodable))
    case Remove(c) => InPhase(s, c, Failing)
    case GiveUp(c) => InPhase(s, c, Removed)
    case Close => !s.closing
    case CloseConn => s.closing
    case ReadHeader(guess) =>
      && s.input == Reading && CanReceive(s) && guess.Answer?
      && (s.responses[s.received].Answer? ==> guess == s.responses[s.received])
    case ReadHeaderFails => s.input == Reading
    case Take => s.input.GotHeader?
    case FinishWithError => s.input.Taken? && s.input.err != "" && (s.input.call.Some? ==> s.input.call.value < |s.calls|)
    case ReadBody(value) =>
      && s.input.Taken? && s.input.err == "" && (s.input.call.Some? ==> s.input.call.value < |s.calls|) && CanReceive(s)
      && (s.responses[s.received].Body? ==> value == s.responses[s.received].value)
    case ReadBodyFails => s.input.Taken? && s.input.err == "" && (s.input.call.Some? ==> s.input.call.value < |s.calls|)
    case Drain => s.input == Draining
    case ServerReadsHeader(guess) =>
      && s.serving == AwaitHeader && s.read < |s.requests| && guess.Header?
      && (s.requests[s.read].Header? ==> guess == s.requests[s.read])
    case ServerReadsArgs(args) =>
      && s.serving.AwaitArgs? && s.read < |s.requests|
      && (s.requests[s.read].Args? ==> args == s.requests[s.read].value)
    case ServerCalls(reply) => s.serving.Invoking? && (cfg.namedErrors ==> reply != Failed(""))
    case ServerWritesHeader => s.serving.Replying?
    case ServerWritesBody => s.serving.SendingBody?
    case ServerStops => true
  }

  function SetPhase(s: State, c: nat, phase: Phase): State
    requires c < |s.calls|
  {
    s.(calls := s.calls[c := s.calls[c].(phase := phase)])
  }

  /** `call.done()` with the given outcome. */
  function Complete(s: State, c: nat, d: Completion): State
    requires c < |s.calls|
  {
    s.(calls := s.calls[c := s.calls[c].(done := s.calls[c].done + [d])])
  }

  function CompleteTaken(s: State, d: Completion): State
    requires s.input.Taken? && (s.input.call.Some? ==> s.input.call.value < |s.calls|)
  {
    if s.input.call.Some? then Complete(s, s.input.call.value, d) else s
  }

  /** The clean-up after the input loop: every call still pending is told. */
  function DrainCalls(calls: seq<Call>, pending: map<nat, nat>): seq<Call> {
    seq(|calls|, i requires 0 <= i < |calls| =>
      if i in pending.Values then calls[i].(done := calls[i].done + [LocalError]) else calls[i])
  }

  function ErrText(reply: Reply): string {
    if reply.Failed? then reply.err else ""
  }

  function Register(s: State, name: string, args: string): State {
    if s.closing || s.shutdown then
      s.(calls := s.calls + [Call(name, args, 0, Rejected, [LocalError])])
    else
      s.(calls := s.calls + [Call(name, args, s.nextNumber, Registered, [])],
         pending := s.pending[s.nextNumber := |s.calls|],
         owner := s.owner + [|s.calls|],
         nextNumber := s.nextNumber + 1)
  }

  function Next(cfg: Config, s: State, step: Step): State
    requires Enabled(cfg, s, step)
  {
    match step
    case Go(name, args) => Register(s, name, args)
    case WriteHeader(c) =>
      SetPhase(s, c, HeaderSent).(requests := s.requests + [Header(s.calls[c].name, s.calls[c].number)])
    case WriteArgs(c) => SetPhase(s, c, Sent).(requests := s.requests + [Args(s.calls[c].args)])
    case WriteFails(c, lost) => SetPhase(s, c, Failing).(broken := s.broken || lost)
    case Remove(c) => SetPhase(s, c, Removed).(pending := s.pending - {s.calls[c].number})
    case GiveUp(c) => Complete(SetPhase(s, c, GivenUp), c, LocalError)
    case Close => s.(closing := true)
    case CloseConn => s.(connClosed := true)
    case ReadHeader(guess) => s.(input := GotHeader(guess.number, guess.err), received := s.received + 1)
    case ReadHeaderFails => s.(input := Draining)
    case Take =>
      var n := s.input.number;
      s.(input := Taken(if n in s.pending then Some(s.pending[n]) else None, s.input.err), pending := s.pending - {n})
    case FinishWithError =>
      CompleteTaken(s, ServerError(s.input.err)).(input := Reading, finished := s.finished + 1)
    case ReadBody(value) =>
      CompleteTaken(s, Got(value)).(input := Reading, received := s.received + 1, finished := s.finished + 1)
    case ReadBodyFails => CompleteTaken(s, LocalError).(input := Draining)
    case Drain =>
      s.(calls := DrainCalls(s.calls, s.pending), pending := map[], shutdown := true, input := Ended)
    case ServerReadsHeader(guess) => s.(serving := AwaitArgs(guess.name, guess.number), read := s.read + 1)
    case ServerReadsArgs(args) =>
      s.(serving := Invoking(s.serving.name, s.serving.number, args), read := s.read + 1)
    case ServerCalls(reply) =>
      s.(serving := Replying(s.serving.number, reply),
         executed := s.executed + [Exec(s.serving.name, s.serving.number, s.serving.args, reply)])
    case ServerWritesHeader =>
      var reply := s.serving.reply;
      s.(responses := s.responses + [Answer(s.serving.number, ErrText(reply))],
         serving := if reply.Returned? then SendingBody(reply.value) else AwaitHeader)
    case ServerWritesBody => s.(responses := s.responses + [Body(s.serving.value)], serving := AwaitHeader)
    case ServerStops => s.(serving := Stopped)
  }

  predicate Run(cfg: Config, s: State, steps: seq<Step>)
    decreases |steps|
  {
    steps != [] ==> Enabled(cfg, s, steps[0]) && Run(cfg, Next(cfg, s, steps[0]), steps[1..])
  }

  function After(cfg: Config, s: State, steps: seq<Step>): State
    requires Run(cfg, s, steps)
    decreases |steps|
  {
    if steps == [] then s else After(cfg, Next(cfg, s, steps[0]), steps[1..])
  }

  lemma {:induction false} RunSnoc(cfg: Config, s: State, steps: seq<Step>, step: Step)
    requires Run(cfg, s, steps) && Enabled(cfg, After(cfg, s, steps), step)
    ensures Run(cfg, s, steps + [step]) && After(cfg, s, steps + [step]) == Next(cfg, After(cfg, s, steps), step)
    decreases |steps|
  {
    hide Enabled, Next;
    if steps == [] {
      assert Run(cfg, Next(cfg, s, step), [step][1..]);
    } else {
      assert (steps + [step])[1..] == steps[1..] + [step];
      RunSnoc(cfg, Next(cfg, s, steps[0]), steps[1..], step);
    }
  }

  ghost predicate Leads(cfg: Config, s: State, t: State) {
    exists steps :: Run(cfg, s, steps) && After(cfg, s, steps) == t
  }

  lemma Nowhere(cfg: Config, s: State)
    ensures Leads(cfg, s, s)
  {
    assert Run(cfg, s, []) && After(cfg, s, []) == s;
  }

  lemma Onward(cfg: Config, s: State, t: State, step: Step) returns (u: State)
    requires Leads(cfg, s, t) && Enabled(cfg, t, step)
    ensures Leads(cfg, s, u) && u == Next(cfg, t, step)
  {
    hide Enabled, Next;
    var steps :| Run(cfg, s, steps) && After(cfg, s, steps) == t;
    RunSnoc(cfg, s, steps, step);
    u := Next(cfg, t, step);
  }
}
