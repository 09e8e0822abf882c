/**
  Correlation and framing. When sends do not interleave, arguments encode and errors have a text,
  every completed call carries the outcome of its own method and arguments, and each side always
  finds on the stream the kind of item it is about to decode.
 */
module CrpcCorrelation {
  import opened Results
  import opened Crpc
  import Delivery = CrpcDelivery

  const GOOD := Config(true, true, true)

  // ---------- the response stream ----------

  /** What the server writes for one method call: a header, and a body unless the call failed. */
  function Unit(x: Exec): (r: seq<Response>)
    ensures 1 <= |r| <= 2
  {
    [Answer(x.number, ErrText(x.reply))] + (if x.reply.Returned? then [Body(x.reply.value)] else [])
  }

  function Stream(e: seq<Exec>): seq<Response> {
    if e == [] then [] else Unit(e[0]) + Stream(e[1..])
  }

  function Outcomes(e: seq<Exec>): seq<(nat, Reply)> {
    if e == [] then [] else [(e[0].number, e[0].reply)] + Outcomes(e[1..])
  }

  /** How the client takes the stream apart: a header without error text is followed by a body. */
  function Parse(r: seq<Response>): Option<seq<(nat, Reply)>>
    decreases |r|
  {
    if r == [] then Some([])
    else if r[0].Body? then None
    else if r[0].err != "" then Prepend((r[0].number, Failed(r[0].err)), Parse(r[1..]))
    else if |r| == 1 || r[1].Answer? then None
    else Prepend((r[0].number, Returned(r[1].value)), Parse(r[2..]))
  }

  function Prepend(x: (nat, Reply), rest: Option<seq<(nat, Reply)>>): Option<seq<(nat, Reply)>> {
    if rest.Some? then Some([x] + rest.value) else None
  }

  ghost predicate Named(e: seq<Exec>) {
    forall x | x in e :: x.reply != Failed("")
  }

  /** The client's framing recovers what the server did exactly when no error text is empty. */
  lemma {:induction false} Framing(e: seq<Exec>)
    ensures Parse(Stream(e)) == Some(Outcomes(e)) <==> Named(e)
  {
    if e != [] {
      var x, rest := e[0], Stream(e[1..]);
      var r := Stream(e);
      Framing(e[1..]);
      assert r[0] == Answer(x.number, ErrText(x.reply));
      assert Named(e) <==> x.reply != Failed("") && Named(e[1..]) by {
        assert e == [x] + e[1..];
      }
      if x.reply.Returned? {
        assert r[1] == Body(x.reply.value) && r[2..] == rest;
      } else if x.reply.err != "" {
        assert r[1..] == rest;
      }
      if Parse(r) == Some(Outcomes(e)) {
        assert Parse(r).value[0] == (x.number, x.reply);
        assert Outcomes(e)[1..] == Outcomes(e[1..]);
      }
    }
  }

  lemma {:induction false} StreamSnoc(e: seq<Exec>, x: Exec)
    ensures Stream(e + [x]) == Stream(e) + Unit(x)
  {
    if e == [] {
      assert Stream([]) == [] && [x][1..] == [];
    } else {
      assert (e + [x])[1..] == e[1..] + [x];
      StreamSnoc(e[1..], x);
    }
  }

  /** The units of a stream lie one after the other. */
  lemma {:induction false} StreamAt(e: seq<Exec>, k: nat)
    requires k <= |e|
    ensures Stream(e[..k]) <= Stream(e)
    ensures k < |e| ==> Stream(e[..k + 1]) == Stream(e[..k]) + Unit(e[k]) && Stream(e[..k]) + Unit(e[k]) <= Stream(e)
    decreases |e| - k
  {
    hide Unit;
    if k < |e| {
      assert e[..k + 1] == e[..k] + [e[k]];
      StreamSnoc(e[..k], e[k]);
      StreamAt(e, k + 1);
    } else {
      assert e[..k] == e;
    }
  }

  // ---------- the invariant ----------

  /** `r` is the header of the call that got its number. */
  predicate HeaderOk(s: State, r: Request) {
    r.Header? && r.number < |s.owner| && s.owner[r.number] < |s.calls| && s.calls[s.owner[r.number]].name == r.name
  }

  predicate ArgsOk(s: State, header: Request, r: Request) {
    HeaderOk(s, header) && r == Args(s.calls[s.owner[header.number]].args)
  }

  /** Requests alternate: a header, the arguments of the same call, the next header. */
  ghost predicate RequestsOk(s: State) {
    && (forall i | 0 <= i < |s.requests| && i % 2 == 0 :: HeaderOk(s, s.requests[i]))
    && (forall i | 0 <= i < |s.requests| && i % 2 == 1 :: ArgsOk(s, s.requests[i - 1], s.requests[i]))
  }

  /** While the connection can be written, one call at most is between its header and its arguments. */
  ghost predicate SendsOk(s: State) {
    CanWrite(s) ==>
      && (forall c | 0 <= c < |s.calls| && s.calls[c].phase == HeaderSent ::
            |s.requests| % 2 == 1 && s.requests[|s.requests| - 1] == Header(s.calls[c].name, s.calls[c].number))
      && (|s.requests| % 2 == 1 ==> exists x :: x in s.calls && x.phase == HeaderSent)
  }

  predicate ServerOk(s: State) {
    && s.read <= |s.requests|
    && match s.serving
       case AwaitArgs(name, number) => s.read % 2 == 1 && s.requests[s.read - 1] == Header(name, number)
       case Invoking(name, number, args) =>
         s.read % 2 == 0 && s.read >= 2 && s.requests[s.read - 2] == Header(name, number) && s.requests[s.read - 1] == Args(args)
       case Stopped => true
       case _ => s.read % 2 == 0
  }

  predicate ExecOk(s: State, e: Exec) {
    && e.number < |s.owner| && s.owner[e.number] < |s.calls|
    && s.calls[s.owner[e.number]].name == e.name && s.calls[s.owner[e.number]].args == e.args
    && e.reply != Failed("")
  }

  ghost predicate LogOk(s: State) {
    forall i | 0 <= i < |s.executed| :: ExecOk(s, s.executed[i])
  }

  function Last(e: seq<Exec>): Exec
    requires e != []
  {
    e[|e| - 1]
  }

  /** What the server has written are the units of its calls, the last one possibly unfinished. */
  ghost predicate ResponsesOk(s: State) {
    match s.serving
    case Replying(number, reply) =>
      && s.executed != [] && Last(s.executed).number == number && Last(s.executed).reply == reply
      && s.responses == Stream(s.executed[..|s.executed| - 1])
    case SendingBody(value) =>
      && s.executed != [] && Last(s.executed).reply == Returned(value)
      && s.responses == Stream(s.executed[..|s.executed| - 1]) + [Answer(Last(s.executed).number, "")]
    case Stopped => s.responses <= Stream(s.executed)
    case _ => s.responses == Stream(s.executed)
  }

  /** The input loop stands between two units, or behind the header of one. */
  ghost predicate ClientOk(s: State) {
    && s.received <= |s.responses|
    && match s.input
       case Reading => s.finished <= |s.executed| && s.received == |Stream(s.executed[..s.finished])|
       case GotHeader(number, err) =>
         && s.finished < |s.executed| && s.received == |Stream(s.executed[..s.finished])| + 1
         && number == s.executed[s.finished].number && err == ErrText(s.executed[s.finished].reply)
       case Taken(call, err) =>
         && s.finished < |s.executed| && s.received == |Stream(s.executed[..s.finished])| + 1
         && err == ErrText(s.executed[s.finished].reply)
         && (call.Some? ==> s.executed[s.finished].number < |s.owner| && s.owner[s.executed[s.finished].number] == call.value)
       case _ => true
  }

  /** The outcome `d` of call `c` is that of a method call the server made for it. */
  predicate Explained(s: State, c: nat, d: Completion)
    requires c < |s.calls|
  {
    var x := s.calls[c];
    match d
    case Got(value) => Exec(x.name, x.number, x.args, Returned(value)) in s.executed
    case ServerError(err) => err != "" && Exec(x.name, x.number, x.args, Failed(err)) in s.executed
    case LocalError => true
  }

  ghost predicate DoneOk(s: State) {
    forall c | 0 <= c < |s.calls| :: forall d | d in s.calls[c].done :: Explained(s, c, d)
  }

  ghost predicate Inv(s: State) {
    && Delivery.Inv(s)
    && RequestsOk(s) && SendsOk(s) && ServerOk(s) && LogOk(s) && ResponsesOk(s) && ClientOk(s) && DoneOk(s)
  }

  lemma InitInv()
    ensures Inv(INIT)
  {
    Delivery.InitInv();
  }

  // ---------- framing: what the next item on each stream is ----------

  lemma ResponsesArePrefix(s: State)
    requires ResponsesOk(s)
    ensures s.responses <= Stream(s.executed)
  {
    if s.serving.Replying? || s.serving.SendingBody? {
      StreamAt(s.executed, |s.executed| - 1);
    }
  }

  lemma NextIsHeader(s: State)
    requires ResponsesOk(s) && ClientOk(s) && s.input == Reading && s.received < |s.responses|
    ensures s.finished < |s.executed|
    ensures var x := s.executed[s.finished]; s.responses[s.received] == Answer(x.number, ErrText(x.reply))
  {
    ResponsesArePrefix(s);
    StreamAt(s.executed, s.finished);
    WholeStream(s.executed);
  }

  lemma WholeStream(e: seq<Exec>)
    ensures Stream(e[..|e|]) == Stream(e)
  {
    assert e[..|e|] == e;
  }

  lemma NextIsBody(s: State)
    requires ResponsesOk(s) && ClientOk(s) && LogOk(s) && s.input.Taken? && s.input.err == "" && s.received < |s.responses|
    ensures s.executed[s.finished].reply.Returned?
    ensures s.responses[s.received] == Body(s.executed[s.finished].reply.value)
  {
    ResponsesArePrefix(s);
    StreamAt(s.executed, s.finished);
    assert ExecOk(s, s.executed[s.finished]);
  }

  // ---------- the server's steps ----------

  lemma ServerFrame(s: State, t: State)
    requires t == s.(read := t.read, serving := t.serving, executed := t.executed, responses := t.responses)
    requires s.executed <= t.executed && s.responses <= t.responses
    requires RequestsOk(s) && SendsOk(s) && ClientOk(s) && DoneOk(s)
    ensures RequestsOk(t) && SendsOk(t) && ClientOk(t) && DoneOk(t)
  {
    assert s.input in {Reading} || s.input.GotHeader? || s.input.Taken? ==>
        s.executed[..s.finished] == t.executed[..s.finished];
    hide Stream;
    forall c, d | 0 <= c < |t.calls| && d in t.calls[c].done ensures Explained(t, c, d) {
      assert Explained(s, c, d);
    }
  }

  predicate IsServerStep(step: Step) {
    step.ServerReadsHeader? || step.ServerReadsArgs? || step.ServerCalls? || step.ServerWritesHeader?
    || step.ServerWritesBody? || step.ServerStops?
  }

  lemma ServerReads(s: State, step: Step)
    requires RequestsOk(s) && ServerOk(s) && LogOk(s) && ResponsesOk(s) && Enabled(GOOD, s, step)
    requires step.ServerReadsHeader? || step.ServerReadsArgs?
    ensures ServerOk(Next(GOOD, s, step)) && LogOk(Next(GOOD, s, step)) && ResponsesOk(Next(GOOD, s, step))
  {
    var t := Next(GOOD, s, step);
    assert t == s.(read := t.read, serving := t.serving);
    LogSame(s, t);
    hide Stream, LogOk;
    if step.ServerReadsHeader? {
      assert HeaderOk(s, s.requests[s.read]);
    } else {
      assert ArgsOk(s, s.requests[s.read - 1], s.requests[s.read]);
    }
  }

  lemma LogSame(s: State, t: State)
    requires LogOk(s) && t.executed == s.executed && t.owner == s.owner && t.calls == s.calls
    ensures LogOk(t)
  {
    forall i | 0 <= i < |t.executed| ensures ExecOk(t, t.executed[i]) {
      assert ExecOk(s, s.executed[i]);
    }
  }

  lemma ServerExecutes(s: State, reply: Reply)
    requires RequestsOk(s) && ServerOk(s) && LogOk(s) && ResponsesOk(s) && Enabled(GOOD, s, ServerCalls(reply))
    ensures ServerOk(Next(GOOD, s, ServerCalls(reply))) && LogOk(Next(GOOD, s, ServerCalls(reply)))
    ensures ResponsesOk(Next(GOOD, s, ServerCalls(reply)))
  {
    var t := Next(GOOD, s, ServerCalls(reply));
    assert ArgsOk(s, s.requests[s.read - 2], s.requests[s.read - 1]);
    hide Stream, RequestsOk;
    assert t.executed[..|t.executed| - 1] == s.executed;
    forall i | 0 <= i < |t.executed| ensures ExecOk(t, t.executed[i]) {
      if i < |s.executed| {
        assert ExecOk(s, s.executed[i]);
      }
    }
  }

  lemma ServerWrites(s: State, step: Step)
    requires ServerOk(s) && LogOk(s) && ResponsesOk(s) && Enabled(GOOD, s, step)
    requires step.ServerWritesHeader? || step.ServerWritesBody? || step.ServerStops?
    ensures ServerOk(Next(GOOD, s, step)) && LogOk(Next(GOOD, s, step)) && ResponsesOk(Next(GOOD, s, step))
  {
    hide ServerOk, LogOk, ResponsesOk, Stream;
    WritesLeave(s, step);
    ServerOkWritten(s, Next(GOOD, s, step));
    LogSame(s, Next(GOOD, s, step));
    if step.ServerWritesHeader? {
      ServerHeader(s);
    } else if step.ServerWritesBody? {
      ServerBody(s);
    } else {
      ServerStopped(s);
    }
  }

  lemma WritesLeave(s: State, step: Step)
    requires Enabled(GOOD, s, step) && (step.ServerWritesHeader? || step.ServerWritesBody? || step.ServerStops?)
    ensures var t := Next(GOOD, s, step);
            && t == s.(responses := t.responses, serving := t.serving)
            && (t.serving == Stopped
                || ((s.serving.Replying? || s.serving.SendingBody?) && (t.serving == AwaitHeader || t.serving.SendingBody?)))
  {
  }

  lemma ServerOkWritten(s: State, t: State)
    requires ServerOk(s) && t.requests == s.requests && t.read == s.read
    requires t.serving == Stopped
             || ((s.serving.Replying? || s.serving.SendingBody?) && (t.serving == AwaitHeader || t.serving.SendingBody?))
    ensures ServerOk(t)
  {
  }

  lemma ServerStopped(s: State)
    requires ResponsesOk(s)
    ensures ResponsesOk(Next(GOOD, s, ServerStops))
  {
    ResponsesArePrefix(s);
    hide Stream;
  }

  lemma ServerHeader(s: State)
    requires ResponsesOk(s) && s.serving.Replying?
    ensures ResponsesOk(Next(GOOD, s, ServerWritesHeader))
  {
    var e := s.executed;
    assert e == e[..|e| - 1] + [Last(e)];
    StreamSnoc(e[..|e| - 1], Last(e));
    hide Stream;
  }

  lemma ServerBody(s: State)
    requires ResponsesOk(s) && s.serving.SendingBody?
    ensures ResponsesOk(Next(GOOD, s, ServerWritesBody))
  {
    var e := s.executed;
    assert e == e[..|e| - 1] + [Last(e)];
    StreamSnoc(e[..|e| - 1], Last(e));
    hide Stream;
  }

  lemma ServerKeeps(s: State, step: Step)
    requires Inv(s) && Enabled(GOOD, s, step)
    requires IsServerStep(step)
    ensures Inv(Next(GOOD, s, step))
  {
    hide Next, Enabled, RequestsOk, SendsOk, ClientOk, DoneOk, ServerOk, LogOk, ResponsesOk, Delivery.Inv;
    Delivery.StepInv(GOOD, s, step);
    ServerLeavesRest(s, step);
    if step.ServerReadsHeader? || step.ServerReadsArgs? {
      ServerReads(s, step);
    } else if step.ServerCalls? {
      ServerExecutes(s, step.reply);
    } else {
      ServerWrites(s, step);
    }
    ServerFrame(s, Next(GOOD, s, step));
  }

  lemma ServerLeavesRest(s: State, step: Step)
    requires Enabled(GOOD, s, step) && IsServerStep(step)
    ensures var t := Next(GOOD, s, step);
            && t == s.(read := t.read, serving := t.serving, executed := t.executed, responses := t.responses)
            && s.executed <= t.executed && s.responses <= t.responses
  {
  }

  // ---------- the client's steps ----------

  /** What no step changes about a call once it exists. */
  ghost predicate SameCalls(s: State, t: State) {
    && s.owner <= t.owner && |s.calls| <= |t.calls|
    && forall c | 0 <= c < |s.calls| ::
         t.calls[c].name == s.calls[c].name && t.calls[c].args == s.calls[c].args && t.calls[c].number == s.calls[c].number
  }

  lemma CallsFrame(s: State, t: State)
    requires SameCalls(s, t) && t.executed == s.executed && t.serving == s.serving && t.read == s.read && t.responses == s.responses
    requires s.requests <= t.requests
    requires ServerOk(s) && LogOk(s) && ResponsesOk(s)
    ensures ServerOk(t) && LogOk(t) && ResponsesOk(t)
    ensures forall i | 0 <= i < |s.requests| && HeaderOk(s, s.requests[i]) :: HeaderOk(t, t.requests[i])
    ensures forall i | 0 < i < |s.requests| && ArgsOk(s, s.requests[i - 1], s.requests[i]) :: ArgsOk(t, t.requests[i - 1], t.requests[i])
  {
    hide Stream;
    forall i | 0 <= i < |t.executed| ensures ExecOk(t, t.executed[i]) {
      assert ExecOk(s, s.executed[i]);
    }
  }

  lemma InputFrame(s: State, t: State)
    requires SameCalls(s, t) && |t.calls| == |s.calls| && t.owner == s.owner && t.requests == s.requests
    requires forall c | 0 <= c < |s.calls| :: t.calls[c].phase == s.calls[c].phase
    requires t.executed == s.executed && t.serving == s.serving && t.read == s.read && t.responses == s.responses
    requires t.broken == s.broken && t.connClosed == s.connClosed
    requires RequestsOk(s) && SendsOk(s) && ServerOk(s) && LogOk(s) && ResponsesOk(s)
    ensures RequestsOk(t) && SendsOk(t) && ServerOk(t) && LogOk(t) && ResponsesOk(t)
  {
    CallsFrame(s, t);
    StillWaiting(s, t);
    hide *;
    SameRequests(s, t);
    SameSends(s, t);
  }

  lemma StillWaiting(s: State, t: State)
    requires SameCalls(s, t) && |t.calls| == |s.calls|
    requires forall c | 0 <= c < |s.calls| :: t.calls[c].phase == s.calls[c].phase
    ensures SameWaiting(s, t)
  {
    if x :| x in s.calls && x.phase == HeaderSent {
      var c :| 0 <= c < |s.calls| && s.calls[c] == x;
      assert t.calls[c] in t.calls;
    }
  }

  /** A call held by the input loop has the number of the unit under way. */
  lemma HeldNumber(s: State)
    requires Inv(s) && s.input.Taken? && s.input.call.Some?
    ensures var e, c := s.executed[s.finished], s.input.call.value;
            c < |s.calls| && e == Exec(s.calls[c].name, s.calls[c].number, s.calls[c].args, e.reply) && e in s.executed
  {
    hide RequestsOk, SendsOk, ServerOk, ResponsesOk, DoneOk, Delivery.CallsOk, Stream;
    assert ExecOk(s, s.executed[s.finished]);
    assert Delivery.NumbersOk(s);
  }

  lemma CompletedDone(s: State, t: State, d: Completion)
    requires DoneOk(s) && s.input.Taken? && (s.input.call.Some? ==> s.input.call.value < |s.calls| && Explained(s, s.input.call.value, d))
    requires t.calls == CompleteTaken(s, d).calls && t.executed == s.executed
    ensures DoneOk(t)
  {
    forall c, x | 0 <= c < |t.calls| && x in t.calls[c].done ensures Explained(t, c, x) {
      assert x == d || x in s.calls[c].done;
      assert x in s.calls[c].done ==> Explained(s, c, x);
    }
  }

  lemma FinishedUnit(s: State)
    requires ClientOk(s) && s.input.Taken?
    ensures |Stream(s.executed[..s.finished + 1])| == |Stream(s.executed[..s.finished])| + |Unit(s.executed[s.finished])|
  {
    StreamAt(s.executed, s.finished);
  }

  lemma FinishWithErrorStep(s: State)
    requires Inv(s) && Enabled(GOOD, s, FinishWithError)
    ensures ClientOk(Next(GOOD, s, FinishWithError)) && DoneOk(Next(GOOD, s, FinishWithError))
  {
    if s.input.call.Some? {
      HeldNumber(s);
    }
    FinishedUnit(s);
    hide Delivery.Inv, RequestsOk, SendsOk, ServerOk, ResponsesOk, DoneOk, LogOk, Stream;
    CompletedDone(s, Next(GOOD, s, FinishWithError), ServerError(s.input.err));
  }

  lemma ReadBodyStep(s: State, value: string)
    requires Inv(s) && Enabled(GOOD, s, ReadBody(value))
    ensures ClientOk(Next(GOOD, s, ReadBody(value))) && DoneOk(Next(GOOD, s, ReadBody(value)))
  {
    if s.input.call.Some? {
      HeldNumber(s);
    }
    NextIsBody(s);
    FinishedUnit(s);
    hide Delivery.Inv, RequestsOk, SendsOk, ServerOk, ResponsesOk, DoneOk, LogOk, Stream;
    CompletedDone(s, Next(GOOD, s, ReadBody(value)), Got(value));
  }

  lemma ReadHeaderStep(s: State, guess: Response)
    requires Inv(s) && Enabled(GOOD, s, ReadHeader(guess))
    ensures ClientOk(Next(GOOD, s, ReadHeader(guess)))
  {
    NextIsHeader(s);
    hide Delivery.Inv, RequestsOk, SendsOk, ServerOk, ResponsesOk, DoneOk, LogOk, Stream;
  }

  lemma TakenClient(s: State)
    requires Inv(s) && Enabled(GOOD, s, Take)
    ensures ClientOk(Next(GOOD, s, Take))
  {
    assert Delivery.NumbersOk(s);
    hide RequestsOk, SendsOk, ServerOk, ResponsesOk, DoneOk, Delivery.CallsOk, Stream;
    assert ExecOk(s, s.executed[s.finished]);
  }

  lemma DrainDone(s: State)
    requires DoneOk(s)
    ensures DoneOk(s.(calls := DrainCalls(s.calls, s.pending), pending := map[], shutdown := true, input := Ended))
  {
    var t := s.(calls := DrainCalls(s.calls, s.pending), pending := map[], shutdown := true, input := Ended);
    forall c, d | 0 <= c < |t.calls| && d in t.calls[c].done ensures Explained(t, c, d) {
      assert d == LocalError || d in s.calls[c].done;
      assert d in s.calls[c].done ==> Explained(s, c, d);
    }
  }

  predicate IsInputStep(step: Step) {
    step.ReadHeader? || step.ReadHeaderFails? || step.Take? || step.FinishWithError? || step.ReadBody? || step.ReadBodyFails? || step.Drain?
  }

  lemma InputStep(s: State, step: Step)
    requires Inv(s) && Enabled(GOOD, s, step) && IsInputStep(step)
    ensures ClientOk(Next(GOOD, s, step)) && DoneOk(Next(GOOD, s, step))
  {
    hide Inv, RequestsOk, SendsOk, ServerOk, ResponsesOk, LogOk, Stream, Explained;
    assert ClientOk(s) && DoneOk(s) by { InvParts(s); }
    match step
    case ReadHeader(guess) =>
      ReadHeaderStep(s, guess);
      DoneSame(s, Next(GOOD, s, step));
    case ReadHeaderFails => DoneSame(s, Next(GOOD, s, step));
    case Take =>
      TakenClient(s);
      DoneSame(s, Next(GOOD, s, step));
    case FinishWithError => FinishWithErrorStep(s);
    case ReadBody(value) => ReadBodyStep(s, value);
    case ReadBodyFails => LocalDone(s);
    case Drain => DrainDone(s);
  }

  lemma DoneSame(s: State, t: State)
    requires DoneOk(s) && t.calls == s.calls && t.executed == s.executed
    ensures DoneOk(t)
  {
    forall c, d | 0 <= c < |t.calls| && d in t.calls[c].done ensures Explained(t, c, d) {
      assert Explained(s, c, d);
    }
  }

  lemma InvParts(s: State)
    requires Inv(s)
    ensures ClientOk(s) && DoneOk(s)
  {
  }

  lemma LocalDone(s: State)
    requires DoneOk(s) && Enabled(GOOD, s, ReadBodyFails)
    ensures DoneOk(Next(GOOD, s, ReadBodyFails))
  {
    if s.input.call.Some? {
      assert Explained(s, s.input.call.value, LocalError);
    }
    hide DoneOk, Explained;
    CompletedDone(s, Next(GOOD, s, ReadBodyFails), LocalError);
  }

  lemma InputKeeps(s: State, step: Step)
    requires Inv(s) && Enabled(GOOD, s, step) && IsInputStep(step)
    ensures Inv(Next(GOOD, s, step))
  {
    InputLeavesRest(s, step);
    hide RequestsOk, SendsOk, ClientOk, DoneOk, ServerOk, LogOk, ResponsesOk, Delivery.Inv, SameCalls, Next, Enabled;
    InputStep(s, step);
    Delivery.StepInv(GOOD, s, step);
    InputSameCalls(s, step);
    InputFrame(s, Next(GOOD, s, step));
  }

  lemma InputLeavesRest(s: State, step: Step)
    requires Enabled(GOOD, s, step) && IsInputStep(step)
    ensures SameRest(s, Next(GOOD, s, step))
  {
    hide DrainCalls, CompleteTaken;
    if step.FinishWithError? {
      CompletedRest(s, ServerError(s.input.err));
    } else if step.ReadBody? {
      CompletedRest(s, Got(step.value));
    } else if step.ReadBodyFails? {
      CompletedRest(s, LocalError);
    }
  }

  predicate SameRest(s: State, t: State) {
    && t.owner == s.owner && t.requests == s.requests && t.executed == s.executed && t.serving == s.serving
    && t.read == s.read && t.responses == s.responses && t.broken == s.broken && t.connClosed == s.connClosed
  }

  lemma CompletedRest(s: State, d: Completion)
    requires s.input.Taken? && (s.input.call.Some? ==> s.input.call.value < |s.calls|)
    ensures CompleteTaken(s, d) == s.(calls := CompleteTaken(s, d).calls)
  {
  }

  lemma InputSameCalls(s: State, step: Step)
    requires Enabled(GOOD, s, step) && IsInputStep(step)
    ensures SameCalls(s, Next(GOOD, s, step)) && |Next(GOOD, s, step).calls| == |s.calls|
    ensures forall c | 0 <= c < |s.calls| :: Next(GOOD, s, step).calls[c].phase == s.calls[c].phase
  {
    InputLeavesRest(s, step);
    hide SameCalls, DrainCalls, CompleteTaken;
    if step.FinishWithError? {
      CompletedSameCalls(s, ServerError(s.input.err));
    } else if step.ReadBody? {
      CompletedSameCalls(s, Got(step.value));
    } else if step.ReadBodyFails? {
      CompletedSameCalls(s, LocalError);
    } else if step.Drain? {
      DrainedSameCalls(s);
    }
    var t := Next(GOOD, s, step);
    assert OnlyDone(s.calls, t.calls);
    hide Next, Enabled;
    OnlyDoneIsSame(s, t);
  }

  predicate OnlyDone(a: seq<Call>, b: seq<Call>) {
    |a| == |b| && forall c | 0 <= c < |a| :: b[c] == a[c].(done := b[c].done)
  }

  lemma OnlyDoneIsSame(s: State, t: State)
    requires OnlyDone(s.calls, t.calls) && t.owner == s.owner
    ensures SameCalls(s, t) && forall c | 0 <= c < |s.calls| :: t.calls[c].phase == s.calls[c].phase
  {
  }

  lemma DrainedSameCalls(s: State)
    ensures OnlyDone(s.calls, DrainCalls(s.calls, s.pending))
  {
  }

  lemma CompletedSameCalls(s: State, d: Completion)
    requires s.input.Taken? && (s.input.call.Some? ==> s.input.call.value < |s.calls|)
    ensures OnlyDone(s.calls, CompleteTaken(s, d).calls)
  {
  }

  // ---------- the senders' steps ----------

  predicate IsSenderStep(step: Step) {
    step.Go? || step.WriteHeader? || step.WriteArgs? || step.WriteFails? || step.Remove? || step.GiveUp? || step.Close? || step.CloseConn?
  }

  lemma SenderSameCalls(s: State, step: Step)
    requires Enabled(GOOD, s, step) && IsSenderStep(step)
    ensures SameCalls(s, Next(GOOD, s, step)) && s.requests <= Next(GOOD, s, step).requests
    ensures forall c | 0 <= c < |Next(GOOD, s, step).calls| :: forall d | d in Next(GOOD, s, step).calls[c].done ::
              d == LocalError || (c < |s.calls| && d in s.calls[c].done)
  {
    var t := Next(GOOD, s, step);
    if step.Go? {
      assert t == Register(s, step.name, step.args);
      hide Next, Enabled;
      assert s.calls <= t.calls;
    } else if step.Close? || step.CloseConn? {
      assert t.calls == s.calls && t.owner == s.owner && t.requests == s.requests;
      hide Next, Enabled;
    } else {
      assert step.call < |s.calls| && t.calls == s.calls[step.call := t.calls[step.call]] && t.owner == s.owner;
      var x, y := s.calls[step.call], t.calls[step.call];
      assert y == x.(phase := y.phase, done := y.done) && (y.done == x.done || y.done == x.done + [LocalError]);
      assert s.requests <= t.requests;
      hide Next, Enabled;
    }
  }

  lemma SenderFrame(s: State, t: State)
    requires SameCalls(s, t) && s.requests <= t.requests
    requires t.input == s.input && t.received == s.received && t.finished == s.finished
    requires t.executed == s.executed && t.serving == s.serving && t.read == s.read && t.responses == s.responses
    requires forall c | 0 <= c < |t.calls| :: forall d | d in t.calls[c].done :: d == LocalError || (c < |s.calls| && d in s.calls[c].done)
    requires ServerOk(s) && LogOk(s) && ResponsesOk(s) && ClientOk(s) && DoneOk(s)
    ensures ServerOk(t) && LogOk(t) && ResponsesOk(t) && ClientOk(t) && DoneOk(t)
  {
    CallsFrame(s, t);
    hide Stream, ServerOk, LogOk, ResponsesOk;
    forall c, d | 0 <= c < |t.calls| && d in t.calls[c].done ensures Explained(t, c, d) {
      assert d == LocalError || Explained(s, c, d);
    }
  }

  lemma SenderRequests(s: State, step: Step)
    requires Inv(s) && Enabled(GOOD, s, step) && IsSenderStep(step) && !step.WriteHeader? && !step.WriteArgs?
    ensures RequestsOk(Next(GOOD, s, step)) && SendsOk(Next(GOOD, s, step))
  {
    var t := Next(GOOD, s, step);
    SenderSameCalls(s, step);
    CallsFrame(s, t);
    assert t.requests == s.requests && (CanWrite(t) ==> CanWrite(s));
    if CanWrite(t) {
      NoNewHeaders(s, step);
    }
    hide Delivery.Inv, ServerOk, LogOk, ResponsesOk, ClientOk, DoneOk, HeaderOk, ArgsOk, SameCalls, Next, Enabled;
    SameRequests(s, t);
    SameSends(s, t);
  }

  lemma SameRequests(s: State, t: State)
    requires t.requests == s.requests && RequestsOk(s)
    requires forall i | 0 <= i < |s.requests| && HeaderOk(s, s.requests[i]) :: HeaderOk(t, t.requests[i])
    requires forall i | 0 < i < |s.requests| && ArgsOk(s, s.requests[i - 1], s.requests[i]) :: ArgsOk(t, t.requests[i - 1], t.requests[i])
    ensures RequestsOk(t)
  {
    hide HeaderOk, ArgsOk;
  }

  /** No header was written and none of those waiting for their arguments went away. */
  ghost predicate SameWaiting(s: State, t: State) {
    && (forall c | 0 <= c < |t.calls| && t.calls[c].phase == HeaderSent ::
          c < |s.calls| && s.calls[c].phase == HeaderSent && t.calls[c].name == s.calls[c].name
          && t.calls[c].number == s.calls[c].number)
    && ((exists x :: x in s.calls && x.phase == HeaderSent) ==> exists x :: x in t.calls && x.phase == HeaderSent)
  }

  lemma SameSends(s: State, t: State)
    requires t.requests == s.requests && SendsOk(s) && (CanWrite(t) ==> CanWrite(s) && SameWaiting(s, t))
    ensures SendsOk(t)
  {
  }

  lemma NoNewHeaders(s: State, step: Step)
    requires Enabled(GOOD, s, step) && IsSenderStep(step) && !step.WriteHeader? && !step.WriteArgs?
    requires CanWrite(Next(GOOD, s, step))
    ensures SameWaiting(s, Next(GOOD, s, step))
  {
    var t := Next(GOOD, s, step);
    if x :| x in s.calls && x.phase == HeaderSent {
      var c :| 0 <= c < |s.calls| && s.calls[c] == x;
      assert t.calls[c].phase == HeaderSent && t.calls[c] in t.calls;
    }
  }

  lemma WriteHeaderRequests(s: State, c: nat)
    requires Inv(s) && Enabled(GOOD, s, WriteHeader(c))
    ensures RequestsOk(Next(GOOD, s, WriteHeader(c))) && SendsOk(Next(GOOD, s, WriteHeader(c)))
  {
    var t := Next(GOOD, s, WriteHeader(c));
    assert ServerOk(s) && LogOk(s) && ResponsesOk(s) && Delivery.CallsOk(s);
    hide Inv, Next, Enabled, Delivery.Inv, ServerOk, LogOk, ResponsesOk, SameCalls, RequestsOk, SendsOk;
    SenderSameCalls(s, WriteHeader(c));
    HeaderWritten(s, c);
    CallsFrame(s, t);
    assert Delivery.CallOk(s, c);
    InvRequests(s);
    InvSends(s);
    NoneWaiting(s);
    HeaderRequests(s, t);
    HeaderSends(s, t, c);
  }

  lemma InvRequests(s: State)
    requires Inv(s)
    ensures RequestsOk(s)
  {
    hide RequestsOk;
  }

  lemma InvSends(s: State)
    requires Inv(s)
    ensures SendsOk(s)
  {
    hide SendsOk;
  }

  lemma NoneWaiting(s: State)
    requires SendsOk(s) && CanWrite(s) && forall x | x in s.calls :: x.phase != HeaderSent
    ensures |s.requests| % 2 == 0
  {
  }

  lemma HeaderRequests(s: State, t: State)
    requires RequestsOk(s) && |s.requests| % 2 == 0 && |t.requests| == |s.requests| + 1 && s.requests <= t.requests
    requires forall i | 0 <= i < |s.requests| && HeaderOk(s, s.requests[i]) :: HeaderOk(t, t.requests[i])
    requires forall i | 0 < i < |s.requests| && ArgsOk(s, s.requests[i - 1], s.requests[i]) :: ArgsOk(t, t.requests[i - 1], t.requests[i])
    requires HeaderOk(t, t.requests[|s.requests|])
    ensures RequestsOk(t)
  {
    hide HeaderOk, ArgsOk;
  }

  lemma HeaderSends(s: State, t: State, c: nat)
    requires |s.requests| % 2 == 0 && c < |s.calls| && forall x | x in s.calls :: x.phase != HeaderSent
    requires t.calls == s.calls[c := s.calls[c].(phase := HeaderSent)]
    requires t.requests == s.requests + [Header(s.calls[c].name, s.calls[c].number)]
    ensures SendsOk(t)
  {
    assert t.calls[c] in t.calls;
  }

  lemma WriteArgsRequests(s: State, c: nat)
    requires Inv(s) && Enabled(GOOD, s, WriteArgs(c))
    ensures RequestsOk(Next(GOOD, s, WriteArgs(c))) && SendsOk(Next(GOOD, s, WriteArgs(c)))
  {
    var t := Next(GOOD, s, WriteArgs(c));
    assert ServerOk(s) && LogOk(s) && ResponsesOk(s);
    hide Inv, Next, Enabled, Delivery.Inv, ServerOk, LogOk, ResponsesOk, SameCalls, RequestsOk, SendsOk;
    SenderSameCalls(s, WriteArgs(c));
    ArgsWritten(s, c);
    CallsFrame(s, t);
    OnlyWaiting(s, c);
    InvRequests(s);
    assert ArgsOk(t, t.requests[|s.requests| - 1], t.requests[|s.requests|]);
    ArgsRequests(s, t);
    ArgsSends(s, t, c);
  }

  lemma ArgsWritten(s: State, c: nat)
    requires Enabled(GOOD, s, WriteArgs(c))
    ensures c < |s.calls|
    ensures Next(GOOD, s, WriteArgs(c)) == s.(calls := s.calls[c := s.calls[c].(phase := Sent)], requests := s.requests + [Args(s.calls[c].args)])
  {
  }

  lemma HeaderWritten(s: State, c: nat)
    requires Enabled(GOOD, s, WriteHeader(c))
    ensures c < |s.calls| && s.calls[c].phase == Registered && CanWrite(s) && forall x | x in s.calls :: x.phase != HeaderSent
    ensures Next(GOOD, s, WriteHeader(c)) == s.(calls := s.calls[c := s.calls[c].(phase := HeaderSent)],
                                                requests := s.requests + [Header(s.calls[c].name, s.calls[c].number)])
  {
  }

  /** The call whose arguments are written is the only one that waits for them, and its header came last. */
  lemma OnlyWaiting(s: State, c: nat)
    requires Inv(s) && Enabled(GOOD, s, WriteArgs(c))
    ensures |s.requests| % 2 == 1 && s.requests[|s.requests| - 1] == Header(s.calls[c].name, s.calls[c].number)
    ensures s.calls[c].number < |s.owner| && s.owner[s.calls[c].number] == c
    ensures forall x | 0 <= x < |s.calls| && s.calls[x].phase == HeaderSent :: x == c
  {
    InvSends(s);
    assert Delivery.CallsOk(s);
    hide Inv, Delivery.Inv;
    assert Delivery.CallOk(s, c);
    forall x | 0 <= x < |s.calls| && s.calls[x].phase == HeaderSent ensures x == c {
      assert Delivery.CallOk(s, x);
    }
  }

  lemma ArgsRequests(s: State, t: State)
    requires RequestsOk(s) && |s.requests| % 2 == 1 && |t.requests| == |s.requests| + 1 && s.requests <= t.requests
    requires forall i | 0 <= i < |s.requests| && HeaderOk(s, s.requests[i]) :: HeaderOk(t, t.requests[i])
    requires forall i | 0 < i < |s.requests| && ArgsOk(s, s.requests[i - 1], s.requests[i]) :: ArgsOk(t, t.requests[i - 1], t.requests[i])
    requires ArgsOk(t, t.requests[|s.requests| - 1], t.requests[|s.requests|])
    ensures RequestsOk(t)
  {
    hide HeaderOk, ArgsOk;
  }

  lemma ArgsSends(s: State, t: State, c: nat)
    requires |t.requests| % 2 == 0 && c < |s.calls| && t.calls == s.calls[c := s.calls[c].(phase := Sent)]
    requires forall x | 0 <= x < |s.calls| && s.calls[x].phase == HeaderSent :: x == c
    ensures SendsOk(t)
  {
  }

  lemma SenderKeeps(s: State, step: Step)
    requires Inv(s) && Enabled(GOOD, s, step) && IsSenderStep(step)
    ensures Inv(Next(GOOD, s, step))
  {
    Delivery.StepInv(GOOD, s, step);
    SenderSameCalls(s, step);
    if step.WriteHeader? {
      WriteHeaderRequests(s, step.call);
    } else if step.WriteArgs? {
      WriteArgsRequests(s, step.call);
    } else {
      SenderRequests(s, step);
    }
    hide RequestsOk, SendsOk, ClientOk, DoneOk, ServerOk, LogOk, ResponsesOk, Delivery.Inv, SameCalls;
    SenderFrame(s, Next(GOOD, s, step));
  }

  lemma StepInv(s: State, step: Step)
    requires Inv(s) && Enabled(GOOD, s, step)
    ensures Inv(Next(GOOD, s, step))
  {
    hide Inv, Next, Enabled;
    if IsSenderStep(step) {
      SenderKeeps(s, step);
    } else if IsInputStep(step) {
      InputKeeps(s, step);
    } else {
      ServerKeeps(s, step);
    }
  }

  lemma {:induction false} RunInv(s: State, steps: seq<Step>)
    requires Inv(s) && Run(GOOD, s, steps)
    ensures Inv(After(GOOD, s, steps))
    decreases |steps|
  {
    hide Inv, Next, Enabled;
    if steps != [] {
      StepInv(s, steps[0]);
      RunInv(Next(GOOD, s, steps[0]), steps[1..]);
    }
  }

  // ---------- results ----------

  /**
    Whatever time-outs, late replies, lost connections or shutdowns occur, a call that was completed
    with a reply or a server error got the outcome of a method call made for its own number, with
    its own method name and arguments.
   */
  lemma Correlation(steps: seq<Step>, c: nat, d: Completion)
    requires Run(GOOD, INIT, steps) && c < |After(GOOD, INIT, steps).calls|
    requires d in After(GOOD, INIT, steps).calls[c].done
    ensures var x, executed := After(GOOD, INIT, steps).calls[c], After(GOOD, INIT, steps).executed;
            match d
            case Got(value) => Exec(x.name, x.number, x.args, Returned(value)) in executed
            case ServerError(err) => Exec(x.name, x.number, x.args, Failed(err)) in executed
            case LocalError => true
  {
    InitInv();
    RunInv(INIT, steps);
    assert DoneOk(After(GOOD, INIT, steps));
    hide Inv;
    assert Explained(After(GOOD, INIT, steps), c, d);
  }

  /** On either stream the next item, when there is one, is of the kind its reader is about to decode. */
  lemma FramingAgreement(steps: seq<Step>)
    requires Run(GOOD, INIT, steps)
    ensures var s := After(GOOD, INIT, steps);
            && (s.received < |s.responses| && s.input == Reading ==> s.responses[s.received].Answer?)
            && (s.received < |s.responses| && s.input.Taken? && s.input.err == "" ==> s.responses[s.received].Body?)
            && (s.read < |s.requests| && s.serving == AwaitHeader ==> s.requests[s.read].Header?)
            && (s.read < |s.requests| && s.serving.AwaitArgs? ==> s.requests[s.read].Args?)
  {
    InitInv();
    RunInv(INIT, steps);
    var s := After(GOOD, INIT, steps);
    hide Delivery.Inv, Stream, SendsOk, DoneOk, LogOk;
    if s.received < |s.responses| && s.input == Reading {
      NextIsHeader(s);
    }
    if s.received < |s.responses| && s.input.Taken? && s.input.err == "" {
      NextIsBody(s);
    }
    if s.read < |s.requests| && s.serving == AwaitHeader {
      assert HeaderOk(s, s.requests[s.read]);
    }
    if s.read < |s.requests| && s.serving.AwaitArgs? {
      assert ArgsOk(s, s.requests[s.read - 1], s.requests[s.read]);
    }
  }
}
