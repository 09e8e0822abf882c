/**
  The client's loop on what the server's loop writes: each waiting call gets the outcome of its own
  method on its own arguments.
 */
module CrpcPipeline {
  import opened Results
  import opened Crpc
  import opened CrpcCorrelation
  import Server = CrpcServer
  import opened CrpcClient

  function CompletionOf(reply: Reply): Completion {
    match reply
    case Returned(value) => Got(value)
    case Failed(err) => ServerError(err)
  }

  function ResolveAll(t: Table, e: seq<Exec>): Table
    decreases |e|
  {
    if e == [] then t else ResolveAll(Resolve(t, e[0].number, CompletionOf(e[0].reply)), e[1..])
  }

  /** The first reply to a number. */
  function First(e: seq<Exec>, number: nat): Option<Reply> {
    if e == [] then None else if e[0].number == number then Some(e[0].reply) else First(e[1..], number)
  }

  lemma {:induction false} DeliverStream(dec: Decoder, t: Table, e: seq<Exec>)
    requires Named(e)
    ensures Deliver(dec, t, Stream(e)) == ResolveAll(t, e)
    decreases |e|
  {
    if e != [] {
      var x, r := e[0], Stream(e);
      assert r[0] == Answer(x.number, ErrText(x.reply)) && x in e;
      if x.reply.Returned? {
        assert r[1] == Body(x.reply.value) && r[2..] == Stream(e[1..]);
      } else {
        assert r[1..] == Stream(e[1..]);
      }
      DeliverStream(dec, Resolve(t, x.number, CompletionOf(x.reply)), e[1..]);
    }
  }

  lemma ResolvedApart(t: Table, number: nat, d: Completion)
    requires Apart(t.calls, t.pending)
    ensures Apart(Resolve(t, number, d).calls, Resolve(t, number, d).pending)
  {
  }

  /** A call that waits under `number` is completed by the first reply to it, and by no other. */
  lemma {:induction false} FirstReplyCounts(t: Table, e: seq<Exec>, number: nat)
    requires Apart(t.calls, t.pending) && number in t.pending
    ensures var c, u := t.pending[number], ResolveAll(t, e);
            && |u.calls| == |t.calls|
            && u.calls[c] == match First(e, number)
                             case None => t.calls[c]
                             case Some(reply) => t.calls[c].(done := t.calls[c].done + [CompletionOf(reply)])
    decreases |e|
  {
    if e != [] {
      var u := Resolve(t, e[0].number, CompletionOf(e[0].reply));
      ResolvedApart(t, e[0].number, CompletionOf(e[0].reply));
      if e[0].number == number {
        OthersStay(u, e[1..], t.pending[number]);
      } else {
        FirstReplyCounts(u, e[1..], number);
      }
    }
  }

  /** Replies do not touch a call that does not wait. */
  lemma {:induction false} OthersStay(t: Table, e: seq<Exec>, c: nat)
    requires c < |t.calls| && forall n | n in t.pending :: t.pending[n] != c
    ensures |ResolveAll(t, e).calls| == |t.calls| && ResolveAll(t, e).calls[c] == t.calls[c]
    decreases |e|
  {
    if e != [] {
      OthersStay(Resolve(t, e[0].number, CompletionOf(e[0].reply)), e[1..], c);
    }
  }

  // ---------- the two loops together ----------

  /** What the client writes for calls with consecutive numbers from `first`. */
  function Requests(work: seq<(string, string)>, first: nat): seq<Request> {
    if work == [] then []
    else [Header(work[0].0, first), Args(work[0].1)] + Requests(work[1..], first + 1)
  }

  predicate Known(env: Server.Env, work: seq<(string, string)>) {
    forall i | 0 <= i < |work| :: Server.Lookup(env, work[i].0).Some?
  }

  function Expected(env: Server.Env, job: (string, string)): Reply
    requires Server.Lookup(env, job.0).Some?
  {
    Server.ReplyTo(job.0, Server.Lookup(env, job.0).value(job.1))
  }

  lemma {:induction false} RequestAt(work: seq<(string, string)>, first: nat, i: nat)
    requires i < |work|
    ensures |Requests(work, first)| == 2 * |work|
    ensures Requests(work, first)[2 * i] == Header(work[i].0, first + i) && Requests(work, first)[2 * i + 1] == Args(work[i].1)
  {
    RequestsLength(work, first);
    if i > 0 {
      RequestAt(work[1..], first + 1, i - 1);
      assert Requests(work, first)[2..] == Requests(work[1..], first + 1);
      assert Requests(work, first)[2 * i] == Requests(work, first)[2..][2 * (i - 1)];
      assert Requests(work, first)[2 * i + 1] == Requests(work, first)[2..][2 * (i - 1) + 1];
    }
  }

  lemma {:induction false} RequestsLength(work: seq<(string, string)>, first: nat)
    ensures |Requests(work, first)| == 2 * |work|
  {
    if work != [] {
      RequestsLength(work[1..], first + 1);
    }
  }

  /** The calls the requests ask for, in their order. */
  function Asked(env: Server.Env, work: seq<(string, string)>, first: nat): (e: seq<Exec>)
    requires Known(env, work)
    ensures |e| == |work|
  {
    seq(|work|, i requires 0 <= i < |work| => Exec(work[i].0, first + i, work[i].1, Expected(env, work[i])))
  }

  lemma CallAsked(env: Server.Env, work: seq<(string, string)>, first: nat, k: nat)
    requires Known(env, work) && k < |work|
    ensures Server.CallAt(env, Requests(work, first), 2 * k) == Some(Asked(env, work, first)[k])
  {
    hide Requests, Server.Lookup, Server.ReplyTo;
    RequestAt(work, first, k);
  }

  /** The server makes exactly the calls asked for. */
  lemma {:induction false} ServesInOrder(env: Server.Env, work: seq<(string, string)>, first: nat, k: nat)
    requires Known(env, work) && k <= |work|
    ensures Server.Served(env, Requests(work, first), 2 * k, |work| - k) == Asked(env, work, first)[k..]
    decreases |work| - k
  {
    hide Requests, Asked, Server.CallAt, Known, Expected;
    if k < |work| {
      CallAsked(env, work, first, k);
      ServesInOrder(env, work, first, k + 1);
      assert 2 * k + 2 == 2 * (k + 1) && |work| - k - 1 == |work| - (k + 1);
      assert Asked(env, work, first)[k..] == [Asked(env, work, first)[k]] + Asked(env, work, first)[k + 1..];
    }
  }

  lemma {:induction false} FirstOf(e: seq<Exec>, first: nat, i: nat)
    requires i < |e| && forall j | 0 <= j < |e| :: e[j].number == first + j
    ensures First(e, first + i) == Some(e[i].reply)
  {
    if i > 0 {
      FirstOf(e[1..], first + 1, i - 1);
    }
  }

  lemma KnownCallAnswered(env: Server.Env, dec: Decoder, t: Table, work: seq<(string, string)>, first: nat, i: nat)
    requires Known(env, work) && i < |work| && (forall j | 0 <= j < |work| :: Expected(env, work[j]) != Failed(""))
    requires Apart(t.calls, t.pending) && first + i in t.pending
    ensures var c, u := t.pending[first + i], Deliver(dec, t, Stream(Server.Served(env, Requests(work, first), 0, |work|)));
            && |u.calls| == |t.calls|
            && u.calls[c] == t.calls[c].(done := t.calls[c].done + [CompletionOf(Expected(env, work[i]))])
  {
    hide *;
    AskedFacts(env, work, first);
    var e := Asked(env, work, first);
    ServesInOrder(env, work, first, 0);
    assert e[0..] == e;
    DeliverStream(dec, t, e);
    FirstOf(e, first, i);
    FirstReplyCounts(t, e, first + i);
  }

  // ---------- by service and procedure ----------

  datatype Job = Job(service: string, procedure: string, args: string)

  predicate Registered(env: Server.Env, job: Job) {
    '.' !in job.procedure && job.service in env.services && job.procedure in env.services[job.service]
  }

  /** Names and arguments as the client sends them. */
  function Wire(work: seq<Job>): (w: seq<(string, string)>)
    ensures |w| == |work| && forall i | 0 <= i < |work| :: w[i] == (work[i].service + "." + work[i].procedure, work[i].args)
  {
    seq(|work|, i requires 0 <= i < |work| => (work[i].service + "." + work[i].procedure, work[i].args))
  }

  /**
    Calls sent one after the other to a server that has their methods registered: after both loops,
    each call was completed with what its own method gives on its own arguments: a reply, the text of
    the error, or for a panic a text that names the method.
   */
  lemma EveryCallAnswered(env: Server.Env, dec: Decoder, t: Table, work: seq<Job>, first: nat, i: nat)
    requires i < |work|
    requires forall j | 0 <= j < |work| ::
               Registered(env, work[j]) && env.services[work[j].service][work[j].procedure](work[j].args) != Server.Fails("")
    requires Apart(t.calls, t.pending) && first + i in t.pending
    ensures var c, u := t.pending[first + i], Deliver(dec, t, Stream(Server.Served(env, Requests(Wire(work), first), 0, |work|)));
            var job := work[i];
            && Registered(env, job)
            && |u.calls| == |t.calls|
            && u.calls[c] == t.calls[c].(done := t.calls[c].done + [
                 match env.services[job.service][job.procedure](job.args)
                 case Returns(value) => Got(value)
                 case Fails(err) => ServerError(err)
                 case Panics => ServerError("rpc: internal server error during " + job.service + "." + job.procedure)])
  {
    var w := Wire(work);
    forall j | 0 <= j < |w| ensures Server.Lookup(env, w[j].0).Some? && Expected(env, w[j]) != Failed("") {
      ExpectedOf(env, work[j]);
    }
    assert Known(env, w);
    ExpectedOf(env, work[i]);
    hide *;
    KnownCallAnswered(env, dec, t, w, first, i);
  }

  lemma ExpectedOf(env: Server.Env, job: Job)
    requires Registered(env, job) && env.services[job.service][job.procedure](job.args) != Server.Fails("")
    ensures var call := (job.service + "." + job.procedure, job.args);
            && Server.Lookup(env, call.0).Some?
            && Expected(env, call) != Failed("")
            && CompletionOf(Expected(env, call))
               == match env.services[job.service][job.procedure](job.args)
                  case Returns(value) => Got(value)
                  case Fails(err) => ServerError(err)
                  case Panics => ServerError("rpc: internal server error during " + job.service + "." + job.procedure)
  {
    var name := job.service + "." + job.procedure;
    Server.LookupSelects(env, job.service, job.procedure);
    assert "rpc: internal server error during " + name
           == "rpc: internal server error during " + job.service + "." + job.procedure;
  }

  /** A method that is not registered ends the connection: nothing from its request on is served. */
  lemma UnknownEndsServing(env: Server.Env, work: seq<Job>, first: nat, k: nat, limit: nat)
    requires k < |work| && '.' !in work[k].procedure && !Registered(env, work[k])
    ensures Server.Served(env, Requests(Wire(work), first), 2 * k, limit) == []
  {
    RequestAt(Wire(work), first, k);
    Server.LookupSelects(env, work[k].service, work[k].procedure);
    hide Requests, Server.Lookup, Server.LastDot;
  }

  lemma AskedFacts(env: Server.Env, work: seq<(string, string)>, first: nat)
    requires Known(env, work) && forall j | 0 <= j < |work| :: Expected(env, work[j]) != Failed("")
    ensures var e := Asked(env, work, first);
            Named(e) && forall j | 0 <= j < |e| :: e[j].number == first + j && e[j].reply == Expected(env, work[j])
  {
    hide Expected;
  }

  // ---------- items of the wrong kind ----------

  /** Two headers in a row: the method is called with whatever the decoder makes of the second one. */
  lemma TwoHeadersInARow(env: Server.Env, job: Job, number: nat, name: string, other: nat)
    requires Registered(env, job)
    ensures var requests := [Header(job.service + "." + job.procedure, number), Header(name, other)];
            match env.asArgs(name, other)
            case None => Server.Served(env, requests, 0, 1) == []
            case Some(args) =>
              && |Server.Served(env, requests, 0, 1)| == 1
              && var x := Server.Served(env, requests, 0, 1)[0];
                 x.name == job.service + "." + job.procedure && x.number == number && x.args == args
  {
    Server.LookupSelects(env, job.service, job.procedure);
    var requests := [Header(job.service + "." + job.procedure, number), Header(name, other)];
    assert Server.Served(env, requests, 2, 0) == [];
    hide Server.Lookup, Server.ReplyTo;
  }

  /** Arguments where a header is due are served as the header the decoder makes of them, if it makes one. */
  lemma ArgumentsAsHeader(env: Server.Env, value: string, args: string)
    ensures var served := Server.Served(env, [Args(value), Args(args)], 0, 1);
            match env.asHeader(value)
            case None => served == []
            case Some(header) => served == Server.Served(env, [Header(header.0, header.1), Args(args)], 0, 1)
  {
    hide Server.Lookup, Server.ReplyTo;
  }

  /** A header where a body is due completes the call with whatever the decoder makes of it. */
  lemma HeaderAsBody(dec: Decoder, t: Table, number: nat, other: nat, err: string)
    requires number in t.pending && t.pending[number] < |t.calls|
    ensures var c, u := t.pending[number], Deliver(dec, t, [Answer(number, ""), Answer(other, err)]);
            u.calls == t.calls[c := t.calls[c].(done := t.calls[c].done + [
                         match dec.asBody(other, err)
                         case None => LocalError
                         case Some(value) => Got(value)])]
  {
    var r := [Answer(number, ""), Answer(other, err)];
    assert r[2..] == [];
  }

  /** A body where a header is due is taken for the header the decoder makes of it, or ends the loop. */
  lemma BodyAsHeader(dec: Decoder, t: Table, value: string, rest: seq<Response>)
    ensures Deliver(dec, t, [Body(value)] + rest)
            == match dec.asHeader(value)
               case None => t
               case Some(header) => Deliver(dec, t, [Answer(header.0, header.1)] + rest)
  {
    var r := [Body(value)] + rest;
    if dec.asHeader(value).Some? {
      var q := [Answer(dec.asHeader(value).value.0, dec.asHeader(value).value.1)] + rest;
      assert r[1..] == rest && q[1..] == rest;
      if rest != [] {
        assert r[1] == q[1] && r[2..] == q[2..];
      }
    }
  }
}
