/**
  The server's loop over one connection, as a method that reads a stream of requests and writes a
  stream of responses, and as a run of the connection's steps.
 */
module CrpcServer {
  import opened Results
  import opened Crpc
  import opened CrpcCorrelation

  /** What a method does with its arguments. */
  datatype Behaviour = Returns(value: string) | Fails(err: string) | Panics

  /** Registered methods by service, and what the decoder makes of an item of the wrong kind. */
  datatype Env = Env(
    services: map<string, map<string, string -> Behaviour>>,
    asHeader: string -> Option<(string, nat)>,
    asArgs: (string, nat) -> Option<string>)

  /** Position of the last dot. */
  function LastDot(name: string): (r: Option<nat>)
    ensures r.Some? ==> r.value < |name| && name[r.value] == '.' && '.' !in name[r.value + 1..]
    ensures r.None? ==> '.' !in name
  {
    if name == [] then None
    else if name[|name| - 1] == '.' then Some(|name| - 1)
    else LastDot(name[..|name| - 1])
  }

  function Lookup(env: Env, name: string): Option<string -> Behaviour> {
    var dot := LastDot(name);
    if dot.None? then None
    else
      var service, procedure := name[..dot.value], name[dot.value + 1..];
      if service in env.services && procedure in env.services[service] then Some(env.services[service][procedure]) else None
  }

  /** A name selects the method its last part names of the service its first part names, and no other. */
  lemma LookupSelects(env: Env, service: string, procedure: string)
    requires '.' !in procedure
    ensures Lookup(env, service + "." + procedure)
            == if service in env.services && procedure in env.services[service] then Some(env.services[service][procedure]) else None
  {
    var name := service + "." + procedure;
    var dot := LastDot(name);
    assert name[|service|] == '.' && name[|service| + 1..] == procedure && name[..|service|] == service;
    if dot.None? {
      assert '.' in name;
      assert false;
    }
    if dot.value < |service| {
      assert name[dot.value + 1..][|service| - dot.value - 1] == '.';
      assert false;
    }
    if dot.value > |service| {
      assert procedure[dot.value - |service| - 1] == '.';
      assert false;
    }
  }

  lemma NamesHaveDots(env: Env, name: string)
    requires '.' !in name
    ensures Lookup(env, name) == None
  {
  }

  /** The reply to a call; a panic becomes an error that names the method. */
  function ReplyTo(name: string, b: Behaviour): Reply {
    match b
    case Returns(value) => Returned(value)
    case Fails(err) => Failed(err)
    case Panics => Failed("rpc: internal server error during " + name)
  }

  function HeaderFrom(env: Env, r: Request): Option<(string, nat)> {
    match r
    case Header(name, number) => Some((name, number))
    case Args(value) => env.asHeader(value)
  }

  function ArgsFrom(env: Env, r: Request): Option<string> {
    match r
    case Header(name, number) => env.asArgs(name, number)
    case Args(value) => Some(value)
  }

  /** The call the request at `read` asks for, if all of it is there and the server knows the method. */
  function CallAt(env: Env, requests: seq<Request>, read: nat): Option<Exec> {
    if |requests| < read + 2 then None
    else
      var header := HeaderFrom(env, requests[read]);
      if header.None? then None
      else
        var f := Lookup(env, header.value.0);
        var args := ArgsFrom(env, requests[read + 1]);
        if f.None? || args.None? then None
        else Some(Exec(header.value.0, header.value.1, args.value, ReplyTo(header.value.0, f.value(args.value))))
  }

  /** The method calls a stream of requests leads to, when every response can be written. */
  function Served(env: Env, requests: seq<Request>, read: nat, limit: nat): seq<Exec>
    decreases limit
  {
    var x := CallAt(env, requests, read);
    if limit == 0 || x.None? then [] else [x.value] + Served(env, requests, read + 2, limit - 1)
  }

  /** Methods that fail do so with a text. */
  ghost predicate NamesErrors(env: Env) {
    forall service, name, args | service in env.services && name in env.services[service] ::
      env.services[service][name](args) != Fails("")
  }

  /** `executed` are the calls made and `responses` the items written when `room` items can be. */
  ghost predicate Outcome(env: Env, requests: seq<Request>, limit: nat, room: nat, executed: seq<Exec>, responses: seq<Response>) {
    && executed <= Served(env, requests, 0, limit)
    && if |Stream(executed)| <= room then
         executed == Served(env, requests, 0, limit) && responses == Stream(executed)
       else
         executed != [] && |Stream(executed[..|executed| - 1])| <= room && responses == Stream(executed)[..room]
  }

  /** Writes the unit of a call, or as much of it as there is room for. */
  method Respond(written: seq<Response>, room: nat, number: nat, reply: Reply) returns (responses: seq<Response>, ok: bool)
    requires |written| <= room
    ensures ok <==> |written + UnitOf(number, reply)| <= room
    ensures responses == if ok then written + UnitOf(number, reply) else (written + UnitOf(number, reply))[..room]
  {
    responses, ok := written, false;
    if |responses| == room {
      return;
    }
    responses := responses + [Answer(number, ErrText(reply))];
    if reply.Returned? {
      if |responses| == room {
        return;
      }
      responses := responses + [Body(reply.value)];
    }
    ok := true;
  }

  function UnitOf(number: nat, reply: Reply): seq<Response> {
    Unit(Exec("", number, "", reply))
  }

  /** Decodes the request at `read` and calls the method it names. */
  method NextCall(env: Env, requests: seq<Request>, read: nat) returns (x: Option<Exec>)
    requires read <= |requests|
    ensures x == CallAt(env, requests, read)
  {
    x := None;
    if read == |requests| {
      return;
    }
    var header := HeaderFrom(env, requests[read]);
    if header.None? {
      return;
    }
    var (name, number) := header.value;
    var f := Lookup(env, name);
    if f.None? || read + 1 == |requests| {
      return;
    }
    var args := ArgsFrom(env, requests[read + 1]);
    if args.Some? {
      x := Some(Exec(name, number, args.value, ReplyTo(name, f.value(args.value))));
    }
  }

  lemma Unanswered(env: Env, requests: seq<Request>, read: nat, limit: nat)
    requires CallAt(env, requests, read).None? || limit == 0
    ensures Served(env, requests, read, limit) == []
  {
  }

  lemma Answered(env: Env, requests: seq<Request>, read: nat, limit: nat)
    requires CallAt(env, requests, read).Some? && limit > 0
    ensures read + 2 <= |requests|
    ensures Served(env, requests, read, limit) == [CallAt(env, requests, read).value] + Served(env, requests, read + 2, limit - 1)
  {
  }

  /** The server has written the units of `executed`, and `read` items of the requests led to them. */
  ghost predicate Progress(env: Env, requests: seq<Request>, limit: nat, room: nat, read: nat, rounds: nat, executed: seq<Exec>, responses: seq<Response>) {
    && read <= |requests| && rounds <= limit
    && responses == Stream(executed) && |responses| <= room
    && Served(env, requests, 0, limit) == executed + Served(env, requests, read, limit - rounds)
  }

  /**
    Serves a connection that carries `requests`, takes `room` more items and whose context is
    cancelled after `limit` rounds. The calls made are those the requests lead to, up to the first
    response that cannot be written; what is written are their units.
   */
  method ServeConn(env: Env, requests: seq<Request>, limit: nat, room: nat)
    returns (responses: seq<Response>, executed: seq<Exec>)
    ensures Outcome(env, requests, limit, room, executed, responses)
  {
    responses, executed := [], [];
    var read, rounds := 0, 0;
    hide Served, CallAt, Outcome;
    while rounds < limit
      invariant read <= |requests| && |responses| <= room && rounds <= limit
      invariant Progress(env, requests, limit, room, read, rounds, executed, responses)
    {
      hide *;
      var next := NextCall(env, requests, read);
      if next.None? {
        break;
      }
      var x := next.value;
      var ok: bool;
      ghost var before := responses;
      responses, ok := Respond(responses, room, x.number, x.reply);
      OneMore(env, requests, limit, room, read, rounds, executed, before, x);
      executed := executed + [x];
      if !ok {
        return;
      }
      read, rounds := read + 2, rounds + 1;
    }
    Complete(env, requests, limit, room, read, rounds, executed, responses);
  }

  lemma OneMore(env: Env, requests: seq<Request>, limit: nat, room: nat, read: nat, rounds: nat, executed: seq<Exec>, responses: seq<Response>, x: Exec)
    requires Progress(env, requests, limit, room, read, rounds, executed, responses)
    requires CallAt(env, requests, read) == Some(x) && rounds < limit
    ensures var r := responses + UnitOf(x.number, x.reply);
            && read + 2 <= |requests|
            && (|r| <= room ==> Progress(env, requests, limit, room, read + 2, rounds + 1, executed + [x], r))
            && (|r| > room ==> Outcome(env, requests, limit, room, executed + [x], r[..room]))
  {
    Answered(env, requests, read, limit - rounds);
    var rest := Served(env, requests, read + 2, limit - rounds - 1);
    SameUnit(x);
    StreamSnoc(executed, x);
    hide Served, CallAt, UnitOf, Unit, Stream, Outcome;
    Shift(Served(env, requests, 0, limit), executed, x, rest);
    if |responses + UnitOf(x.number, x.reply)| > room {
      Short(env, requests, limit, room, executed, x, (responses + UnitOf(x.number, x.reply))[..room]);
    }
  }

  lemma Shift(all: seq<Exec>, a: seq<Exec>, x: Exec, rest: seq<Exec>)
    requires all == a + ([x] + rest)
    ensures all == (a + [x]) + rest && a + [x] <= all
  {
    assert a + ([x] + rest) == (a + [x]) + rest;
  }

  lemma Complete(env: Env, requests: seq<Request>, limit: nat, room: nat, read: nat, rounds: nat, executed: seq<Exec>, responses: seq<Response>)
    requires Progress(env, requests, limit, room, read, rounds, executed, responses)
    requires CallAt(env, requests, read).None? || rounds == limit
    ensures Outcome(env, requests, limit, room, executed, responses)
  {
    Unanswered(env, requests, read, limit - rounds);
    assert responses[..|responses|] == responses;
    hide Served, Stream;
  }

  lemma SameUnit(x: Exec)
    ensures UnitOf(x.number, x.reply) == Unit(x)
  {
  }

  /** The connection fails in the middle of the unit of the last call. */
  lemma Short(env: Env, requests: seq<Request>, limit: nat, room: nat, before: seq<Exec>, x: Exec, responses: seq<Response>)
    requires before + [x] <= Served(env, requests, 0, limit)
    requires |Stream(before)| <= room < |Stream(before) + Unit(x)|
    requires responses == (Stream(before) + Unit(x))[..room]
    ensures Outcome(env, requests, limit, room, before + [x], responses)
  {
    StreamSnoc(before, x);
    assert (before + [x])[..|before|] == before;
    hide Served, Stream;
  }

  // ---------- the loop is a run of the connection's steps ----------

  lemma {:induction false} ServedAt(env: Env, requests: seq<Request>, read: nat, limit: nat, i: nat)
    requires i < |Served(env, requests, read, limit)|
    ensures CallAt(env, requests, read + 2 * i) == Some(Served(env, requests, read, limit)[i])
    decreases limit
  {
    hide CallAt;
    if i > 0 {
      ServedAt(env, requests, read + 2, limit - 1, i - 1);
    }
  }

  /** Decoding a request and calling the method. */
  lemma CallSteps(cfg: Config, s: State, t: State, env: Env) returns (u: State)
    requires Leads(cfg, s, t) && t.serving == AwaitHeader
    requires CallAt(env, t.requests, t.read).Some? && (cfg.namedErrors ==> NamesErrors(env))
    ensures var x := CallAt(env, t.requests, t.read).value;
            && Leads(cfg, s, u)
            && u == t.(read := t.read + 2, serving := Replying(x.number, x.reply), executed := t.executed + [x])
  {
    hide *;
    var x := CallAt(env, t.requests, t.read).value;
    CallParts(env, t.requests, t.read);
    u := DecodeSteps(cfg, s, t, x.name, x.number, x.args);
    u := CallStep(cfg, s, u, x.reply);
  }

  lemma CallStep(cfg: Config, s: State, t: State, reply: Reply) returns (u: State)
    requires Leads(cfg, s, t) && t.serving.Invoking? && (cfg.namedErrors ==> reply != Failed(""))
    ensures Leads(cfg, s, u)
    ensures var x := t.serving;
            u == t.(serving := Replying(x.number, reply), executed := t.executed + [Exec(x.name, x.number, x.args, reply)])
  {
    hide Leads;
    u := Onward(cfg, s, t, ServerCalls(reply));
  }

  lemma DecodeSteps(cfg: Config, s: State, t: State, name: string, number: nat, args: string) returns (u: State)
    requires Leads(cfg, s, t) && t.serving == AwaitHeader && t.read + 2 <= |t.requests|
    requires t.requests[t.read].Header? ==> t.requests[t.read] == Header(name, number)
    requires t.requests[t.read + 1].Args? ==> t.requests[t.read + 1] == Args(args)
    ensures Leads(cfg, s, u) && u == t.(read := t.read + 2, serving := Invoking(name, number, args))
  {
    hide Leads;
    u := Onward(cfg, s, t, ServerReadsHeader(Header(name, number)));
    u := Onward(cfg, s, u, ServerReadsArgs(args));
  }

  lemma CallParts(env: Env, requests: seq<Request>, read: nat)
    requires CallAt(env, requests, read).Some?
    ensures var x := CallAt(env, requests, read).value;
            && read + 2 <= |requests|
            && (requests[read].Header? ==> requests[read] == Header(x.name, x.number))
            && (requests[read + 1].Args? ==> requests[read + 1] == Args(x.args))
            && (NamesErrors(env) ==> x.reply != Failed(""))
  {
    hide LastDot;
  }

  /** Writing the unit of a call, or the first item of it. */
  lemma UnitSteps(cfg: Config, s: State, t: State, x: Exec, partly: bool) returns (u: State)
    requires Leads(cfg, s, t) && t.serving == Replying(x.number, x.reply)
    ensures Leads(cfg, s, u)
    ensures if partly then u == t.(serving := u.serving, responses := t.responses + Unit(x)[..1])
            else u == t.(serving := AwaitHeader, responses := t.responses + Unit(x))
  {
    hide Leads;
    u := Onward(cfg, s, t, ServerWritesHeader);
    if !partly && x.reply.Returned? {
      u := Onward(cfg, s, u, ServerWritesBody);
      assert t.responses + [Answer(x.number, "")] + [Body(x.reply.value)] == t.responses + Unit(x);
    }
  }

  /** A server that has not read anything yet. */
  predicate Fresh(s: State) {
    s.serving == AwaitHeader && s.read == 0 && s.responses == [] && s.executed == []
  }

  lemma {:induction false} Rounds(cfg: Config, s: State, env: Env, limit: nat, e: seq<Exec>) returns (t: State)
    requires Fresh(s) && e <= Served(env, s.requests, 0, limit) && (cfg.namedErrors ==> NamesErrors(env))
    ensures Leads(cfg, s, t) && t == s.(read := 2 * |e|, executed := e, responses := Stream(e))
    decreases |e|
  {
    hide *;
    if e == [] {
      NoRounds(s);
      Nowhere(cfg, s);
      t := s;
    } else {
      var before, x := e[..|e| - 1], e[|e| - 1];
      LastOfPrefix(e, Served(env, s.requests, 0, limit));
      ServedAt(env, s.requests, 0, limit, |before|);
      t := Rounds(cfg, s, env, limit, before);
      t := OneRound(cfg, s, t, env, before, x);
    }
  }

  lemma NoRounds(s: State)
    requires Fresh(s)
    ensures s == s.(read := 0, executed := [], responses := Stream([]))
  {
  }

  lemma LastOfPrefix(e: seq<Exec>, all: seq<Exec>)
    requires e != [] && e <= all
    ensures e[..|e| - 1] <= all && |e| - 1 < |all| && all[|e| - 1] == e[|e| - 1] && e == e[..|e| - 1] + [e[|e| - 1]]
  {
  }

  /** One more call, with its whole unit. */
  lemma OneRound(cfg: Config, s: State, t: State, env: Env, before: seq<Exec>, x: Exec) returns (u: State)
    requires Leads(cfg, s, t) && t == s.(read := 2 * |before|, executed := before, responses := Stream(before)) && Fresh(s)
    requires CallAt(env, s.requests, 2 * |before|) == Some(x) && (cfg.namedErrors ==> NamesErrors(env))
    ensures Leads(cfg, s, u) && u == s.(read := 2 * |before + [x]|, executed := before + [x], responses := Stream(before + [x]))
  {
    assert t.serving == AwaitHeader;
    hide *;
    StreamSnoc(before, x);
    u := CallSteps(cfg, s, t, env);
    u := UnitSteps(cfg, s, u, x, false);
  }

  /** What the loop writes is what some run of the connection's steps writes. */
  lemma ServesAsSteps(cfg: Config, s: State, env: Env, limit: nat, room: nat, executed: seq<Exec>, responses: seq<Response>)
    requires Fresh(s) && Outcome(env, s.requests, limit, room, executed, responses) && (cfg.namedErrors ==> NamesErrors(env))
    ensures exists t :: Leads(cfg, s, t) && t.executed == executed && t.responses == responses && t.serving == Stopped
  {
    hide Served, Stream, CallAt, Leads, NamesErrors, Unit;
    if |Stream(executed)| <= room {
      var t := Rounds(cfg, s, env, limit, executed);
      t := StopStep(cfg, s, t);
    } else {
      var before, x := executed[..|executed| - 1], executed[|executed| - 1];
      LastOfPrefix(executed, Served(env, s.requests, 0, limit));
      ServedAt(env, s.requests, 0, limit, |before|);
      CutOff(before, x, room);
      LastRound(cfg, s, env, limit, before, x, room > |Stream(before)|);
    }
  }

  lemma StopStep(cfg: Config, s: State, t: State) returns (u: State)
    requires Leads(cfg, s, t)
    ensures Leads(cfg, s, u) && u == t.(serving := Stopped)
  {
    hide Leads;
    u := Onward(cfg, s, t, ServerStops);
  }

  lemma CutOff(before: seq<Exec>, x: Exec, room: nat)
    requires |Stream(before)| <= room < |Stream(before + [x])|
    ensures Stream(before + [x])[..room] == Stream(before) + (if room > |Stream(before)| then Unit(x)[..1] else [])
  {
    StreamSnoc(before, x);
    hide Stream;
  }

  lemma LastRound(cfg: Config, s: State, env: Env, limit: nat, before: seq<Exec>, x: Exec, partly: bool)
    requires Fresh(s) && before + [x] <= Served(env, s.requests, 0, limit) && (cfg.namedErrors ==> NamesErrors(env))
    requires CallAt(env, s.requests, 2 * |before|) == Some(x)
    ensures exists t :: Leads(cfg, s, t) && t.executed == before + [x] && t.serving == Stopped
              && t.responses == Stream(before) + (if partly then Unit(x)[..1] else [])
  {
    hide Served, Stream, CallAt, Leads, NamesErrors, Unit;
    assert before <= before + [x];
    var t := Rounds(cfg, s, env, limit, before);
    t := CallSteps(cfg, s, t, env);
    if partly {
      t := UnitSteps(cfg, s, t, x, true);
    } else {
      assert t.responses == Stream(before) + [];
    }
    t := StopStep(cfg, s, t);
  }
}
