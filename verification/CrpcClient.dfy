/**
  The client as an object: `send`, the input loop and `Close` change its fields. Run one after the
  other they are runs of the connection's steps; their interleavings are the runs of Crpc.
 */
module CrpcClient {
  import opened Results
  import opened Crpc
  import Delivery = CrpcDelivery

  /** What the decoder makes of an item of the wrong kind. */
  datatype Decoder = Decoder(asHeader: string -> Option<(nat, string)>, asBody: (nat, string) -> Option<string>)

  function HeaderFrom(dec: Decoder, r: Response): Option<(nat, string)> {
    match r
    case Answer(number, err) => Some((number, err))
    case Body(value) => dec.asHeader(value)
  }

  function BodyFrom(dec: Decoder, r: Response): Option<string> {
    match r
    case Answer(number, err) => dec.asBody(number, err)
    case Body(value) => Some(value)
  }

  datatype Table = Table(calls: seq<Call>, pending: map<nat, nat>)

  function Done(calls: seq<Call>, c: nat, d: Completion): seq<Call> {
    if c < |calls| then calls[c := calls[c].(done := calls[c].done + [d])] else calls
  }

  /** The call waiting under `number`, if any, is completed and waits no more. */
  function Resolve(t: Table, number: nat, d: Completion): Table {
    Table(if number in t.pending then Done(t.calls, t.pending[number], d) else t.calls, t.pending - {number})
  }

  /** One round of the input loop: what it does to the calls, how many items it takes, and if it goes on. */
  function Round(dec: Decoder, t: Table, r: seq<Response>): (x: (Table, nat, bool))
    ensures x.1 <= |r| && (x.2 ==> x.1 > 0)
  {
    var header := if r == [] then None else HeaderFrom(dec, r[0]);
    if header.None? then (t, 0, false)
    else if header.value.1 != "" then (Resolve(t, header.value.0, ServerError(header.value.1)), 1, true)
    else
      var body := if |r| == 1 then None else BodyFrom(dec, r[1]);
      if body.None? then (Resolve(t, header.value.0, LocalError), 1, false)
      else (Resolve(t, header.value.0, Got(body.value)), 2, true)
  }

  /** What a stream of responses does to the calls, up to the first item that does not decode. */
  function Deliver(dec: Decoder, t: Table, r: seq<Response>): Table
    decreases |r|
  {
    var (u, taken, more) := Round(dec, t, r);
    if more then Deliver(dec, u, r[taken..]) else u
  }

  /** No two waiting calls are the same, and all of them exist. */
  ghost predicate Apart(calls: seq<Call>, pending: map<nat, nat>) {
    && (forall n | n in pending :: pending[n] < |calls|)
    && (forall m, n | m in pending && n in pending && m != n :: pending[m] != pending[n])
  }

  lemma ValidApart(s: State)
    requires Delivery.Inv(s)
    ensures Apart(s.calls, s.pending)
  {
    assert Delivery.NumbersOk(s);
    hide Delivery.CallsOk;
    forall m, n | m in s.pending && n in s.pending && m != n ensures s.pending[m] != s.pending[n] {
      assert s.calls[s.owner[m]].number == m && s.calls[s.owner[n]].number == n;
    }
  }

  lemma OneMoreTold(calls: seq<Call>, pending: map<nat, nat>, told: map<nat, nat>, n: nat)
    requires Apart(calls, pending) && n in pending && n !in told
    requires forall m | m in told :: m in pending && told[m] == pending[m]
    ensures DrainCalls(calls, told[n := pending[n]]) == Done(DrainCalls(calls, told), pending[n], LocalError)
  {
    var c, more := pending[n], told[n := pending[n]];
    assert c !in told.Values;
    forall i ensures i in more.Values <==> i == c || i in told.Values {
      assert more[n] == c;
      if i in told.Values {
        var m :| m in told && told[m] == i;
        assert more[m] == i;
      }
    }
  }

  /** `r` is what the client will still receive: nothing more once it has closed the connection. */
  ghost predicate CanReceiveAll(s: State, r: seq<Response>) {
    s.received <= |s.responses| && if s.connClosed then r == [] else s.responses[s.received..] == r
  }

  /** A failed write is due to the connection or to arguments that do not encode. */
  ghost predicate Feasible(cfg: Config, s: State, headerOk: bool, argsOk: bool, lost: bool) {
    if CanWrite(s) then (headerOk && argsOk) || lost || (headerOk && !cfg.encodable) else !headerOk
  }

  ghost predicate Idle(s: State) {
    Delivery.Inv(s) && forall x | x in s.calls :: x.phase != HeaderSent
  }

  lemma LeadsOn(cfg: Config, s: State, t: State, u: State)
    requires Leads(cfg, s, t) && Leads(cfg, t, u)
    ensures Leads(cfg, s, u)
  {
    hide Enabled, Next;
    var one :| Run(cfg, s, one) && After(cfg, s, one) == t;
    var two :| Run(cfg, t, two) && After(cfg, t, two) == u;
    RunsJoin(cfg, s, one, two);
  }

  lemma {:induction false} RunsJoin(cfg: Config, s: State, one: seq<Step>, two: seq<Step>)
    requires Run(cfg, s, one) && Run(cfg, After(cfg, s, one), two)
    ensures Run(cfg, s, one + two) && After(cfg, s, one + two) == After(cfg, After(cfg, s, one), two)
    decreases |one|
  {
    hide Enabled, Next;
    if one == [] {
      assert one + two == two;
    } else {
      assert (one + two)[1..] == one[1..] + two;
      RunsJoin(cfg, Next(cfg, s, one[0]), one[1..], two);
    }
  }

  lemma LeadsInv(cfg: Config, s: State, t: State)
    requires Delivery.Inv(s) && Leads(cfg, s, t)
    ensures Delivery.Inv(t)
  {
    hide Delivery.Inv;
    var steps :| Run(cfg, s, steps) && After(cfg, s, steps) == t;
    Delivery.RunInv(cfg, s, steps);
  }

  /** A call that is sent, or fails to be. */
  lemma SendSteps(cfg: Config, s: State, name: string, args: string, headerOk: bool, argsOk: bool, lost: bool) returns (t: State)
    requires Idle(s) && Feasible(cfg, s, headerOk, argsOk, lost)
    ensures Leads(cfg, s, t) && Idle(t)
    ensures t.closing == s.closing && t.shutdown == s.shutdown
    ensures if s.closing || s.shutdown then
              t.calls == s.calls + [Call(name, args, 0, Rejected, [LocalError])] && t.pending == s.pending && t.nextNumber == s.nextNumber
            else if headerOk && argsOk then
              t.calls == s.calls + [Call(name, args, s.nextNumber, Sent, [])] && t.pending == s.pending[s.nextNumber := |s.calls|]
              && t.nextNumber == s.nextNumber + 1 && t.requests == s.requests + [Header(name, s.nextNumber), Args(args)]
            else
              t.calls == s.calls + [Call(name, args, s.nextNumber, GivenUp, [LocalError])]
              && t.pending == s.pending[s.nextNumber := |s.calls|] - {s.nextNumber} && t.nextNumber == s.nextNumber + 1
  {
    Nowhere(cfg, s);
    hide Leads, Delivery.Inv;
    t := Onward(cfg, s, s, Go(name, args));
    if !s.closing && !s.shutdown {
      var c := |s.calls|;
      if headerOk {
        t := Onward(cfg, s, t, WriteHeader(c));
      }
      assert t.calls == s.calls + [Call(name, args, s.nextNumber, if headerOk then HeaderSent else Registered, [])];
      assert t.pending == s.pending[s.nextNumber := c] && t.nextNumber == s.nextNumber + 1;
      assert t.requests == s.requests + if headerOk then [Header(name, s.nextNumber)] else [];
      hide Next, Enabled;
      var sent := headerOk && argsOk;
      t := FinishSend(cfg, s, t, sent, lost);
      var none: seq<Completion> := [];
      assert none + [LocalError] == [LocalError];
      if sent {
        assert t.calls == s.calls + [Call(name, args, s.nextNumber, Sent, [])];
        assert t.requests == s.requests + [Header(name, s.nextNumber), Args(args)];
      } else {
        assert t.calls == s.calls + [Call(name, args, s.nextNumber, GivenUp, [LocalError])];
      }
    }
    LeadsInv(cfg, s, t);
  }

  lemma FinishSend(cfg: Config, s: State, t: State, ok: bool, lost: bool) returns (u: State)
    requires Leads(cfg, s, t) && |t.calls| > 0 && t.calls[|t.calls| - 1].phase in {Registered, HeaderSent}
    requires ok ==> t.calls[|t.calls| - 1].phase == HeaderSent && CanWrite(t)
    requires !ok ==> lost || !CanWrite(t) || (t.calls[|t.calls| - 1].phase == HeaderSent && !cfg.encodable)
    ensures Leads(cfg, s, u)
    ensures u.closing == t.closing && u.shutdown == t.shutdown && u.nextNumber == t.nextNumber
    ensures var c := |t.calls| - 1; var x := t.calls[c];
            if ok then
              u.calls == t.calls[c := x.(phase := Sent)] && u.pending == t.pending && u.requests == t.requests + [Args(x.args)]
            else u.calls == t.calls[c := x.(phase := GivenUp, done := x.done + [LocalError])] && u.pending == t.pending - {x.number}
  {
    hide Leads;
    var c := |t.calls| - 1;
    if ok {
      u := Onward(cfg, s, t, WriteArgs(c));
    } else {
      u := Onward(cfg, s, t, WriteFails(c, lost));
      u := Onward(cfg, s, u, Remove(c));
      u := Onward(cfg, s, u, GiveUp(c));
    }
  }

  lemma CloseSteps(cfg: Config, s: State) returns (t: State)
    requires Idle(s)
    ensures Leads(cfg, s, t) && Idle(t)
    ensures t == if s.closing then s else s.(closing := true, connClosed := true)
  {
    Nowhere(cfg, s);
    hide Leads, Delivery.Inv;
    t := s;
    if !s.closing {
      t := Onward(cfg, s, t, Crpc.Close);
      t := Onward(cfg, s, t, CloseConn);
    }
    LeadsInv(cfg, s, t);
  }

  lemma RoundSteps(cfg: Config, s: State, dec: Decoder, r: seq<Response>) returns (t: State)
    requires Idle(s) && s.input == Reading && CanReceiveAll(s, r)
    ensures Leads(cfg, s, t) && Idle(t)
    ensures var (u, taken, more) := Round(dec, Table(s.calls, s.pending), r);
            t == s.(calls := u.calls, pending := u.pending, received := s.received + taken,
                    input := if more then Reading else Draining, finished := t.finished)
            && CanReceiveAll(t, r[taken..])
  {
    hide *;
    IdleInv(s);
    ValidApart(s);
    RoundKeepsRest(s, dec, r);
    if r == [] || HeaderFrom(dec, r[0]).None? {
      t := NoHeaderSteps(cfg, s, dec, r);
    } else {
      t := HeaderSteps(cfg, s, dec, r, HeaderFrom(dec, r[0]).value.0, HeaderFrom(dec, r[0]).value.1);
    }
    StillIdle(cfg, s, t);
  }

  lemma IdleInv(s: State)
    requires Idle(s)
    ensures Delivery.Inv(s)
  {
    hide Delivery.Inv;
  }

  /** The input loop does not change where the senders stand. */
  lemma StillIdle(cfg: Config, s: State, t: State)
    requires Idle(s) && Leads(cfg, s, t) && |t.calls| == |s.calls| && forall c | 0 <= c < |s.calls| :: t.calls[c].phase == s.calls[c].phase
    ensures Idle(t)
  {
    hide Leads, Delivery.Inv;
    LeadsInv(cfg, s, t);
    forall x | x in t.calls ensures x.phase != HeaderSent {
      var c :| 0 <= c < |t.calls| && t.calls[c] == x;
      assert s.calls[c] in s.calls;
    }
  }

  lemma NoHeaderSteps(cfg: Config, s: State, dec: Decoder, r: seq<Response>) returns (t: State)
    requires s.input == Reading && (r == [] || HeaderFrom(dec, r[0]).None?)
    ensures Leads(cfg, s, t)
    ensures t == s.(input := Draining) && Round(dec, Table(s.calls, s.pending), r) == (Table(s.calls, s.pending), 0, false)
  {
    Nowhere(cfg, s);
    hide Leads;
    t := Onward(cfg, s, s, ReadHeaderFails);
  }

  lemma HeaderSteps(cfg: Config, s: State, dec: Decoder, r: seq<Response>, number: nat, err: string) returns (t: State)
    requires s.input == Reading && CanReceiveAll(s, r) && Apart(s.calls, s.pending) && r != [] && HeaderFrom(dec, r[0]) == Some((number, err))
    ensures Leads(cfg, s, t) && |t.calls| == |s.calls| && forall c | 0 <= c < |s.calls| :: t.calls[c].phase == s.calls[c].phase
    ensures var (u, taken, more) := Round(dec, Table(s.calls, s.pending), r);
            t == s.(calls := u.calls, pending := u.pending, received := s.received + taken,
                    input := if more then Reading else Draining, finished := t.finished)
  {
    ToReceive(s, dec, r);
    hide Leads, CanReceiveAll, HeaderFrom, BodyFrom;
    t := TakeSteps(cfg, s, number, err);
    ToReceiveRest(s, t, r);
    assert t.input.call.Some? ==> t.input.call.value < |t.calls|;
    hide Apart, Next, Enabled;
    t := FinishRound(cfg, s, t, dec, r[1..]);
  }

  lemma ToReceive(s: State, dec: Decoder, r: seq<Response>)
    requires CanReceiveAll(s, r) && r != []
    ensures CanReceive(s) && s.responses[s.received] == r[0]
    ensures s.responses[s.received].Answer? && HeaderFrom(dec, r[0]).Some? ==>
              var h := HeaderFrom(dec, r[0]).value; s.responses[s.received] == Answer(h.0, h.1)
  {
  }

  lemma ToReceiveRest(s: State, t: State, r: seq<Response>)
    requires CanReceiveAll(s, r) && r != [] && t.responses == s.responses && t.connClosed == s.connClosed && t.received == s.received + 1
    ensures CanReceiveAll(t, r[1..])
  {
  }

  lemma RoundKeepsRest(s: State, dec: Decoder, r: seq<Response>)
    requires CanReceiveAll(s, r)
    ensures var taken := Round(dec, Table(s.calls, s.pending), r).1;
            forall t: State | t.responses == s.responses && t.connClosed == s.connClosed && t.received == s.received + taken ::
              CanReceiveAll(t, r[taken..])
  {
    hide Round;
    var taken := Round(dec, Table(s.calls, s.pending), r).1;
    forall t: State | t.responses == s.responses && t.connClosed == s.connClosed && t.received == s.received + taken
      ensures CanReceiveAll(t, r[taken..])
    {
      if !s.connClosed {
        assert t.responses[t.received..] == r[taken..];
      }
    }
  }

  /** The header is decoded and its call looked up. */
  lemma TakeSteps(cfg: Config, s: State, number: nat, err: string) returns (t: State)
    requires s.input == Reading && CanReceive(s)
    requires s.responses[s.received].Answer? ==> s.responses[s.received] == Answer(number, err)
    ensures Leads(cfg, s, t)
    ensures t == s.(pending := s.pending - {number}, received := s.received + 1,
                    input := Taken(if number in s.pending then Some(s.pending[number]) else None, err))
  {
    Nowhere(cfg, s);
    hide Leads;
    t := Onward(cfg, s, s, ReadHeader(Answer(number, err)));
    t := Onward(cfg, s, t, Take);
  }

  lemma FinishRound(cfg: Config, s: State, t: State, dec: Decoder, r: seq<Response>) returns (u: State)
    requires Leads(cfg, s, t) && t.input.Taken? && (t.input.call.Some? ==> t.input.call.value < |t.calls|)
    requires CanReceiveAll(t, r)
    ensures Leads(cfg, s, u)
    ensures var body := if r == [] then None else BodyFrom(dec, r[0]);
            var failed := t.input.err == "" && body.None?;
            var d := if t.input.err != "" then ServerError(t.input.err) else if body.Some? then Got(body.value) else LocalError;
            u == t.(calls := if t.input.call.Some? then Done(t.calls, t.input.call.value, d) else t.calls,
                    received := t.received + (if t.input.err == "" && body.Some? then 1 else 0),
                    input := if failed then Draining else Reading, finished := u.finished)
  {
    hide Leads;
    if t.input.err != "" {
      u := Onward(cfg, s, t, FinishWithError);
    } else if r == [] || BodyFrom(dec, r[0]).None? {
      u := Onward(cfg, s, t, ReadBodyFails);
    } else {
      u := Onward(cfg, s, t, ReadBody(BodyFrom(dec, r[0]).value));
    }
  }

  lemma DrainSteps(cfg: Config, s: State, t: State) returns (u: State)
    requires Leads(cfg, s, t) && Idle(t) && t.input == Draining
    ensures Leads(cfg, s, u) && Idle(u)
    ensures u == t.(calls := DrainCalls(t.calls, t.pending), pending := map[], shutdown := true, input := Ended)
  {
    hide Leads, Delivery.Inv;
    u := Onward(cfg, s, t, Drain);
    Delivery.StepInv(cfg, t, Drain);
  }

  class Client {
    var nextNumber: nat
    var pending: map<nat, nat>
    var closing: bool
    var shutdown: bool
    var calls: seq<Call>
    ghost var s: State

    ghost predicate Valid()
      reads this
    {
      && nextNumber == s.nextNumber && pending == s.pending && closing == s.closing && shutdown == s.shutdown && calls == s.calls
      && Idle(s)
    }

    constructor ()
      ensures Valid() && s == INIT
    {
      nextNumber, pending, closing, shutdown, calls := 0, map[], false, false, [];
      s := INIT;
      new;
      Delivery.InitInv();
    }

    /** The end of `input`: the calls still waiting are told, in whatever order the map yields them. */
    method Terminate()
      requires Apart(calls, pending)
      modifies this
      ensures calls == DrainCalls(old(calls), old(pending)) && pending == map[] && shutdown
      ensures nextNumber == old(nextNumber) && closing == old(closing) && s == old(s)
    {
      shutdown := true;
      calls := TellAll(calls, pending);
      pending := map[];
    }

    /** `send`; whether the header and the arguments can be encoded, and whether a failure breaks the connection, is given. */
    method Send(name: string, args: string, headerOk: bool, argsOk: bool, lost: bool, ghost cfg: Config) returns (c: nat)
      requires Valid() && Feasible(cfg, s, headerOk, argsOk, lost)
      modifies this
      ensures Valid() && Leads(cfg, old(s), s)
      ensures c == |old(calls)| && closing == old(closing) && shutdown == old(shutdown)
      ensures old(closing) || old(shutdown) ==>
                calls == old(calls) + [Call(name, args, 0, Rejected, [LocalError])] && pending == old(pending) && nextNumber == old(nextNumber)
      ensures !old(closing) && !old(shutdown) ==>
                && nextNumber == old(nextNumber) + 1
                && if headerOk && argsOk then
                     calls == old(calls) + [Call(name, args, old(nextNumber), Sent, [])] && pending == old(pending)[old(nextNumber) := c]
                   else
                     calls == old(calls) + [Call(name, args, old(nextNumber), GivenUp, [LocalError])] && pending == old(pending)
      ensures !old(closing) && !old(shutdown) && headerOk && argsOk ==>
                s.requests == old(s).requests + [Header(name, old(nextNumber)), Args(args)]
    {
      ghost var t := SendSteps(cfg, s, name, args, headerOk, argsOk, lost);
      ghost var before := pending;
      c := |calls|;
      if closing || shutdown {
        calls := calls + [Call(name, args, 0, Rejected, [LocalError])];
      } else {
        var number := nextNumber;
        nextNumber := nextNumber + 1;
        pending := pending[number := c];
        if headerOk && argsOk {
          calls := calls + [Call(name, args, number, Sent, [])];
        } else {
          pending := pending - {number};
          calls := calls + [Call(name, args, number, GivenUp, [LocalError])];
        }
      }
      s := t;
    }

    method Close(ghost cfg: Config) returns (ok: bool)
      requires Valid()
      modifies this
      ensures Leads(cfg, old(s), s)
      ensures Valid() && closing && ok == !old(closing)
      ensures calls == old(calls) && pending == old(pending) && nextNumber == old(nextNumber) && shutdown == old(shutdown)
      ensures s == if ok then old(s).(closing := true, connClosed := true) else old(s)
    {
      ok := !closing;
      ghost var t := CloseSteps(cfg, s);
      if ok {
        closing := true;
      }
      s := t;
    }

    /** One round of the input loop over what is left of the stream. */
    method Receive(dec: Decoder, responses: seq<Response>, ghost cfg: Config) returns (taken: nat, more: bool)
      requires Valid() && s.input == Reading && CanReceiveAll(s, responses)
      modifies this
      ensures Valid() && Leads(cfg, old(s), s)
      ensures (Table(calls, pending), taken, more) == Round(dec, Table(old(calls), old(pending)), responses)
      ensures s.input == (if more then Reading else Draining)
      ensures more ==> CanReceiveAll(s, responses[taken..])
    {
      hide Leads, Idle, CanReceiveAll, HeaderFrom, BodyFrom;
      ghost var t := RoundSteps(cfg, s, dec, responses);
      taken, more := 0, false;
      var header := if responses == [] then None else HeaderFrom(dec, responses[0]);
      if header.Some? {
        var (number, err) := header.value;
        var call := if number in pending then Some(pending[number]) else None;
        pending := pending - {number};
        taken, more := 1, true;
        var outcome := ServerError(err);
        if err == "" {
          var body := if |responses| == 1 then None else BodyFrom(dec, responses[1]);
          if body.Some? {
            outcome, taken := Got(body.value), 2;
          } else {
            outcome, more := LocalError, false;
          }
        }
        if call.Some? {
          calls := Done(calls, call.value, outcome);
        }
      }
      s := t;
    }

    /** The input loop over everything that will ever arrive, and its end. */
    method Input(dec: Decoder, responses: seq<Response>, ghost cfg: Config)
      requires Valid() && s.input == Reading && CanReceiveAll(s, responses)
      modifies this
      ensures Valid() && Leads(cfg, old(s), s) && s.input == Ended
      ensures shutdown && pending == map[]
      ensures var t := Deliver(dec, Table(old(calls), old(pending)), responses); calls == DrainCalls(t.calls, t.pending)
    {
      var rest, more := responses, true;
      Nowhere(cfg, s);
      while more
        invariant Valid() && Leads(cfg, old(s), s)
        invariant s.input == (if more then Reading else Draining)
        invariant more ==> CanReceiveAll(s, rest)
        invariant Deliver(dec, Table(old(calls), old(pending)), responses)
                  == if more then Deliver(dec, Table(calls, pending), rest) else Table(calls, pending)
        decreases |rest|, more
      {
        var taken: nat;
        ghost var before := s;
        taken, more := Receive(dec, rest, cfg);
        LeadsOn(cfg, old(s), before, s);
        rest := rest[taken..];
      }
      ValidApart(s);
      ghost var t := DrainSteps(cfg, old(s), s);
      Terminate();
      s := t;
    }
  }

  /** All of `pending` but `left` has been told. */
  ghost predicate Telling(calls: seq<Call>, pending: map<nat, nat>, left: map<nat, nat>, told: seq<Call>) {
    && (forall n | n in left :: n in pending && left[n] == pending[n])
    && told == DrainCalls(calls, pending - left.Keys)
  }

  method TellAll(calls: seq<Call>, pending: map<nat, nat>) returns (told: seq<Call>)
    requires Apart(calls, pending)
    ensures told == DrainCalls(calls, pending)
  {
    told := calls;
    var left := pending;
    TellNone(calls, pending);
    hide *;
    while left != map[]
      invariant Telling(calls, pending, left, told)
      decreases |left.Keys|
    {
      var n :| n in left;
      TellOne(calls, pending, left, told, n);
      told := Done(told, left[n], LocalError);
      left := left - {n};
    }
    TellRest(calls, pending, told);
  }

  lemma TellNone(calls: seq<Call>, pending: map<nat, nat>)
    ensures Telling(calls, pending, pending, calls)
  {
    assert pending - pending.Keys == map[];
  }

  lemma TellRest(calls: seq<Call>, pending: map<nat, nat>, told: seq<Call>)
    requires Telling(calls, pending, map[], told)
    ensures told == DrainCalls(calls, pending)
  {
    var none: map<nat, nat> := map[];
    assert pending - none.Keys == pending;
  }

  lemma TellOne(calls: seq<Call>, pending: map<nat, nat>, left: map<nat, nat>, told: seq<Call>, n: nat)
    requires Apart(calls, pending) && Telling(calls, pending, left, told) && n in left
    ensures Telling(calls, pending, left - {n}, Done(told, left[n], LocalError))
    ensures |(left - {n}).Keys| < |left.Keys|
  {
    assert (left - {n}).Keys == left.Keys - {n};
    var gone := pending - left.Keys;
    hide DrainCalls, Done;
    OneMoreTold(calls, pending, gone, n);
    assert pending - (left - {n}).Keys == gone[n := pending[n]];
  }
}
