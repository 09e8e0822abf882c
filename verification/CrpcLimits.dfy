/**
  The three conditions under which calls and outcomes correlate are all needed: dropping any of them
  makes a run possible in which a call is completed with a reply no method call gave for it.
 */
module CrpcLimits {
  import opened Crpc
  import opened CrpcCorrelation

  ghost predicate Reachable(cfg: Config, s: State) {
    Leads(cfg, INIT, s)
  }

  lemma Start(cfg: Config)
    ensures Reachable(cfg, INIT)
  {
    Nowhere(cfg, INIT);
  }

  lemma Goes(cfg: Config, s: State, step: Step) returns (t: State)
    requires Reachable(cfg, s) && Enabled(cfg, s, step)
    ensures Reachable(cfg, t) && t == Next(cfg, s, step)
  {
    hide Enabled, Next;
    t := Onward(cfg, INIT, s, step);
  }

  /** Two headers in a row: the server takes the second for the arguments of the first. */
  ghost predicate TwoHeaders(s: State) {
    && s.requests == [Header("A", 0), Header("B", 1)] && s.read == 0 && s.serving == AwaitHeader
    && s.responses == [] && s.received == 0 && s.input == Reading && !s.connClosed && s.executed == []
    && |s.calls| == 2 && s.calls[0].name == "A" && s.calls[0].args == "x" && s.calls[0].number == 0
    && 0 in s.pending && s.pending[0] == 0
  }

  /** The server decodes a header and, as arguments, whatever it makes of the item behind it. */
  lemma Decodes(cfg: Config, s: State, name: string, number: nat, args: string) returns (t: State)
    requires Reachable(cfg, s) && s.serving == AwaitHeader && s.read + 1 < |s.requests|
    requires s.requests[s.read] == Header(name, number)
    requires s.requests[s.read + 1].Args? ==> s.requests[s.read + 1] == Args(args)
    ensures Reachable(cfg, t) && t == s.(serving := Invoking(name, number, args), read := s.read + 2)
  {
    hide Reachable;
    var a := Goes(cfg, s, ServerReadsHeader(Header(name, number)));
    t := Goes(cfg, a, ServerReadsArgs(args));
  }

  /** The server calls the method and writes the header of the response. */
  lemma Answers(cfg: Config, s: State, reply: Reply) returns (t: State)
    requires Reachable(cfg, s) && s.serving.Invoking? && (cfg.namedErrors ==> reply != Failed(""))
    ensures var x := s.serving;
            Reachable(cfg, t) && t == s.(serving := if reply.Returned? then SendingBody(reply.value) else AwaitHeader,
                executed := s.executed + [Exec(x.name, x.number, x.args, reply)],
                responses := s.responses + [Answer(x.number, ErrText(reply))])
  {
    hide Reachable;
    var a := Goes(cfg, s, ServerCalls(reply));
    t := Goes(cfg, a, ServerWritesHeader);
  }

  /** The client takes call 0 and completes it with what it makes of the next item. */
  lemma Completes(cfg: Config, s: State, value: string)
    requires Reachable(cfg, s) && |s.responses| == 2 && s.received == 0 && s.input == Reading && !s.connClosed
    requires s.responses[0] == Answer(0, "") && (s.responses[1].Body? ==> s.responses[1].value == value)
    requires 0 in s.pending && s.pending[0] == 0 && 0 < |s.calls|
    requires Exec(s.calls[0].name, s.calls[0].number, s.calls[0].args, Returned(value)) !in s.executed
    ensures exists t :: Reachable(cfg, t) && !DoneOk(t)
  {
    hide Reachable, DoneOk;
    var a := Goes(cfg, s, ReadHeader(Answer(0, "")));
    var b := Goes(cfg, a, Take);
    var c := Goes(cfg, b, ReadBody(value));
    assert c.executed == s.executed && c.calls == s.calls[0 := s.calls[0].(done := s.calls[0].done + [Got(value)])];
    hide Next, Enabled;
    NotExplained(c, Got(value));
  }

  lemma NotExplained(s: State, d: Completion)
    requires 0 < |s.calls| && d in s.calls[0].done && !Explained(s, 0, d)
    ensures !DoneOk(s)
  {
  }

  lemma WrongArguments(cfg: Config, s: State)
    requires Reachable(cfg, s) && TwoHeaders(s)
    ensures exists t :: Reachable(cfg, t) && !DoneOk(t)
  {
    hide Reachable;
    var a := Decodes(cfg, s, "A", 0, "z");
    var b := Answers(cfg, a, Returned("r"));
    var c := Goes(cfg, b, ServerWritesBody);
    assert c.executed == [Exec("A", 0, "z", Returned("r"))];
    Completes(cfg, c, "r");
  }

  /** Two senders at once write their headers one after the other. */
  lemma InterleavedSends(cfg: Config)
    requires !cfg.serialised
    ensures exists t :: Reachable(cfg, t) && !DoneOk(t)
  {
    Start(cfg);
    hide Reachable;
    var a := Goes(cfg, INIT, Go("A", "x"));
    var b := Goes(cfg, a, Go("B", "y"));
    var c := Goes(cfg, b, WriteHeader(0));
    var d := Goes(cfg, c, WriteHeader(1));
    WrongArguments(cfg, d);
  }

  /** Arguments that do not encode leave a header without arguments on the stream. */
  lemma UnencodableArguments(cfg: Config)
    requires !cfg.encodable
    ensures exists t :: Reachable(cfg, t) && !DoneOk(t)
  {
    hide Reachable, DoneOk;
    var a := FailedArguments(cfg);
    var b := Goes(cfg, a, Go("B", "y"));
    var c := Goes(cfg, b, WriteHeader(1));
    hide Next, Enabled;
    WrongArguments(cfg, c);
  }

  lemma FailedArguments(cfg: Config) returns (t: State)
    requires !cfg.encodable
    ensures Reachable(cfg, t)
    ensures t == INIT.(calls := [Call("A", "x", 0, Failing, [])], nextNumber := 1, pending := map[0 := 0], owner := [0],
                       requests := [Header("A", 0)])
  {
    Start(cfg);
    hide Reachable;
    var a := Goes(cfg, INIT, Go("A", "x"));
    var b := Goes(cfg, a, WriteHeader(0));
    t := Goes(cfg, b, WriteFails(0, false));
  }

  /** A call is sent completely. */
  lemma Sends(cfg: Config, s: State, name: string, args: string) returns (t: State)
    requires Reachable(cfg, s) && !s.closing && !s.shutdown && CanWrite(s) && forall x | x in s.calls :: x.phase == Sent
    ensures Reachable(cfg, t)
    ensures t == s.(calls := s.calls + [Call(name, args, s.nextNumber, Sent, [])], nextNumber := s.nextNumber + 1,
                pending := s.pending[s.nextNumber := |s.calls|], owner := s.owner + [|s.calls|],
                requests := s.requests + [Header(name, s.nextNumber), Args(args)])
  {
    hide Reachable;
    var c := |s.calls|;
    var a := Goes(cfg, s, Go(name, args));
    var b := Goes(cfg, a, WriteHeader(c));
    t := Goes(cfg, b, WriteArgs(c));
    assert t.calls == s.calls + [Call(name, args, s.nextNumber, Sent, [])];
    assert t.requests == s.requests + [Header(name, s.nextNumber), Args(args)];
  }

  /** The client takes the error for a success and the next header for its body. */
  lemma NamelessErrors(cfg: Config)
    requires !cfg.namedErrors
    ensures exists t :: Reachable(cfg, t) && !DoneOk(t)
  {
    Start(cfg);
    hide Reachable;
    var a := Sends(cfg, INIT, "A", "x");
    var b := Sends(cfg, a, "B", "y");
    var c := Decodes(cfg, b, "A", 0, "x");
    var d := Answers(cfg, c, Failed(""));
    var e := Decodes(cfg, d, "B", 1, "y");
    var f := Answers(cfg, e, Returned("r"));
    assert f.executed == [Exec("A", 0, "x", Failed("")), Exec("B", 1, "y", Returned("r"))];
    Completes(cfg, f, "z");
  }

  /**
    Every completed call of every run carries an outcome of its own method and arguments exactly when
    sends are serialised, arguments encode and errors have a text.
   */
  lemma CorrelationExactly(cfg: Config)
    ensures (forall s :: Reachable(cfg, s) ==> DoneOk(s)) <==> cfg.serialised && cfg.encodable && cfg.namedErrors
  {
    if !cfg.serialised {
      InterleavedSends(cfg);
    } else if !cfg.encodable {
      UnencodableArguments(cfg);
    } else if !cfg.namedErrors {
      NamelessErrors(cfg);
    } else {
      assert cfg == GOOD;
      forall s | Reachable(cfg, s) ensures DoneOk(s) {
        var steps :| Run(cfg, INIT, steps) && After(cfg, INIT, steps) == s;
        InitInv();
        RunInv(INIT, steps);
      }
    }
  }
}
