/**
  With serialised sends a call is executed at most once, in the order in which the headers were
  written, so the outcome a completed call carries is that of the only method call made for it.
 */
module CrpcOnce {
  import opened Crpc
  import opened CrpcCorrelation

  /** The header of the `i`-th request on the stream. */
  function HeaderAt(s: State, i: nat): Request
    requires 2 * i < |s.requests|
  {
    s.requests[2 * i]
  }

  /** The header is the only one with its number, and its call is past the point of writing it. */
  ghost predicate DistinctOk(s: State) {
    && (forall i | 0 <= i && 2 * i < |s.requests| ::
          HeaderOk(s, HeaderAt(s, i)) && s.calls[s.owner[HeaderAt(s, i).number]].phase != Registered)
    && (forall i, j | 0 <= i < j && 2 * j < |s.requests| :: HeaderAt(s, i).number != HeaderAt(s, j).number)
  }

  /** The `i`-th method call is the one the `i`-th request asks for. */
  ghost predicate PositionOk(s: State) {
    && (match s.serving
        case AwaitArgs(_, _) => s.read == 2 * |s.executed| + 1
        case Invoking(_, _, _) => s.read == 2 * |s.executed| + 2
        case Stopped => 2 * |s.executed| <= s.read
        case _ => s.read == 2 * |s.executed|)
    && s.read <= |s.requests|
    && (forall i | 0 <= i < |s.executed| :: HeaderAt(s, i) == Header(s.executed[i].name, s.executed[i].number))
  }

  ghost predicate Once(s: State) {
    Inv(s) && DistinctOk(s) && PositionOk(s)
  }

  lemma InitOnce()
    ensures Once(INIT)
  {
    InitInv();
  }

  lemma HeadersWritten(s: State, i: nat)
    requires RequestsOk(s) && 2 * i < |s.requests|
    ensures HeaderOk(s, HeaderAt(s, i))
  {
    assert 2 * i % 2 == 0;
  }

  // ---------- one step at a time ----------

  lemma SamePosition(s: State, t: State)
    requires PositionOk(s) && s.requests <= t.requests && t.executed == s.executed && t.read == s.read && t.serving == s.serving
    ensures PositionOk(t)
  {
    forall i | 0 <= i < |t.executed| ensures HeaderAt(t, i) == Header(t.executed[i].name, t.executed[i].number) {
      assert HeaderAt(s, i) == HeaderAt(t, i);
    }
  }

  lemma SameDistinct(s: State, t: State)
    requires DistinctOk(s) && RequestsOk(t) && |t.requests| <= |s.requests| + |s.requests| % 2 && s.requests <= t.requests && SameCalls(s, t)
    requires forall c | 0 <= c < |s.calls| && t.calls[c].phase == Registered :: s.calls[c].phase == Registered
    ensures DistinctOk(t)
  {
    forall i | 0 <= i && 2 * i < |t.requests|
      ensures HeaderOk(t, HeaderAt(t, i)) && t.calls[t.owner[HeaderAt(t, i).number]].phase != Registered
    {
      HeadersWritten(t, i);
      assert HeaderAt(s, i) == HeaderAt(t, i);
    }
    forall i, j | 0 <= i < j && 2 * j < |t.requests| ensures HeaderAt(t, i).number != HeaderAt(t, j).number {
      assert HeaderAt(s, i) == HeaderAt(t, i) && HeaderAt(s, j) == HeaderAt(t, j);
    }
  }

  lemma NewHeader(s: State, c: nat)
    requires Inv(s) && DistinctOk(s) && Enabled(GOOD, s, WriteHeader(c)) && Inv(Next(GOOD, s, WriteHeader(c)))
    ensures DistinctOk(Next(GOOD, s, WriteHeader(c)))
  {
    var t := Next(GOOD, s, WriteHeader(c));
    assert Delivery.CallsOk(s);
    hide Inv, Next, Enabled, SendsOk, RequestsOk, Delivery.Inv, DistinctOk;
    InvSends(s);
    HeaderWritten(s, c);
    NoneWaiting(s);
    assert Delivery.CallOk(s, c);
    FreshNumber(s, c);
    OneMoreHeader(s, t, c);
  }

  lemma FreshNumber(s: State, c: nat)
    requires DistinctOk(s) && c < |s.calls| && s.calls[c].phase == Registered
    requires s.calls[c].number < |s.owner| && s.owner[s.calls[c].number] == c
    ensures forall i | 0 <= i && 2 * i < |s.requests| :: HeaderAt(s, i).number != s.calls[c].number
  {
  }

  lemma OneMoreHeader(s: State, t: State, c: nat)
    requires DistinctOk(s) && |s.requests| % 2 == 0 && c < |s.calls|
    requires forall i | 0 <= i && 2 * i < |s.requests| :: HeaderAt(s, i).number != s.calls[c].number
    requires t == s.(calls := s.calls[c := s.calls[c].(phase := HeaderSent)],
                     requests := s.requests + [Header(s.calls[c].name, s.calls[c].number)])
    requires s.calls[c].number < |s.owner| && s.owner[s.calls[c].number] == c
    ensures DistinctOk(t)
  {
    forall i | 0 <= i && 2 * i < |t.requests|
      ensures HeaderOk(t, HeaderAt(t, i)) && t.calls[t.owner[HeaderAt(t, i).number]].phase != Registered
    {
      if 2 * i < |s.requests| {
        assert HeaderAt(s, i) == HeaderAt(t, i);
      }
    }
    hide HeaderOk;
    forall i, j | 0 <= i < j && 2 * j < |t.requests| ensures HeaderAt(t, i).number != HeaderAt(t, j).number {
      assert HeaderAt(s, i) == HeaderAt(t, i);
      if 2 * j < |s.requests| {
        assert HeaderAt(s, j) == HeaderAt(t, j);
      }
    }
  }

  lemma ClientOnce(s: State, step: Step)
    requires Once(s) && Enabled(GOOD, s, step) && !IsServerStep(step) && Inv(Next(GOOD, s, step))
    ensures Once(Next(GOOD, s, step))
  {
    ClientLeavesServer(s, step);
    hide Inv, RequestsOk, DistinctOk, PositionOk, Next, Enabled;
    var t := Next(GOOD, s, step);
    SamePosition(s, t);
    if step.WriteHeader? {
      NewHeader(s, step.call);
    } else {
      InvRequests(t);
      InvSends(s);
      ArgsCompletePair(s, step);
      SameDistinct(s, t);
    }
  }

  lemma ClientLeavesServer(s: State, step: Step)
    requires Enabled(GOOD, s, step) && !IsServerStep(step)
    ensures var t := Next(GOOD, s, step);
            s.requests <= t.requests && t.executed == s.executed && t.read == s.read && t.serving == s.serving && SameCalls(s, t)
  {
    if IsSenderStep(step) {
      SenderSameCalls(s, step);
    } else {
      InputSameCalls(s, step);
    }
    hide SameCalls, DrainCalls;
  }

  lemma ArgsCompletePair(s: State, step: Step)
    requires SendsOk(s) && Enabled(GOOD, s, step) && !IsServerStep(step) && !step.WriteHeader?
    ensures |Next(GOOD, s, step).requests| <= |s.requests| + |s.requests| % 2
    ensures forall c | 0 <= c < |s.calls| && Next(GOOD, s, step).calls[c].phase == Registered :: s.calls[c].phase == Registered
  {
    var t := Next(GOOD, s, step);
    if step.WriteArgs? {
      assert |s.requests| % 2 == 1 && |t.requests| == |s.requests| + 1;
      assert t.calls == s.calls[step.call := s.calls[step.call].(phase := Sent)];
      hide Next, Enabled, SendsOk;
    } else {
      hide SendsOk;
      assert t.requests == s.requests;
    }
  }

  lemma ServerPosition(s: State, step: Step)
    requires PositionOk(s) && ServerOk(s) && Enabled(GOOD, s, step) && IsServerStep(step)
    ensures PositionOk(Next(GOOD, s, step))
  {
    var t := Next(GOOD, s, step);
    if step.ServerCalls? {
      assert t.executed == s.executed + [Exec(s.serving.name, s.serving.number, s.serving.args, step.reply)];
      assert HeaderAt(s, |s.executed|) == Header(s.serving.name, s.serving.number);
      assert t.read == s.read && t.requests == s.requests && t.serving.Replying?;
      hide Next, Enabled;
      forall i | 0 <= i < |t.executed| ensures HeaderAt(t, i) == Header(t.executed[i].name, t.executed[i].number) {
        assert HeaderAt(s, i) == HeaderAt(t, i);
      }
    } else {
      assert t.executed == s.executed && t.requests == s.requests;
      forall i | 0 <= i < |t.executed| ensures HeaderAt(t, i) == Header(t.executed[i].name, t.executed[i].number) {
        assert HeaderAt(s, i) == HeaderAt(t, i);
      }
    }
  }

  lemma ServerOnce(s: State, step: Step)
    requires Once(s) && Enabled(GOOD, s, step) && IsServerStep(step) && Inv(Next(GOOD, s, step))
    ensures Once(Next(GOOD, s, step))
  {
    var t := Next(GOOD, s, step);
    ServerSame(s, step);
    InvRequests(t);
    assert ServerOk(s);
    hide Inv, RequestsOk, DistinctOk, PositionOk, Next, Enabled, ServerOk;
    SameDistinct(s, t);
    ServerPosition(s, step);
  }

  lemma ServerSame(s: State, step: Step)
    requires Enabled(GOOD, s, step) && IsServerStep(step)
    ensures var t := Next(GOOD, s, step); t.requests == s.requests && t.calls == s.calls && t.owner == s.owner
  {
  }

  lemma StepOnce(s: State, step: Step)
    requires Once(s) && Enabled(GOOD, s, step)
    ensures Once(Next(GOOD, s, step))
  {
    assert Inv(s);
    hide Inv, Once, Next, Enabled;
    StepInv(s, step);
    if IsServerStep(step) {
      ServerOnce(s, step);
    } else {
      ClientOnce(s, step);
    }
  }

  lemma {:induction false} RunOnce(s: State, steps: seq<Step>)
    requires Once(s) && Run(GOOD, s, steps)
    ensures Once(After(GOOD, s, steps))
    decreases |steps|
  {
    hide Once, Next, Enabled;
    if steps != [] {
      StepOnce(s, steps[0]);
      RunOnce(Next(GOOD, s, steps[0]), steps[1..]);
    }
  }

  // ---------- results ----------

  /** No number is ever executed twice. */
  lemma AtMostOnce(steps: seq<Step>, i: nat, j: nat)
    requires Run(GOOD, INIT, steps) && i < j < |After(GOOD, INIT, steps).executed|
    ensures After(GOOD, INIT, steps).executed[i].number != After(GOOD, INIT, steps).executed[j].number
  {
    InitOnce();
    RunOnce(INIT, steps);
    var s := After(GOOD, INIT, steps);
    assert HeaderAt(s, i).number != HeaderAt(s, j).number;
  }

  /**
    A call completed with a reply or a server error was executed once, and the outcome is what that
    execution gave: any method call with the number of the call has its method, its arguments and
    this outcome.
   */
  lemma TheOutcome(steps: seq<Step>, c: nat, d: Completion, e: Exec)
    requires Run(GOOD, INIT, steps) && c < |After(GOOD, INIT, steps).calls|
    requires d in After(GOOD, INIT, steps).calls[c].done && d != LocalError
    requires e in After(GOOD, INIT, steps).executed && e.number == After(GOOD, INIT, steps).calls[c].number
    ensures var x := After(GOOD, INIT, steps).calls[c];
            e == Exec(x.name, x.number, x.args, if d.Got? then Returned(d.value) else Failed(d.err))
  {
    var s := After(GOOD, INIT, steps);
    Correlation(steps, c, d);
    var x := s.calls[c];
    var made := Exec(x.name, x.number, x.args, if d.Got? then Returned(d.value) else Failed(d.err));
    var i :| 0 <= i < |s.executed| && s.executed[i] == made;
    var j :| 0 <= j < |s.executed| && s.executed[j] == e;
    if i < j {
      AtMostOnce(steps, i, j);
    } else if j < i {
      AtMostOnce(steps, j, i);
    }
  }
}
