/**
  No call is lost. This holds for every configuration: for interleaved sends, arguments that do
  not encode, methods that fail without a text, and connections that break at any point.
 */
module CrpcDelivery {
  import opened Results
  import opened Crpc

  function One(b: bool): nat {
    if b then 1 else 0
  }

  predicate Held(s: State, c: nat) {
    s.input.Taken? && s.input.call == Some(c)
  }

  /** A call is completed, waits in `pending` or is in the input loop's hands: one of the three. */
  predicate CallOk(s: State, c: nat)
    requires c < |s.calls|
  {
    var x := s.calls[c];
    var held := One(Held(s, c));
    var waiting := One(x.number in s.pending && s.pending[x.number] == c);
    if x.phase == Rejected then |x.done| == 1 && held == 0 && c !in s.pending.Values
    else
      && x.number < |s.owner| && s.owner[x.number] == c
      && match x.phase
         case Removed => waiting == 0 && |x.done| + held <= 1
         case GivenUp => waiting == 0 && 1 <= |x.done| && |x.done| + held <= 2
         case _ => |x.done| + held + waiting == 1
  }

  ghost predicate CallsOk(s: State) {
    forall c | 0 <= c < |s.calls| :: CallOk(s, c)
  }

  ghost predicate NumbersOk(s: State) {
    && s.nextNumber == |s.owner|
    && (forall n | 0 <= n < |s.owner| ::
          s.owner[n] < |s.calls| && s.calls[s.owner[n]].number == n && s.calls[s.owner[n]].phase != Rejected)
    && (forall n | n in s.pending :: n < |s.owner| && s.pending[n] == s.owner[n])
    && (s.input.Taken? && s.input.call.Some? ==>
          s.input.call.value < |s.calls| && s.calls[s.input.call.value].phase != Rejected)
  }

  ghost predicate ShutdownOk(s: State) {
    (s.shutdown <==> s.input == Ended) && (s.shutdown ==> s.pending == map[])
  }

  ghost predicate Inv(s: State) {
    CallsOk(s) && NumbersOk(s) && ShutdownOk(s)
  }

  // ---------- the invariant, one kind of step at a time ----------

  /** Steps of the connection and the server, which the bookkeeping of calls does not see. */
  lemma ConnectionStep(cfg: Config, s: State, step: Step)
    requires Inv(s) && Enabled(cfg, s, step)
    requires step.Close? || step.CloseConn? || step.ReadHeader? || step.ReadHeaderFails? || step.ServerReadsHeader?
             || step.ServerReadsArgs? || step.ServerCalls? || step.ServerWritesHeader? || step.ServerWritesBody? || step.ServerStops?
    ensures Inv(Next(cfg, s, step))
  {
    if step.Close? || step.CloseConn? || step.ReadHeader? || step.ReadHeaderFails? {
      ClientUnseen(cfg, s, step);
    } else {
      ServerUnseen(cfg, s, step);
    }
    hide *;
    SameBooks(s, Next(cfg, s, step));
  }

  /** Nothing the bookkeeping of calls depends on is different. */
  predicate Unseen(s: State, t: State) {
    && t.calls == s.calls && t.pending == s.pending && t.owner == s.owner && t.nextNumber == s.nextNumber && t.shutdown == s.shutdown
    && (t.input == s.input || !(s.input.Taken? || t.input.Taken? || s.input == Ended || t.input == Ended))
  }

  lemma ClientUnseen(cfg: Config, s: State, step: Step)
    requires Enabled(cfg, s, step) && (step.Close? || step.CloseConn? || step.ReadHeader? || step.ReadHeaderFails?)
    ensures Unseen(s, Next(cfg, s, step))
  {
  }

  lemma ServerUnseen(cfg: Config, s: State, step: Step)
    requires Enabled(cfg, s, step)
    requires step.ServerReadsHeader? || step.ServerReadsArgs? || step.ServerCalls? || step.ServerWritesHeader?
             || step.ServerWritesBody? || step.ServerStops?
    ensures Unseen(s, Next(cfg, s, step))
  {
  }

  lemma SameBooks(s: State, t: State)
    requires Inv(s) && Unseen(s, t)
    ensures Inv(t)
  {
    forall c | 0 <= c < |t.calls| ensures CallOk(t, c) {
      assert CallOk(s, c);
    }
  }

  lemma SetPhaseKeeps(s: State, t: State, x: nat, phase: Phase)
    requires Inv(s) && x < |s.calls| && s.calls[x].phase in {Registered, HeaderSent} && phase in {HeaderSent, Sent, Failing}
    requires t.calls == s.calls[x := s.calls[x].(phase := phase)]
    requires t.pending == s.pending && t.owner == s.owner && t.nextNumber == s.nextNumber
    requires t.input == s.input && t.shutdown == s.shutdown
    ensures Inv(t)
  {
    forall c | 0 <= c < |t.calls| ensures CallOk(t, c) {
      assert CallOk(s, c);
    }
  }

  lemma WriteStep(cfg: Config, s: State, step: Step)
    requires Inv(s) && Enabled(cfg, s, step)
    requires step.WriteHeader? || step.WriteArgs? || step.WriteFails?
    ensures Inv(Next(cfg, s, step))
  {
    hide Inv;
    SetPhaseKeeps(s, Next(cfg, s, step), step.call, Next(cfg, s, step).calls[step.call].phase);
  }

  lemma GoStep(s: State, name: string, args: string)
    requires Inv(s)
    ensures Inv(Register(s, name, args))
  {
    if s.closing || s.shutdown {
      Refused(s, name, args);
    } else {
      Accepted(s, name, args);
    }
  }

  lemma Refused(s: State, name: string, args: string)
    requires Inv(s) && (s.closing || s.shutdown)
    ensures Inv(Register(s, name, args))
  {
    var t := Register(s, name, args);
    assert t == s.(calls := s.calls + [Call(name, args, 0, Rejected, [LocalError])]);
    hide Register;
    forall c | 0 <= c < |t.calls| ensures CallOk(t, c) {
      if c < |s.calls| {
        assert CallOk(s, c) && t.calls[c] == s.calls[c];
      }
    }
  }

  lemma Accepted(s: State, name: string, args: string)
    requires Inv(s) && !s.closing && !s.shutdown
    ensures Inv(Register(s, name, args))
  {
    var t := Register(s, name, args);
    forall c | 0 <= c < |t.calls| ensures CallOk(t, c) {
      if c < |s.calls| {
        assert CallOk(s, c) && t.calls[c] == s.calls[c];
      }
    }
  }

  lemma RemoveStep(cfg: Config, s: State, x: nat)
    requires Inv(s) && Enabled(cfg, s, Remove(x))
    ensures Inv(Next(cfg, s, Remove(x)))
  {
    var t := Next(cfg, s, Remove(x));
    assert CallOk(s, x);
    assert t.calls == s.calls[x := s.calls[x].(phase := Removed)] && t.pending == s.pending - {s.calls[x].number};
    hide Next, Enabled;
    forall c | 0 <= c < |t.calls| ensures CallOk(t, c) {
      assert CallOk(s, c);
      assert c in t.pending.Values ==> c in s.pending.Values;
    }
  }

  lemma GiveUpStep(cfg: Config, s: State, x: nat)
    requires Inv(s) && Enabled(cfg, s, GiveUp(x))
    ensures Inv(Next(cfg, s, GiveUp(x)))
  {
    var t := Next(cfg, s, GiveUp(x));
    assert CallOk(s, x);
    hide Next, Enabled;
    forall c | 0 <= c < |t.calls| ensures CallOk(t, c) {
      assert CallOk(s, c);
    }
  }

  lemma TakeStep(cfg: Config, s: State)
    requires Inv(s) && Enabled(cfg, s, Take)
    ensures Inv(Next(cfg, s, Take))
  {
    var t := Next(cfg, s, Take);
    assert t.pending == s.pending - {s.input.number} && t.calls == s.calls && t.owner == s.owner;
    hide Next, Enabled;
    forall c | 0 <= c < |t.calls| ensures CallOk(t, c) {
      assert CallOk(s, c);
      assert c in t.pending.Values ==> c in s.pending.Values;
    }
  }

  lemma CompletedHeld(s: State, t: State, c: nat, x: nat, d: Completion)
    requires Inv(s) && s.input.Taken? && s.input.call == Some(x) && t.input in {Reading, Draining} && c < |s.calls|
    requires x < |s.calls| && t.calls == s.calls[x := s.calls[x].(done := s.calls[x].done + [d])]
    requires t.pending == s.pending && t.owner == s.owner
    ensures CallOk(t, c)
  {
    assert CallOk(s, c) && CallOk(s, x);
    hide CallsOk;
    if c != x {
      assert t.calls[c] == s.calls[c];
    }
  }

  /** The input loop lets go of the call it holds by completing it. */
  lemma CompletedTaken(s: State, d: Completion, t: State)
    requires Inv(s) && s.input.Taken? && t.input in {Reading, Draining}
    requires t.calls == CompleteTaken(s, d).calls
    requires t.pending == s.pending && t.owner == s.owner && t.nextNumber == s.nextNumber && t.shutdown == s.shutdown
    ensures Inv(t)
  {
    forall c | 0 <= c < |t.calls| ensures CallOk(t, c) {
      if s.input.call.Some? {
        CompletedHeld(s, t, c, s.input.call.value, d);
      } else {
        assert CallOk(s, c);
      }
    }
    hide CallsOk, CallOk;
  }

  lemma CompletionStep(cfg: Config, s: State, step: Step)
    requires Inv(s) && Enabled(cfg, s, step)
    requires step.FinishWithError? || step.ReadBody? || step.ReadBodyFails?
    ensures Inv(Next(cfg, s, step))
  {
    hide Inv;
    var t := Next(cfg, s, step);
    var d := if step.FinishWithError? then ServerError(s.input.err) else if step.ReadBody? then Got(step.value) else LocalError;
    CompletedTaken(s, d, t);
  }

  lemma DrainStep(cfg: Config, s: State)
    requires Inv(s) && Enabled(cfg, s, Drain)
    ensures Inv(Next(cfg, s, Drain))
  {
    var t := Next(cfg, s, Drain);
    assert t == s.(calls := DrainCalls(s.calls, s.pending), pending := map[], shutdown := true, input := Ended) && s.input == Draining;
    hide Next, Enabled;
    forall c | 0 <= c < |t.calls| ensures CallOk(t, c) {
      DrainedCall(s, c);
    }
  }

  lemma DrainedCall(s: State, c: nat)
    requires Inv(s) && s.input == Draining && c < |s.calls|
    ensures CallOk(s.(calls := DrainCalls(s.calls, s.pending), pending := map[], shutdown := true, input := Ended), c)
  {
    assert CallOk(s, c);
    var n := s.calls[c].number;
    assert c in s.pending.Values <==> n in s.pending && s.pending[n] == c;
    hide CallsOk, NumbersOk;
  }

  lemma StepInv(cfg: Config, s: State, step: Step)
    requires Inv(s) && Enabled(cfg, s, step)
    ensures Inv(Next(cfg, s, step))
  {
    hide Inv, Register;
    match step
    case Go(name, args) => GoStep(s, name, args);
    case WriteHeader(_) => WriteStep(cfg, s, step);
    case WriteArgs(_) => WriteStep(cfg, s, step);
    case WriteFails(_, _) => WriteStep(cfg, s, step);
    case Remove(c) => RemoveStep(cfg, s, c);
    case GiveUp(c) => GiveUpStep(cfg, s, c);
    case Take => TakeStep(cfg, s);
    case FinishWithError => CompletionStep(cfg, s, step);
    case ReadBody(_) => CompletionStep(cfg, s, step);
    case ReadBodyFails => CompletionStep(cfg, s, step);
    case Drain => DrainStep(cfg, s);
    case _ => ConnectionStep(cfg, s, step);
  }

  lemma {:induction false} RunInv(cfg: Config, s: State, steps: seq<Step>)
    requires Inv(s) && Run(cfg, s, steps)
    ensures Inv(After(cfg, s, steps))
    decreases |steps|
  {
    hide Inv, Next, Enabled;
    if steps != [] {
      StepInv(cfg, s, steps[0]);
      RunInv(cfg, Next(cfg, s, steps[0]), steps[1..]);
    }
  }

  lemma InitInv()
    ensures Inv(INIT)
  {
  }

  /**
    Once the input loop has ended and a call's `send` has returned, the call was completed: exactly
    once unless its own `send` failed, and never more than twice.
   */
  lemma NoCallIsLost(cfg: Config, steps: seq<Step>, c: nat)
    requires Run(cfg, INIT, steps) && c < |After(cfg, INIT, steps).calls|
    requires var s := After(cfg, INIT, steps); s.input == Ended && s.calls[c].phase in {Sent, Rejected, GivenUp}
    ensures var x := After(cfg, INIT, steps).calls[c];
            && 1 <= |x.done| <= 2
            && (x.phase != GivenUp ==> |x.done| == 1)
  {
    InitInv();
    RunInv(cfg, INIT, steps);
    assert CallOk(After(cfg, INIT, steps), c);
  }

  /** No call is completed more than twice at any time, and only a failing `send` completes one twice. */
  lemma NeverThrice(cfg: Config, steps: seq<Step>, c: nat)
    requires Run(cfg, INIT, steps) && c < |After(cfg, INIT, steps).calls|
    ensures var x := After(cfg, INIT, steps).calls[c];
            |x.done| <= (if x.phase == GivenUp then 2 else 1)
  {
    InitInv();
    RunInv(cfg, INIT, steps);
    assert CallOk(After(cfg, INIT, steps), c);
  }

  /** After shutdown nothing is pending any more, whatever is still sent; pending numbers were all handed out. */
  lemma ShutdownIsFinal(cfg: Config, s: State, steps: seq<Step>)
    requires Inv(s) && Run(cfg, s, steps)
    ensures forall n | n in After(cfg, s, steps).pending :: n < After(cfg, s, steps).nextNumber
    ensures s.shutdown ==> After(cfg, s, steps).shutdown && After(cfg, s, steps).pending == map[]
  {
    RunInv(cfg, s, steps);
    ShutdownStays(cfg, s, steps);
  }

  lemma {:induction false} ShutdownStays(cfg: Config, s: State, steps: seq<Step>)
    requires Inv(s) && Run(cfg, s, steps)
    ensures s.shutdown ==> After(cfg, s, steps).shutdown
    decreases |steps|
  {
    hide CallsOk, NumbersOk;
    if steps != [] {
      StepInv(cfg, s, steps[0]);
      ShutdownStays(cfg, Next(cfg, s, steps[0]), steps[1..]);
    }
  }
}
