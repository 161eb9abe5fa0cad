/** What the server's answers lead to: how the handshake moves on, what ends a connection, and that a
    connection always rests on answers that did arrive. */
module ClientAnswers {
  import opened Wrappers
  import opened ClientSpec
  import opened ClientMachine
  import opened ClientTransport
  import opened ClientHandshake
  import opened ClientTheorems

  // ---------------------------------------------------------------- single answers

  lemma PendingWhileEntered(s: State)
    requires Reachable(s)
    ensures Connect in s.entered ==> s.c.link.pending.Some?
    ensures SetStats in s.entered ==> s.c.intent.pending.Some?
  {
    ReachableInv(s);
    assert s.wire[Connect] + s.entered[Connect] == Outstanding(s.c, Connect);
    assert s.wire[SetStats] + s.entered[SetStats] == Outstanding(s.c, SetStats);
  }

  /** An answer is kept with the request it belongs to, and announced. */
  lemma AnswersAreKept(s: State, code: Code, reply: Reply)
    requires Reachable(s)
    ensures Connect in s.entered ==>
              var t := Next(s, Complete(Connect, code, reply));
              && s.c.link.pending.Some? && t.c.link.pending == Some(s.c.link.pending.value.(code := code))
              && t.c == s.c.(link := s.c.link.(pending := t.c.link.pending, rpcPending := false))
              && t.tails == s.tails + multiset{PostConnection}
    ensures SetStats in s.entered ==>
              var t := Next(s, Complete(SetStats, code, reply));
              && s.c.intent.pending.Some? && t.c.intent.pending == Some(s.c.intent.pending.value.(code := code))
              && t.c == s.c.(intent := s.c.intent.(pending := t.c.intent.pending, rpcPending := false))
              && t.tails == s.tails + multiset{PostStats}
  {
    hide Reachable;
    PendingWhileEntered(s);
  }

  /** The client asks the next question of the handshake. */
  predicate Asks(s: State, t: State, phase: Phase, image: nat, generation: nat) {
    && t.c.link.connections == generation && !t.c.link.connected && t.c.link.rpcPending
    && t.c.link.pending.Some? && t.c.link.pending.value.phase == phase && t.c.link.pending.value.image == image
    && t.c.link.pending.value.generation == generation
    && t.wire == s.wire + multiset{Connect} && t.qt == s.qt - multiset{ConnectionReceived}
  }

  /** The client is connected, has forgotten what an earlier connection left behind, and goes for the
      first image. */
  predicate Starts(s: State, t: State) {
    && t.c.link == Link(s.c.link.connections, true, None, false)
    && t.c.pump.completed == [] && t.c.pump.lastApplied == 0
    && t.c.intent.stats.status.Unavailable? && t.c.intent.stats.count == 0
    && !t.c.intent.supported && !t.c.intent.rpcUnsupported
    && t.wire == s.wire && t.qt == s.qt - multiset{ConnectionReceived} + multiset{ImageNeeded}
  }

  /** The client gives up until the timer comes round. */
  predicate GivesUp(s: State, t: State) {
    && t.c.link == Link(s.c.link.connections, false, None, false)
    && t.wire == s.wire && t.qt == s.qt - multiset{ConnectionReceived}
  }

  lemma PendingIsCurrent(s: State)
    requires Reachable(s) && s.c.link.pending.Some?
    ensures var r := s.c.link.pending.value;
            r.generation == s.c.link.connections && !s.c.link.connected && (r.phase.ImageName? ==> r.image <= 3)
  {
    ReachableInv(s);
  }

  lemma ProbeSucceeded(s: State)
    requires ConnectionReady(s.c) && s.c.link.pending.value.phase.Probe? && !s.c.link.connected
    requires s.c.link.pending.value.generation == s.c.link.connections && s.c.link.pending.value.code.Ok?
    ensures Starts(s, Next(s, Act(Handle(ConnectionReceived))))
  {
    hide Record, DispatchConnection;
  }

  lemma ProbeFailed(s: State)
    requires ConnectionReady(s.c) && s.c.link.pending.value.phase.Probe? && !s.c.link.connected
    requires s.c.link.pending.value.generation == s.c.link.connections && !s.c.link.pending.value.code.Ok?
    ensures var t := Next(s, Act(Handle(ConnectionReceived)));
            if s.c.link.pending.value.code.FailedPrecondition? then Asks(s, t, Configure, 0, s.c.link.connections + 1)
            else GivesUp(s, t)
  {
    hide Record, FinishConnection;
  }

  lemma ConfigureAnswered(s: State)
    requires ConnectionReady(s.c) && s.c.link.pending.value.phase.Configure? && !s.c.link.connected
    requires s.c.link.pending.value.generation == s.c.link.connections
    ensures var t := Next(s, Act(Handle(ConnectionReceived)));
            if s.c.link.pending.value.code.Ok? then Asks(s, t, ImageName, 0, s.c.link.connections) else GivesUp(s, t)
  {
    hide Record;
  }

  lemma NameAnswered(s: State)
    requires ConnectionReady(s.c) && s.c.link.pending.value.phase.ImageName? && !s.c.link.connected
    requires s.c.link.pending.value.generation == s.c.link.connections && s.c.link.pending.value.image <= 3
    ensures var r := s.c.link.pending.value;
            var t := Next(s, Act(Handle(ConnectionReceived)));
            if r.image == 3 then Starts(s, t) else Asks(s, t, ImageName, r.image + 1, s.c.link.connections)
  {
    hide Record;
  }

  /** How the handshake moves on, for every question and every answer. */
  lemma HandshakeMovesOn(s: State)
    requires Reachable(s) && !s.c.shuttingDown && s.c.link.pending.Some? && !s.c.link.rpcPending
    ensures var r := s.c.link.pending.value;
            var t := Next(s, Act(Handle(ConnectionReceived)));
            match r.phase
            case Probe =>
              if r.code.Ok? then Starts(s, t)
              else if r.code.FailedPrecondition? then Asks(s, t, Configure, 0, s.c.link.connections + 1)
              else GivesUp(s, t)
            case Configure =>
              if r.code.Ok? then Asks(s, t, ImageName, 0, s.c.link.connections) else GivesUp(s, t)
            case ImageName =>
              if r.image == 3 then Starts(s, t) else Asks(s, t, ImageName, r.image + 1, s.c.link.connections)
  {
    hide Next, Reachable, Starts, Asks, GivesUp;
    PendingIsCurrent(s);
    match s.c.link.pending.value.phase
    case Probe => if s.c.link.pending.value.code.Ok? { ProbeSucceeded(s); } else { ProbeFailed(s); }
    case Configure => ConfigureAnswered(s);
    case ImageName => NameAnswered(s);
  }

  // ---------------------------------------------------------------- connections rest on answers

  /** Step `j` of the run is the arrival of this answer, in the generation of state `i`. */
  predicate AnsweredAt(states: seq<State>, steps: seq<Step>, j: nat, i: nat, x: Reached)
    requires j < i < |states| && |states| == |steps| + 1
  {
    && states[j].c.link.connections == states[i].c.link.connections
    && steps[j].Complete? && steps[j].done == Connect && steps[j].code == x.code
    && states[j].c.link.pending.Some?
    && states[j].c.link.pending.value.phase == x.phase && states[j].c.link.pending.value.image == x.image
  }

  predicate Answered(states: seq<State>, steps: seq<Step>, i: nat, x: Reached)
    requires i < |states| && |states| == |steps| + 1
  {
    exists j | 0 <= j < i :: AnsweredAt(states, steps, j, i, x)
  }

  function AnswerOf(r: ConnectionRequest): Reached {
    Reached(r.phase, r.image, r.code)
  }

  predicate Held(c: Client) {
    c.link.pending.Some? && !c.link.rpcPending
  }

  /** How a step changes the answers the client has taken in, and the one it holds. */
  predicate TakesIn(s: State, step: Step, t: State) {
    && (t.c.link.connections != s.c.link.connections ==> t.h.trail == [] && !Held(t.c))
    && (t.c.link.connections == s.c.link.connections ==>
          || t.h.trail == s.h.trail
          || (Held(s.c) && t.h.trail == s.h.trail + [AnswerOf(s.c.link.pending.value)]))
    && (Held(t.c) ==>
          || (Held(s.c) && t.c.link.pending == s.c.link.pending)
          || (step.Complete? && step.done == Connect && s.c.link.pending.Some?
              && t.c.link.pending == Some(s.c.link.pending.value.(code := step.code))))
  }

  lemma HandshakeOf(s: State)
    requires Inv(s)
    ensures InHandshake(s)
  {
  }

  lemma StepTakesIn(s: State, step: Step)
    requires Inv(s) && Enabled(s, step)
    ensures TakesIn(s, step, Next(s, step))
  {
    hide Posted, Rest, Respond, Completion, Inv, Effect, Record;
    match step
    case Act(a) => HandshakeOf(s); ActionTakesIn(s, a);
    case Complete(r, code, reply) => CompletedTakesIn(s, r, code, reply);
    case _ => OthersTakeIn(s, step);
  }

  lemma OthersTakeIn(s: State, step: Step)
    requires step.Enter? || step.FollowUp? || step.TearDown?
    ensures var t := Next(s, step);
            && t.h.trail == s.h.trail && t.c.link.connections == s.c.link.connections
            && (Held(t.c) ==> Held(s.c) && t.c.link.pending == s.c.link.pending)
  {
    hide Posted, Rest;
  }

  lemma CompletedTakesIn(s: State, r: Rpc, code: Code, reply: Reply)
    ensures var t := Next(s, Complete(r, code, reply));
            && t.h.trail == s.h.trail && t.c.link.connections == s.c.link.connections
            && (Held(t.c) ==>
                  || (Held(s.c) && t.c.link.pending == s.c.link.pending)
                  || (r == Connect && s.c.link.pending.Some?
                      && t.c.link.pending == Some(s.c.link.pending.value.(code := code))))
  {
    hide Completion;
    CompletionTakesIn(s.c, r, code, reply);
  }

  lemma CompletionTakesIn(c: Client, r: Rpc, code: Code, reply: Reply)
    ensures var d := Completion(c, r, code, reply).client;
            && d.link.connections == c.link.connections
            && (if r == Connect then
                  d.link.pending.Some? ==> && c.link.pending.Some?
                                           && d.link.pending.value == c.link.pending.value.(code := code)
                else d.link == c.link)
  {
  }

  lemma TimerLink(c: Client)
    ensures var d := Reconnect(c).client;
            && (d.link.connections != c.link.connections ==> !Held(d))
            && (Held(d) ==> d.link.pending == c.link.pending && Held(c))
  {
  }

  lemma OtherActionsKeepTrail(s: State, a: Action)
    requires a != Timer && a != Handle(ConnectionReceived)
    ensures Record(s, Act(a)).trail == s.h.trail
  {
    hide Respond, Applies, Newest;
  }

  lemma ActionTakesIn(s: State, a: Action)
    requires InHandshake(s)
    ensures var t := Next(s, Act(a));
            && (t.c.link.connections != s.c.link.connections ==> t.h.trail == [] && !Held(t.c))
            && (t.c.link.connections == s.c.link.connections ==>
                  || t.h.trail == s.h.trail
                  || (Held(s.c) && t.h.trail == s.h.trail + [AnswerOf(s.c.link.pending.value)]))
            && (Held(t.c) ==> Held(s.c) && t.c.link.pending == s.c.link.pending)
  {
    hide ImageReceived, OnStatsReceived, ImagePlease, InHandshake;
    if a == Timer {
      hide DispatchUnary;
      TimerLink(s.c);
    } else if a == Handle(ConnectionReceived) {
    } else {
      hide Respond;
      OtherActionsKeepLink(s.c, a);
      OtherActionsKeepTrail(s, a);
    }
  }

  /** One more step keeps what has been answered in a generation. */
  lemma AnsweredLater(states: seq<State>, steps: seq<Step>, i: nat, x: Reached)
    requires |states| == |steps| + 1 && i < |steps| && Answered(states, steps, i, x)
    requires states[i + 1].c.link.connections == states[i].c.link.connections
    ensures Answered(states, steps, i + 1, x)
  {
    hide AnsweredAt;
    var j: nat :| j < i && AnsweredAt(states, steps, j, i, x);
    SameGeneration(states, steps, j, i, x);
  }

  lemma SameGeneration(states: seq<State>, steps: seq<Step>, j: nat, i: nat, x: Reached)
    requires |states| == |steps| + 1 && j < i < |steps| && AnsweredAt(states, steps, j, i, x)
    requires states[i + 1].c.link.connections == states[i].c.link.connections
    ensures AnsweredAt(states, steps, j, i + 1, x)
  {
  }

  /** Every answer that the client holds or has taken in did arrive in this generation. */
  ghost predicate Grounded(states: seq<State>, steps: seq<Step>, i: nat)
    requires i < |states| && |states| == |steps| + 1
  {
    && (forall x | x in states[i].h.trail :: Answered(states, steps, i, x))
    && (Held(states[i].c) ==> Answered(states, steps, i, AnswerOf(states[i].c.link.pending.value)))
  }

  lemma StepIsGrounded(states: seq<State>, steps: seq<Step>, i: nat)
    requires |states| == |steps| + 1 && i < |steps| && Grounded(states, steps, i)
    requires TakesIn(states[i], steps[i], states[i + 1])
    ensures Grounded(states, steps, i + 1)
  {
    hide Answered;
    var s, t := states[i], states[i + 1];
    if t.c.link.connections == s.c.link.connections {
      forall x | x in t.h.trail
        ensures Answered(states, steps, i + 1, x)
      {
        AnsweredLater(states, steps, i, x);
      }
      if Held(t.c) {
        if Held(s.c) && t.c.link.pending == s.c.link.pending {
          AnsweredLater(states, steps, i, AnswerOf(s.c.link.pending.value));
        } else {
          JustAnswered(states, steps, i);
        }
      }
    }
  }

  lemma JustAnswered(states: seq<State>, steps: seq<Step>, i: nat)
    requires |states| == |steps| + 1 && i < |steps|
    requires states[i + 1].c.link.connections == states[i].c.link.connections
    requires steps[i].Complete? && steps[i].done == Connect && states[i].c.link.pending.Some?
    requires states[i + 1].c.link.pending == Some(states[i].c.link.pending.value.(code := steps[i].code))
    ensures Answered(states, steps, i + 1, AnswerOf(states[i + 1].c.link.pending.value))
  {
    assert AnsweredAt(states, steps, i, i + 1, AnswerOf(states[i + 1].c.link.pending.value));
  }

  lemma {:induction false} RunIsGrounded(states: seq<State>, steps: seq<Step>, i: nat)
    requires IsRun(states, steps) && i < |states|
    ensures Grounded(states, steps, i)
  {
    hide Next, Enabled, Inv, Grounded;
    if i == 0 {
      StartIsGrounded(states, steps);
    } else {
      RunIsGrounded(states, steps, i - 1);
      RunInv(states, steps, i - 1);
      assert Leads(states[i - 1], steps[i - 1], states[i - 1 + 1]);
      StepTakesIn(states[i - 1], steps[i - 1]);
      StepIsGrounded(states, steps, i - 1);
    }
  }

  lemma StartIsGrounded(states: seq<State>, steps: seq<Step>)
    requires IsRun(states, steps)
    ensures Grounded(states, steps, 0)
  {
  }

  /** The question for the name of image `n` has been answered, in whatever way. */
  predicate Named(states: seq<State>, steps: seq<Step>, i: nat, n: nat)
    requires i < |states| && |states| == |steps| + 1
  {
    exists code :: Answered(states, steps, i, Reached(ImageName, n, code))
  }

  /** A connection rests on answers that did arrive: in any run, whenever the client is connected, its
      server has in this generation answered a probe with success, or a configuration with success
      and all four questions for the image names. */
  lemma ConnectedMeansAnswered(states: seq<State>, steps: seq<Step>, i: nat)
    requires IsRun(states, steps) && i < |states| && states[i].c.link.connected
    ensures || Answered(states, steps, i, Reached(Probe, 0, Ok))
            || (&& Answered(states, steps, i, Reached(Configure, 0, Ok))
                && forall n: nat | n <= 3 :: Named(states, steps, i, n))
  {
    hide Leads, Init, Answered, Inv;
    RunInv(states, steps, i);
    RunIsGrounded(states, steps, i);
    ConnectedTrail(states[i]);
    var trail := states[i].h.trail;
    if trail == [Reached(Probe, 0, Ok)] {
      assert Reached(Probe, 0, Ok) in trail;
    } else {
      assert trail[0] in trail;
      forall n: nat | n <= 3
        ensures Named(states, steps, i, n)
      {
        assert trail[n + 1] in trail;
        assert trail[n + 1] == Reached(ImageName, n, trail[n + 1].code);
      }
    }
  }

  lemma ConnectedTrail(s: State)
    requires Inv(s) && s.c.link.connected
    ensures CompleteTrail(s.h.trail)
  {
  }
}
