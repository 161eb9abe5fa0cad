/** What holds over every run of the remote client. */
module ClientTheorems {
  import opened Wrappers
  import opened GlobalStats
  import opened ClientSpec
  import opened ClientMachine
  import opened ClientTransport
  import opened ClientShutdown
  import opened ClientHandshake
  import opened ClientPump
  import opened ClientIntent

  ghost predicate Inv(s: State) {
    && Sound(s.c) && Accounted(s) && Counted(s) && Drained(s)
    && InHandshake(s) && NotifiedOnce(s) && PumpInv(s) && IntentInv(s)
  }

  lemma InitInv(s: State)
    requires Init(s)
    ensures Inv(s)
  {
    assert OfGeneration(s.c.pump.inflight, 0) == {};
  }

  lemma InvNext(s: State, step: Step)
    requires Inv(s) && Enabled(s, step)
    ensures Inv(Next(s, step))
  {
    AccountedEffect(s, step);
    CountedEffect(s, step);
    DrainedEffect(s, step);
    HandshakeNext(s, step);
    PumpNext(s, step);
    IntentNext(s, step);
  }

  lemma {:induction false} RunInv(states: seq<State>, steps: seq<Step>, i: nat)
    requires IsRun(states, steps) && i < |states|
    ensures Inv(states[i])
  {
    if i == 0 {
      InitInv(states[0]);
    } else {
      RunInv(states, steps, i - 1);
      assert Leads(states[i - 1], steps[i - 1], states[i - 1 + 1]);
      InvNext(states[i - 1], steps[i - 1]);
    }
  }

  lemma ReachableInv(s: State)
    requires Reachable(s)
    ensures Inv(s)
  {
    var states, steps :| IsRun(states, steps) && states[|states| - 1] == s;
    RunInv(states, steps, |states| - 1);
  }

  // ---------------------------------------------------------------- the image pump keeps going

  /** A reply of the current generation whose status leads to no follow-up. */
  predicate SilentReply(c: Client, step: Step) {
    step.Complete? && CurrentReply(c, step.done, step.code) && Silent(step.reply.status)
  }

  lemma SilencedStep(s: State, step: Step, t: State)
    requires Leads(s, step, t) && t.h.silenced
    ensures s.h.silenced || SilentReply(s.c, step)
  {
    match step
    case Act(a) => ActionKeepsSilence(s, a);
    case Complete(r, code, reply) =>
    case Enter(r) =>
    case FollowUp(t) =>
    case TearDown =>
  }

  lemma ActionKeepsSilence(s: State, a: Action)
    ensures Record(s, Act(a)).silenced ==> s.h.silenced
  {
    var o := Respond(s.c, a);
    assert RecordSend(s.h, o).silenced == s.h.silenced;
    assert RecordSend(RecordImage(s.h, s.c), o).silenced == s.h.silenced;
    assert RecordConnection(s.h, s.c, o.client).silenced ==> s.h.silenced;
  }

  lemma {:induction false} SilencedOnlyByReply(states: seq<State>, steps: seq<Step>, i: nat)
    requires IsRun(states, steps) && i < |states| && states[i].h.silenced
    ensures exists j | 0 <= j < i :: SilentReply(states[j].c, steps[j])
  {
    if i > 0 {
      assert Leads(states[i - 1], steps[i - 1], states[i - 1 + 1]);
      SilencedStep(states[i - 1], steps[i - 1], states[i]);
      if states[i - 1].h.silenced {
        SilencedOnlyByReply(states, steps, i - 1);
      }
    }
  }

  /** No run without a silent reply ever stalls: a connected client always has a request in flight
      or something on its way that leads to one, and queued replies always have a wake-up. */
  lemma PumpNeverStalls(states: seq<State>, steps: seq<Step>)
    requires IsRun(states, steps)
    requires forall j | 0 <= j < |steps| :: !SilentReply(states[j].c, steps[j])
    ensures forall i | 0 <= i < |states| && states[i].c.link.connected && !states[i].c.shuttingDown ::
              Driven(states[i]) && WakeUpPosted(states[i])
  {
    forall i | 0 <= i < |states|
      ensures KeepsGoing(states[i]) && !states[i].h.silenced && WakeUpPosted(states[i])
    {
      RunInv(states, steps, i);
      if states[i].h.silenced {
        SilencedOnlyByReply(states, steps, i);
      }
    }
  }

  /** A silent reply to the only request in flight, with no reply queued and nothing under way. */
  ghost predicate TakesLastDrive(s: State, step: Step) {
    && SilentReply(s.c, step)
    && OfGeneration(s.c.pump.inflight, s.c.link.connections) == {step.done.id}
    && s.c.pump.completed == []
    && !UnderWay(s.qt, s.tails, s.c.link.connections)
  }

  /** A going pump stops going in exactly one way. */
  lemma StallsExactlyOnLastSilentReply(s: State, step: Step)
    requires Inv(s) && Enabled(s, step) && Driven(s)
    requires Next(s, step).c.link.connected && !Next(s, step).c.shuttingDown
    ensures Driven(Next(s, step)) <==> !TakesLastDrive(s, step)
  {
    if SilentReply(s.c, step) {
      SilentReplyEffect(s, step.done.id, step.reply);
    } else {
      OtherStepsStayDriven(s, step);
    }
  }

  lemma OtherStepsStayDriven(s: State, step: Step)
    requires Inv(s) && Enabled(s, step) && Driven(s) && !SilentReply(s.c, step)
    requires Effect(s, step).c.link.connected && !Effect(s, step).c.shuttingDown
    ensures Driven(Effect(s, step))
  {
    var unmuted := s.(h := s.h.(silenced := false));
    assert PumpInv(unmuted) && InHandshake(unmuted);
    PumpNext(unmuted, step);
    if Next(unmuted, step).h.silenced {
      SilencedStep(unmuted, step, Next(unmuted, step));
    }
    EffectIgnoresHistory(s, step);
  }

  lemma EffectIgnoresHistory(s: State, step: Step)
    ensures var t := Effect(s.(h := s.h.(silenced := false)), step);
            t.c == Effect(s, step).c && t.qt == Effect(s, step).qt && t.tails == Effect(s, step).tails
  {
    hide Respond, Completion, Posted, Rest, AfterTail;
    var u := s.(h := s.h.(silenced := false));
    match step
    case Act(a) => assert Taken(u.qt, a) == Taken(s.qt, a);
    case Enter(r) => assert BeginActivity(u.c) == BeginActivity(s.c);
    case Complete(_, _, _) => assert u.c == s.c;
    case FollowUp(_) => assert u.c == s.c;
    case TearDown => assert NextStage(u).c == NextStage(s).c;
  }

  lemma SilentReplyEffect(s: State, id: nat, reply: Reply)
    requires CurrentRequest(s.c, id) && Silent(reply.status)
    ensures var t := Next(s, Complete(Image(id), Ok, reply));
            && t.c == s.c.(pump := s.c.pump.(inflight := s.c.pump.inflight - {id}))
            && t.qt == s.qt && t.tails == s.tails + multiset{Leave}
  {
  }

  // ---------------------------------------------------------------- generations, serials, credits

  /** Every queued or applied reply was requested in the generation that queues or applies it. */
  lemma GenerationsAreIsolated(s: State)
    requires Reachable(s)
    ensures forall r | r in s.c.pump.completed :: r.origin == s.c.link.connections
    ensures forall a | a in s.h.applied :: a.origin == a.generation
    ensures forall id | Image(id) in s.entered :: id in s.c.pump.inflight
  {
    ReachableInv(s);
    forall id | Image(id) in s.entered
      ensures id in s.c.pump.inflight
    {
      assert s.wire[Image(id)] + s.entered[Image(id)] == Outstanding(s.c, Image(id));
    }
  }

  /** A completion of an earlier generation removes its own entry and does nothing else: no field of
      the connection, the intent or the other groups changes, nothing is recorded or posted, and the
      callback has only its activity left to give back. */
  lemma StaleCompletionDoesNothing(s: State, id: nat, code: Code, reply: Reply)
    requires Reachable(s) && Enabled(s, Complete(Image(id), code, reply)) && !CurrentRequest(s.c, id)
    ensures id in s.c.pump.inflight && s.c.pump.inflight[id] < s.c.link.connections
    ensures var t := Next(s, Complete(Image(id), code, reply));
            && t.c == s.c.(pump := s.c.pump.(inflight := s.c.pump.inflight - {id}))
            && t.h == s.h && t.qt == s.qt && t.wire == s.wire && t.teardown == s.teardown
            && t.entered == s.entered - multiset{Image(id)} && t.tails == s.tails + multiset{Leave}
  {
    ReachableInv(s);
    GenerationsAreIsolated(s);
    StaleCompletion(s.c, id, code, reply);
  }

  lemma {:induction false} SpentIdsStaySpent(states: seq<State>, steps: seq<Step>, i: nat, j: nat, id: nat)
    requires IsRun(states, steps) && i <= j < |states|
    requires Spent(states[i].c.pump, id)
    ensures Spent(states[j].c.pump, id)
  {
    if i < j {
      SpentIdsStaySpent(states, steps, i, j - 1, id);
      SpentThroughStep(states, steps, j - 1, id);
    }
  }

  lemma SpentThroughStep(states: seq<State>, steps: seq<Step>, i: nat, id: nat)
    requires IsRun(states, steps) && i < |steps| && Spent(states[i].c.pump, id)
    ensures Spent(states[i + 1].c.pump, id)
  {
    assert Leads(states[i], steps[i], states[i + 1]);
    SpentIdStaysSpent(states[i], steps[i], id);
  }

  predicate Spent(p: Pump, id: nat) {
    id !in p.inflight && id < p.nextId
  }

  lemma ActionKeepsSpent(s: State, a: Action, id: nat)
    requires Spent(s.c.pump, id)
    ensures Spent(Respond(s.c, a).client.pump, id)
  {
    if !DrivesPump(a) {
      OtherActionsKeepPump(s, a);
    } else if a == Handle(ConnectionReceived) {
      ReceivedPump(s.c);
    } else if a == Handle(ImageWaiting) {
      DrainPump(s.c);
    }
  }

  lemma SpentIdStaysSpent(s: State, step: Step, id: nat)
    requires Spent(s.c.pump, id)
    ensures Spent(Next(s, step).c.pump, id)
  {
    match step
    case Act(a) => ActionKeepsSpent(s, a, id);
    case Enter(r) =>
    case Complete(r, code, reply) => CompletionShrinks(s.c, r, code, reply);
    case FollowUp(t) => FollowUpKeepsClient(s.c, t);
    case TearDown => assert NextStage(s).c.pump == s.c.pump;
  }

  lemma FollowUpKeepsClient(c: Client, t: Tail)
    ensures AfterTail(c, t).pump == c.pump && AfterTail(c, t).intent == c.intent
  {
  }

  lemma CompletionSpends(s: State, step: Step, id: nat)
    requires Inv(s) && Enabled(s, step) && step.Complete? && step.done == Image(id)
    ensures Spent(Next(s, step).c.pump, id)
  {
    assert s.wire[Image(id)] + s.entered[Image(id)] == Outstanding(s.c, Image(id));
  }

  lemma SpentNeverCompletes(s: State, step: Step, id: nat)
    requires Inv(s) && Enabled(s, step) && Spent(s.c.pump, id)
    ensures !(step.Complete? && step.done == Image(id))
  {
    assert s.wire[Image(id)] + s.entered[Image(id)] == Outstanding(s.c, Image(id));
  }

  /** No image request completes twice. */
  lemma RequestsCompleteOnce(states: seq<State>, steps: seq<Step>, i: nat, j: nat, id: nat)
    requires IsRun(states, steps) && i < j < |steps|
    requires steps[i].Complete? && steps[i].done == Image(id)
    ensures !(steps[j].Complete? && steps[j].done == Image(id))
  {
    RunInv(states, steps, i);
    assert Leads(states[i], steps[i], states[i + 1]);
    CompletionSpends(states[i], steps[i], id);
    SpentIdsStaySpent(states, steps, i + 1, j, id);
    RunInv(states, steps, j);
    assert Leads(states[j], steps[j], states[j + 1]);
    SpentNeverCompletes(states[j], steps[j], id);
  }

  /** Within a connection the applied serials strictly increase, whatever the completion order, and
      the last applied and queued serials always reach the largest serial delivered. */
  lemma SerialsIncrease(s: State)
    requires Reachable(s)
    ensures forall i, j | 0 <= i < j < |s.h.applied| && s.h.applied[i].generation == s.h.applied[j].generation ::
              s.h.applied[i].serial < s.h.applied[j].serial
    ensures s.h.live ==> Max(s.c.pump.lastApplied, Peak(s.c.pump.completed)) == s.h.top
    ensures s.h.live && s.c.pump.completed == [] ==> s.c.pump.lastApplied == s.h.top
  {
    ReachableInv(s);
  }

  /** Requests of the current generation stay within the window limit, and before the first valid
      reply there is at most one. */
  lemma CreditsAreBounded(s: State)
    requires Reachable(s)
    ensures |OfGeneration(s.c.pump.inflight, s.c.link.connections)| <= MAX_WINDOW
    ensures !s.h.validSeen ==> |OfGeneration(s.c.pump.inflight, s.c.link.connections)| <= 1
  {
    ReachableInv(s);
  }

  // ---------------------------------------------------------------- shown statistics

  lemma CompletionKeepsStats(c: Client, r: Rpc, code: Code, reply: Reply)
    ensures Completion(c, r, code, reply).client.intent.stats == c.intent.stats
  {
    if r != SetStats {
      CompletionIntent(c, r, code, reply);
    }
  }

  lemma DispatchKeepsStats(c: Client)
    ensures DispatchStats(c).client.intent.stats == c.intent.stats
  {
  }

  lemma BlankIsCoherent(status: Status)
    requires !status.Valid?
    ensures Coherent(BLANK.(status := status))
  {
  }

  lemma AppliedKeepsCoherent(c: Client, r: StatsRequest)
    requires Coherent(c.intent.stats)
    ensures Coherent(ApplyStatsResult(c, r).intent.stats)
  {
    hide Coherent;
    BlankIsCoherent(if r.code.Unimplemented? then Unsupported else NoImage);
  }

  lemma ResultKeepsCoherent(c: Client)
    requires Coherent(c.intent.stats)
    ensures Coherent(OnStatsReceived(c).client.intent.stats)
  {
    hide DispatchStats, ApplyStatsResult, Coherent;
    if StatsReady(c) {
      var taken := c.(intent := c.intent.(pending := None));
      assert taken.intent.stats == c.intent.stats;
      AppliedKeepsCoherent(taken, c.intent.pending.value);
      DispatchKeepsStats(ApplyStatsResult(taken, c.intent.pending.value));
    }
  }

  lemma ImageKeepsCoherent(c: Client)
    requires Coherent(c.intent.stats)
    ensures Coherent(ImageReceived(c).client.intent.stats)
  {
    hide DispatchStats;
    DrainDispatches(c);
    if Applies(c) {
      DispatchKeepsStats(Stored(c));
      ReceivedIsCoherent(Newest(c.pump.completed).stats);
    }
  }

  lemma UnavailableKeepsCoherent(c: Client, generation: nat)
    requires Coherent(c.intent.stats)
    ensures Coherent(OnStatsUnavailable(c, generation).intent.stats)
  {
  }

  lemma ActionKeepsCoherent(c: Client, a: Action)
    requires Coherent(c.intent.stats)
    ensures Coherent(Respond(c, a).client.intent.stats)
  {
    hide ImageReceived, OnStatsReceived, OnStatsUnavailable, OnConnectionReceived, Reconnect, DispatchStats;
    if a == Handle(ImageWaiting) {
      ImageKeepsCoherent(c);
    } else if a == Handle(StatsReceived) {
      ResultKeepsCoherent(c);
    } else if a == Handle(ConnectionReceived) {
      ReceivedIntent(c);
    } else if a.RequestStats? {
      DispatchKeepsStats(c.(intent := c.intent.(haveIntent := true, desired := a.enabled,
                                                haveMaskIntent := true, maskDesired := a.useMask)));
    } else if a == Timer {
      TimerIntent(c);
    } else if a.Handle? && a.event.StatsUnavailable? {
      UnavailableKeepsCoherent(c, a.event.generation);
    } else {
      hide Respond;
      OtherActionIntent(c, a);
    }
  }

  lemma StepKeepsCoherent(s: State, step: Step)
    requires Coherent(s.c.intent.stats)
    ensures Coherent(Next(s, step).c.intent.stats)
  {
    hide Record, Respond, Completion, Coherent;
    match step
    case Act(a) => ActionKeepsCoherent(s.c, a);
    case Enter(r) =>
    case Complete(r, code, reply) => CompletionKeepsStats(s.c, r, code, reply);
    case FollowUp(t) => FollowUpKeepsClient(s.c, t);
    case TearDown => assert NextStage(s).c.intent == s.c.intent;
  }

  lemma InitIsCoherent(s: State)
    requires Init(s)
    ensures Coherent(s.c.intent.stats)
  {
  }

  lemma {:induction false} RunKeepsCoherent(states: seq<State>, steps: seq<Step>, i: nat)
    requires IsRun(states, steps) && i < |states|
    ensures Coherent(states[i].c.intent.stats)
  {
    hide Coherent, Next, Enabled, Init;
    if i == 0 {
      InitIsCoherent(states[0]);
    } else {
      RunKeepsCoherent(states, steps, i - 1);
      assert Leads(states[i - 1], steps[i - 1], states[i - 1 + 1]);
      StepKeepsCoherent(states[i - 1], steps[i - 1]);
    }
  }

  /** In every reachable state what the client shows has measurements exactly when its status is
      valid; they are those it holds while it is connected, and none when it is not. */
  lemma ShownStatsAreCoherent(s: State)
    requires Reachable(s)
    ensures Coherent(ShownStats(s.c))
    ensures s.c.link.connected ==> ShownStats(s.c) == s.c.intent.stats
    ensures !s.c.link.connected ==> ShownStats(s.c).status.NoImage? && ShownStats(s.c).count == 0
  {
    var states, steps :| IsRun(states, steps) && states[|states| - 1] == s;
    RunKeepsCoherent(states, steps, |states| - 1);
  }

  // ---------------------------------------------------------------- handshake

  /** At most one connection RPC exists, it is of the current generation, and a connected client has
      completed one of the two handshakes in this generation. */
  lemma HandshakeIsSafe(s: State)
    requires Reachable(s)
    ensures s.wire[Connect] + s.entered[Connect] <= 1
    ensures s.c.link.pending.Some? ==>
              s.c.link.pending.value.generation == s.c.link.connections && !s.c.link.connected
    ensures s.c.link.connected ==> CompleteTrail(s.h.trail)
    ensures s.c.link.pending.Some? && !s.c.link.rpcPending && !s.c.shuttingDown ==>
              ConnectionReceived in s.qt || PostConnection in s.tails
  {
    ReachableInv(s);
    assert s.wire[Connect] + s.entered[Connect] == Outstanding(s.c, Connect);
  }

  // ---------------------------------------------------------------- global-statistics intent

  /** What a client with this intent wants of the server: the mode the user set, and for a mode that
      the user has not set the one that the server's statistics came with. */
  predicate Wanted(g: Intent, x: Send) {
    && (if g.haveIntent then x.enabled == g.desired else x.enabled == g.stats.enabled)
    && (if g.haveMaskIntent then x.useMask == g.maskDesired else x.useMask == g.stats.useMask)
  }

  /** Whenever the client is connected, supported, holds an intent and waits for nothing, the last
      request sent belongs to this generation and asks for what is wanted. */
  lemma IntentConverges(s: State)
    requires Reachable(s)
    requires s.c.link.connected && !s.c.shuttingDown && s.c.intent.supported
    requires (s.c.intent.haveIntent || s.c.intent.haveMaskIntent) && s.c.intent.pending.None?
    ensures s.h.sends != []
    ensures var last := s.h.sends[|s.h.sends| - 1];
            last.generation == s.c.link.connections && Wanted(s.c.intent, last)
  {
    ReachableInv(s);
  }

  /** The statistics requests of a run's first `i` steps, as they were handed to the transport. */
  function Requested(states: seq<State>, steps: seq<Step>, i: nat): seq<Send>
    requires i <= |steps| && i <= |states|
  {
    if i == 0 then [] else Requested(states, steps, i - 1) + Dispatched(states[i - 1].c, steps[i - 1])
  }

  /** The record of sends is complete and in order: over any run it lists exactly the requests that
      were handed to the transport, each with the generation and modes that it carries. */
  lemma {:induction false} SendsAreTheRequests(states: seq<State>, steps: seq<Step>, i: nat)
    requires |states| == |steps| + 1 && IsRun(states, steps) && i < |states|
    ensures states[i].h.sends == Requested(states, steps, i)
  {
    hide IsRun, Next, Dispatched;
    if i > 0 {
      SendsAreTheRequests(states, steps, i - 1);
      RunRecordsDispatched(states, steps, i - 1);
    } else {
      NothingSentAtStart(states, steps);
    }
  }

  lemma NothingSentAtStart(states: seq<State>, steps: seq<Step>)
    requires IsRun(states, steps)
    ensures states[0].h.sends == []
  {
  }

  lemma RunRecordsDispatched(states: seq<State>, steps: seq<Step>, i: nat)
    requires IsRun(states, steps) && i < |steps|
    ensures states[i + 1].h.sends == states[i].h.sends + Dispatched(states[i].c, steps[i])
  {
    hide Next, Dispatched, Init, Enabled;
    assert Leads(states[i], steps[i], states[i + 1]);
    StepRecordsDispatched(states[i], steps[i]);
  }

  /** One request at a time, no repeats within a generation, and a pending request is on its way back. */
  lemma IntentIsSerialized(s: State)
    requires Reachable(s)
    ensures s.wire[SetStats] + s.entered[SetStats] <= 1
    ensures NoRepeats(s.h.sends)
    ensures s.c.intent.pending.Some? && !s.c.shuttingDown ==>
              || SetStats in s.wire || SetStats in s.entered
              || StatsReceived in s.qt || PostStats in s.tails
  {
    ReachableInv(s);
    assert s.wire[SetStats] + s.entered[SetStats] == Outstanding(s.c, SetStats);
  }

  lemma DispatchKeepsDesire(c: Client)
    ensures SameDesire(c.intent, DispatchStats(c).client.intent)
  {
  }

  lemma ResultKeepsDesire(c: Client)
    ensures SameDesire(c.intent, OnStatsReceived(c).client.intent)
  {
    if StatsReady(c) {
      var taken := c.(intent := c.intent.(pending := None));
      ResultApplied(taken, c.intent.pending.value);
      DispatchKeepsDesire(ApplyStatsResult(taken, c.intent.pending.value));
    }
  }

  lemma OtherActionKeepsDesire(c: Client, a: Action)
    requires !a.RequestStats?
    ensures SameDesire(c.intent, Respond(c, a).client.intent)
  {
    if a == Timer {
      TimerIntent(c);
    } else if a == Handle(ConnectionReceived) {
      ReceivedIntent(c);
    } else if a == Handle(ImageWaiting) {
      DrainDispatches(c);
      if Applies(c) {
        DispatchKeepsDesire(Stored(c));
      }
    } else if a == Handle(StatsReceived) {
      ResultKeepsDesire(c);
    } else if a.Handle? && a.event.StatsUnavailable? {
      UnavailableKeepsModes(c, a.event.generation);
    } else {
      OtherActionIntent(c, a);
    }
  }

  lemma UserSetsDesire(c: Client, enabled: bool, useMask: bool)
    ensures var g := UserStats(c, enabled, useMask).client.intent;
            g.haveIntent && g.haveMaskIntent && g.desired == enabled && g.maskDesired == useMask
  {
    DispatchKeepsDesire(c.(intent := c.intent.(haveIntent := true, desired := enabled,
                                               haveMaskIntent := true, maskDesired := useMask)));
  }

  lemma CompletionKeepsDesire(c: Client, r: Rpc, code: Code, reply: Reply)
    ensures SameDesire(c.intent, Completion(c, r, code, reply).client.intent)
  {
    if r != SetStats {
      CompletionIntent(c, r, code, reply);
    }
  }

  /** The desired modes are the last ones the user asked for. */
  lemma IntentFollowsUser(s: State, step: Step)
    ensures var g := Next(s, step).c.intent;
            if step.Act? && step.action.RequestStats? then
              && g.haveIntent && g.haveMaskIntent
              && g.desired == step.action.enabled && g.maskDesired == step.action.useMask
            else SameDesire(s.c.intent, g)
  {
    hide Record, Posted, Rest, UserStats, Completion;
    match step
    case Act(a) =>
      if a.RequestStats? {
        UserSetsDesire(s.c, a.enabled, a.useMask);
      } else {
        OtherActionKeepsDesire(s.c, a);
      }
    case Enter(r) =>
    case Complete(r, code, reply) => CompletionKeepsDesire(s.c, r, code, reply);
    case FollowUp(t) => FollowUpKeepsClient(s.c, t);
    case TearDown => assert NextStage(s).c.intent == s.c.intent;
  }

  // ---------------------------------------------------------------- shutdown

  /** Once the destructor has passed its last wait nothing is left that could touch the client. */
  lemma ShutdownIsSafe(s: State)
    requires Reachable(s) && s.teardown == Gone
    ensures s.wire == multiset{} && s.entered == multiset{} && s.tails == multiset{}
  {
    ReachableInv(s);
    GoneMeansNothingLeft(s);
  }

  /** The destructor never waits in vain: in any reachable state before its end it can move on, or
      some RPC has still to complete, or some callback has still to finish. */
  lemma ShutdownNeverSticks(s: State)
    requires Reachable(s) && s.teardown != Gone
    ensures MayTearDown(s) || s.wire != multiset{} || s.entered != multiset{} || s.tails != multiset{}
  {
    ReachableInv(s);
    if s.wire == multiset{} && s.entered == multiset{} && s.tails == multiset{} {
      NothingOutstanding(s);
    }
  }

  /** With nothing on the wire and no callback left, every wait of the destructor is over. */
  lemma NothingOutstanding(s: State)
    requires Sound(s.c) && Accounted(s) && Counted(s) && s.teardown != Gone
    requires s.wire == multiset{} && s.entered == multiset{} && s.tails == multiset{}
    ensures MayTearDown(s)
  {
    assert s.wire[Connect] + s.entered[Connect] == Outstanding(s.c, Connect);
    assert s.wire[SetStats] + s.entered[SetStats] == Outstanding(s.c, SetStats);
    forall id
      ensures id !in s.c.pump.inflight
    {
      assert s.wire[Image(id)] + s.entered[Image(id)] == Outstanding(s.c, Image(id));
    }
    assert s.c.pump.inflight == map[];
    forall k
      ensures k !in s.c.groups.slots
    {
      assert s.wire[Unary(k)] + s.entered[Unary(k)] == Outstanding(s.c, Unary(k));
    }
    forall context
      ensures context !in s.c.groups.contexts
    {
      var r := FireAndForget(context);
      assert s.wire[r] + s.entered[r] == Outstanding(s.c, r);
    }
    assert s.c.groups.contexts == {};
  }


  /** And it stays so: no step enabled afterwards starts an RPC or a callback. */
  lemma GoneIsFinal(s: State, step: Step)
    requires Reachable(s) && s.teardown == Gone && Enabled(s, step)
    ensures var t := Next(s, step);
            t.teardown == Gone && t.wire == multiset{} && t.entered == multiset{} && t.tails == multiset{}
  {
    ReachableInv(s);
    GoneMeansNothingLeft(s);
    InvNext(s, step);
    GoneMeansNothingLeft(Next(s, step));
  }
}
