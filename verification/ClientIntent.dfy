/** The global-statistics request protocol: the latest intent is always the last one sent, one
    request at a time, without repeats, and it is sent again after a reconnection. */
module ClientIntent {
  import opened Wrappers
  import opened GlobalStats
  import opened ClientSpec
  import opened ClientMachine
  import opened ClientTransport
  import opened ClientHandshake

  /** Nothing is left to send. */
  predicate Settled(c: Client) {
    c.link.connected && !c.shuttingDown && c.intent.supported && HaveAnyIntent(c.intent) && c.intent.pending.None?
    ==> AlreadySent(c.intent)
  }

  ghost predicate SendsRecorded(s: State) {
    var sends := s.h.sends;
    var g := s.c.intent;
    && (forall x | x in sends :: x.generation <= s.c.link.connections)
    && (!s.h.live ==> forall x | x in sends :: x.generation < s.c.link.connections)
    && (s.h.live && g.sent ==>
          sends != [] && sends[|sends| - 1] == Send(s.c.link.connections, g.lastSent, g.lastMaskSent))
    && (s.c.link.connected && !g.sent ==> forall x | x in sends :: x.generation < s.c.link.connections)
  }

  /** Requests that follow each other in one generation ask for different modes. */
  ghost predicate NoRepeats(sends: seq<Send>) {
    forall i, j | 0 <= i && j == i + 1 && j < |sends| && sends[i].generation == sends[j].generation ::
      sends[i] != sends[j]
  }

  /** A finished request has exactly one notification on its way. */
  predicate ResultNotifiedOnce(s: State) {
    s.c.shuttingDown
    || s.qt[StatsReceived] + s.tails[PostStats]
       == if s.c.intent.pending.Some? && !s.c.intent.rpcPending then 1 else 0
  }

  ghost predicate IntentInv(s: State) {
    Settled(s.c) && SendsRecorded(s) && NoRepeats(s.h.sends) && ResultNotifiedOnce(s)
  }

  predicate MaySend(a: Action) {
    a.RequestStats? || (a.Handle? && (a.event == ImageWaiting || a.event == StatsReceived))
  }

  /** Only three handlers send a request, and a request sent carries the present generation and what
      is remembered as last sent. */
  lemma SendersAreRecorded(c: Client, a: Action)
    ensures var o := Respond(c, a);
            SetStats in o.rpcs ==>
              && MaySend(a) && o.client.intent.pending.Some?
              && o.client.intent.pending.value.generation == o.client.link.connections
              && o.client.intent.pending.value.enabled == o.client.intent.lastSent
              && o.client.intent.pending.value.useMask == o.client.intent.lastMaskSent
  {
    hide Received;
  }

  /** The request that a step hands to the transport, if any. */
  function Dispatched(c: Client, step: Step): seq<Send> {
    if step.Act? && SetStats in Respond(c, step.action).rpcs then
      SendersAreRecorded(c, step.action);
      var request := Respond(c, step.action).client.intent.pending.value;
      [Send(request.generation, request.enabled, request.useMask)]
    else []
  }

  /** Which steps touch the record of sends. */
  lemma RecordedSends(s: State, step: Step)
    ensures Record(s, step).sends
         == if step.Act? && MaySend(step.action) then RecordSend(s.h, Respond(s.c, step.action)).sends else s.h.sends
  {
    hide Respond, Newest, ConnectionReady, Finishes, Applies, Silent;
    if step.Act? && step.action == Handle(ImageWaiting) {
      assert RecordImage(s.h, s.c).sends == s.h.sends;
    }
  }

  /** The history misses no request and invents none. */
  lemma StepRecordsDispatched(s: State, step: Step)
    ensures Next(s, step).h.sends == s.h.sends + Dispatched(s.c, step)
  {
    hide Respond, Effect, Record, MaySend;
    RecordedSends(s, step);
    if step.Act? {
      SendersAreRecorded(s.c, step.action);
    }
  }

  // ---------------------------------------------------------------- sending

  /** Whatever state `m` a handler is in when it calls dispatchGlobalStats, the call settles it. */
  lemma DispatchSettles(m: State, t: State)
    requires SendsRecorded(m) && NoRepeats(m.h.sends) && ResultNotifiedOnce(m)
    requires (m.c.link.connected ==> m.h.live) && (m.c.intent.rpcPending ==> m.c.intent.pending.Some?)
    requires var o := DispatchStats(m.c);
             t.c == o.client && t.h.sends == RecordSend(m.h, o).sends && t.h.live == m.h.live
    requires t.qt[StatsReceived] + t.tails[PostStats] == m.qt[StatsReceived] + m.tails[PostStats]
    ensures IntentInv(t)
  {
    if MaySendStats(m.c) {
      var sends := m.h.sends;
      assert t.h.sends[..|sends|] == sends;
      if sends != [] && sends[|sends| - 1].generation == m.c.link.connections {
        assert sends[|sends| - 1] in sends;
        assert m.c.intent.sent;
      }
    }
  }

  lemma RequestKeepsIntentInv(s: State, enabled: bool, useMask: bool)
    requires Sound(s.c) && InHandshake(s) && IntentInv(s)
    ensures IntentInv(Next(s, Act(RequestStats(enabled, useMask))))
  {
    var m := s.(c := s.c.(intent := s.c.intent.(haveIntent := true, desired := enabled,
                                                haveMaskIntent := true, maskDesired := useMask)));
    DispatchSettles(m, Next(s, Act(RequestStats(enabled, useMask))));
  }

  /** The client between storing an applied reply and dispatching. */
  function Stored(c: Client): Client
    requires Applies(c)
  {
    var newest := Newest(c.pump.completed);
    WithStats(c.(pump := c.pump.(completed := [], lastApplied := newest.serial)), newest.stats)
  }

  lemma DrainDispatches(c: Client)
    ensures if Applies(c) then
              var o := DispatchStats(Stored(c));
              ImageReceived(c) == Out(o.client, o.rpcs, multiset{ImageNeeded})
            else
              && ImageReceived(c).rpcs == {} && ImageReceived(c).client.intent == c.intent
              && ImageReceived(c).client.link == c.link && ImageReceived(c).client.shuttingDown == c.shuttingDown
              && ImageReceived(c).events[StatsReceived] == 0
  {
  }

  lemma ImageKeepsIntentInv(s: State)
    requires Sound(s.c) && InHandshake(s) && IntentInv(s)
    ensures IntentInv(Next(s, Act(Handle(ImageWaiting))))
  {
    var t := Next(s, Act(Handle(ImageWaiting)));
    DrainDispatches(s.c);
    if Applies(s.c) {
      DispatchSettles(s.(c := Stored(s.c)), t);
    } else {
      FrameIntentInv(s, t);
    }
  }

  predicate SameDesire(g: Intent, h: Intent) {
    && h.haveIntent == g.haveIntent && h.haveMaskIntent == g.haveMaskIntent
    && h.desired == g.desired && h.maskDesired == g.maskDesired
  }

  lemma ResultApplied(c: Client, r: StatsRequest)
    ensures var d := ApplyStatsResult(c, r);
            && d.link.connections == c.link.connections && (d.link.connected ==> c.link.connected)
            && (d.link.connected ==> d.intent.sent == c.intent.sent)
            && (d.intent.sent ==> c.intent.sent) && d.intent.lastSent == c.intent.lastSent
            && d.intent.lastMaskSent == c.intent.lastMaskSent
            && d.intent.pending == c.intent.pending && d.intent.rpcPending == c.intent.rpcPending
            && d.shuttingDown == c.shuttingDown && SameDesire(c.intent, d.intent)
  {
    var d := ApplyStatsResult(c, r);
    if r.generation != c.link.connections || r.code.Ok? {
      assert d == c;
    } else if r.code.Unimplemented? {
      assert d.link == c.link;
    } else {
      assert !d.link.connected;
    }
  }

  lemma ResultKeepsIntentInv(s: State)
    requires Sound(s.c) && InHandshake(s) && IntentInv(s) && StatsReceived in s.qt
    ensures IntentInv(Next(s, Act(Handle(StatsReceived))))
  {
    var t := Next(s, Act(Handle(StatsReceived)));
    if StatsReady(s.c) {
      var taken := s.c.(intent := s.c.intent.(pending := None));
      ResultApplied(taken, s.c.intent.pending.value);
      var m := s.(c := ApplyStatsResult(taken, s.c.intent.pending.value), qt := s.qt - multiset{StatsReceived});
      assert SendsRecorded(m) && ResultNotifiedOnce(m);
      var o := DispatchStats(m.c);
      assert Respond(s.c, Handle(StatsReceived)) == o && o.events == multiset{};
      DispatchSettles(m, t);
    }
  }

  predicate SameButMeasurements(g: Intent, h: Intent) {
    && h.stats.enabled == g.stats.enabled && h.stats.useMask == g.stats.useMask
    && h.supported == g.supported
    && h.haveIntent == g.haveIntent && h.desired == g.desired
    && h.haveMaskIntent == g.haveMaskIntent && h.maskDesired == g.maskDesired
    && h.sent == g.sent && h.lastSent == g.lastSent && h.lastMaskSent == g.lastMaskSent
    && h.pending == g.pending && h.rpcPending == g.rpcPending
  }

  /** Steps that leave the intent alone, or only blank the measurements. */
  lemma FrameIntentInv(s: State, t: State)
    requires InHandshake(s) && IntentInv(s)
    requires SameButMeasurements(s.c.intent, t.c.intent)
    requires t.h.sends == s.h.sends && (s.c.shuttingDown ==> t.c.shuttingDown)
    requires (t.c.link.connected ==> s.c.link.connected)
    requires || (t.c.link.connections == s.c.link.connections && t.h.live == s.h.live)
             || (t.c.link.connections > s.c.link.connections && !t.h.live && !t.c.link.connected)
    requires !t.c.shuttingDown ==>
               t.qt[StatsReceived] + t.tails[PostStats] == s.qt[StatsReceived] + s.tails[PostStats]
    ensures IntentInv(t)
  {
  }

  lemma ReceivedIntent(c: Client)
    ensures var o := OnConnectionReceived(c);
            && o.events[StatsReceived] == 0
            && (Finishes(c) ==>
                  && o.client.link.connections == c.link.connections
                  && o.client.intent
                     == c.intent.(stats := BLANK, supported := false, rpcUnsupported := false, sent := false))
            && (!Finishes(c) ==> o.client.intent == c.intent && (o.client.link.connected ==> c.link.connected))
            && o.client.link.connections >= c.link.connections
            && o.client.shuttingDown == c.shuttingDown
  {
  }

  lemma ConnectionKeepsIntentInv(s: State)
    requires InHandshake(s) && IntentInv(s)
    ensures IntentInv(Next(s, Act(Handle(ConnectionReceived))))
  {
    ReceivedIntent(s.c);
  }

  lemma OtherActionIntent(c: Client, a: Action)
    requires !MaySend(a) && a != Handle(ConnectionReceived) && a != Timer
    requires !(a.Handle? && a.event.StatsUnavailable?)
    ensures Respond(c, a).events[StatsReceived] == 0 && Respond(c, a).client.intent == c.intent
  {
  }

  /** Losing the image blanks the measurements and keeps the modes. */
  lemma UnavailableKeepsModes(c: Client, generation: nat)
    ensures var g := OnStatsUnavailable(c, generation).intent;
            && SameButMeasurements(c.intent, g)
            && (!c.shuttingDown && generation == c.link.connections ==> g.stats.count == 0 && g.stats.status == NoImage)
  {
    var d := OnStatsUnavailable(c, generation);
    if c.shuttingDown || generation != c.link.connections {
      assert d == c;
    } else {
      var stats := Cleared(c.intent.stats.enabled, c.intent.stats.useMask, NoImage);
      assert d.intent.stats == stats;
    }
  }

  lemma TimerIntent(c: Client)
    ensures var o := Reconnect(c);
            && o.events == multiset{} && o.client.intent == c.intent
            && (o.client.link.connected ==> c.link.connected)
            && (o.client.link.connections != c.link.connections ==>
                  o.client.link.connections > c.link.connections && !o.client.link.connected)
  {
  }

  lemma OtherActionKeepsIntentInv(s: State, a: Action)
    requires InHandshake(s) && IntentInv(s) && !MaySend(a) && a != Handle(ConnectionReceived)
    ensures IntentInv(Next(s, Act(a)))
  {
    ActionFrame(s.c, a);
    if a == Timer {
      TimerIntent(s.c);
    } else {
      OtherActionsKeepLink(s.c, a);
      if a.Handle? && a.event.StatsUnavailable? {
        UnavailableKeepsModes(s.c, a.event.generation);
      } else {
        OtherActionIntent(s.c, a);
      }
    }
    FrameIntentInv(s, Next(s, Act(a)));
  }

  lemma StatsDoneKeepsIntentInv(s: State, code: Code, reply: Reply)
    requires Sound(s.c) && Accounted(s) && IntentInv(s) && SetStats in s.entered
    ensures IntentInv(Next(s, Complete(SetStats, code, reply)))
  {
    assert s.wire[SetStats] + s.entered[SetStats] == Outstanding(s.c, SetStats);
  }

  lemma CompletionIntent(c: Client, r: Rpc, code: Code, reply: Reply)
    requires r != SetStats
    ensures var Done(d, tail) := Completion(c, r, code, reply);
            && d.intent == c.intent && d.shuttingDown == c.shuttingDown && tail != PostStats
            && d.link.connections == c.link.connections && d.link.connected == c.link.connected
  {
  }

  lemma CompletionKeepsIntentInv(s: State, r: Rpc, code: Code, reply: Reply)
    requires Sound(s.c) && Accounted(s) && InHandshake(s) && IntentInv(s) && r in s.entered
    ensures IntentInv(Next(s, Complete(r, code, reply)))
  {
    if r == SetStats {
      StatsDoneKeepsIntentInv(s, code, reply);
    } else {
      CompletionIntent(s.c, r, code, reply);
      FrameIntentInv(s, Next(s, Complete(r, code, reply)));
    }
  }

  /** A callback's later regions neither post nor drop a result notification on balance. */
  lemma FollowUpNotices(s: State, tail: Tail)
    requires tail in s.tails && !s.c.shuttingDown
    ensures var t := Effect(s, FollowUp(tail));
            t.qt[StatsReceived] + t.tails[PostStats] == s.qt[StatsReceived] + s.tails[PostStats]
  {
    hide Respond, Completion, NextStage, Posted, Rest, AfterTail;
    Leftovers(s.c, tail);
    Replaced(s.tails, tail, Rest(s.c, tail), PostStats);
  }

  lemma FollowUpKeepsIntentInv(s: State, tail: Tail)
    requires InHandshake(s) && IntentInv(s) && tail in s.tails
    ensures IntentInv(Next(s, FollowUp(tail)))
  {
    hide IntentInv, InHandshake, Respond, Completion, NextStage, Posted, Rest;
    if !s.c.shuttingDown {
      FollowUpNotices(s, tail);
    }
    FrameIntentInv(s, Next(s, FollowUp(tail)));
  }

  lemma ActionKeepsIntentInv(s: State, a: Action)
    requires Sound(s.c) && InHandshake(s) && IntentInv(s) && Enabled(s, Act(a))
    ensures IntentInv(Next(s, Act(a)))
  {
    if a.RequestStats? {
      RequestKeepsIntentInv(s, a.enabled, a.useMask);
    } else if a == Handle(ImageWaiting) {
      ImageKeepsIntentInv(s);
    } else if a == Handle(StatsReceived) {
      ResultKeepsIntentInv(s);
    } else if a == Handle(ConnectionReceived) {
      ConnectionKeepsIntentInv(s);
    } else {
      OtherActionKeepsIntentInv(s, a);
    }
  }

  lemma EnterKeepsIntentInv(s: State, r: Rpc)
    requires InHandshake(s) && IntentInv(s)
    ensures IntentInv(Next(s, Enter(r)))
  {
    FrameIntentInv(s, Next(s, Enter(r)));
  }

  lemma TearDownKeepsIntentInv(s: State)
    requires InHandshake(s) && IntentInv(s)
    ensures IntentInv(Next(s, TearDown))
  {
    FrameIntentInv(s, Next(s, TearDown));
  }

  lemma IntentNext(s: State, step: Step)
    requires Sound(s.c) && Accounted(s) && InHandshake(s) && IntentInv(s) && Enabled(s, step)
    ensures IntentInv(Next(s, step))
  {
    match step
    case Act(a) => ActionKeepsIntentInv(s, a);
    case Enter(r) => EnterKeepsIntentInv(s, r);
    case Complete(r, code, reply) => CompletionKeepsIntentInv(s, r, code, reply);
    case FollowUp(t) => FollowUpKeepsIntentInv(s, t);
    case TearDown => TearDownKeepsIntentInv(s);
  }
}
