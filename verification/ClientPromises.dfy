/** What the remote client does for its user and for its server, told from its runs: which request
    is sent, when a lost connection is tried again, and what an answer leads to. */
module ClientPromises {
  import opened Wrappers
  import opened GlobalStats
  import opened ClientSpec
  import opened ClientMachine
  import opened ClientTransport
  import opened ClientShutdown
  import opened ClientHandshake
  import opened ClientPump
  import opened ClientIntent
  import opened ClientTheorems
  import opened ClientWindow

  // ---------------------------------------------------------------- the user's last word

  /** Step `k` is the last one of the run at which the user set the two modes. */
  ghost predicate LastWord(steps: seq<Step>, k: nat, enabled: bool, useMask: bool) {
    && k < |steps| && steps[k] == Act(RequestStats(enabled, useMask))
    && forall j | k < j < |steps| :: !(steps[j].Act? && steps[j].action.RequestStats?)
  }

  lemma {:induction false} LastWordIsDesired(states: seq<State>, steps: seq<Step>, k: nat, i: nat,
                                             enabled: bool, useMask: bool)
    requires IsRun(states, steps) && LastWord(steps, k, enabled, useMask) && k < i < |states|
    ensures var g := states[i].c.intent;
            g.haveIntent && g.haveMaskIntent && g.desired == enabled && g.maskDesired == useMask
  {
    hide Next, Enabled, Init;
    if i > k + 1 {
      LastWordIsDesired(states, steps, k, i - 1, enabled, useMask);
    }
    assert Leads(states[i - 1], steps[i - 1], states[i - 1 + 1]);
    IntentFollowsUser(states[i - 1], steps[i - 1]);
  }

  /** Whatever replies, failures and reconnections came in between: whenever a connected client whose
      server has statistics waits for nothing, the last request it has sent belongs to this
      connection and asks for exactly the modes that the user asked for last. */
  lemma LastWordIsSent(states: seq<State>, steps: seq<Step>, k: nat, enabled: bool, useMask: bool)
    requires IsRun(states, steps) && LastWord(steps, k, enabled, useMask)
    requires var s := states[|steps|];
             s.c.link.connected && !s.c.shuttingDown && s.c.intent.supported && s.c.intent.pending.None?
    ensures var s := states[|steps|];
            s.h.sends != [] && s.h.sends[|s.h.sends| - 1] == Send(s.c.link.connections, enabled, useMask)
  {
    hide Leads, Init;
    LastWordIsDesired(states, steps, k, |steps|, enabled, useMask);
    RunReaches(states, steps, |steps|);
    IntentConverges(states[|steps|]);
  }

  lemma RunReaches(states: seq<State>, steps: seq<Step>, i: nat)
    requires IsRun(states, steps) && i < |states|
    ensures Reachable(states[i])
  {
    hide Leads, Init;
    var states', steps' := states[..i + 1], steps[..i];
    forall j | 0 <= j < |steps'|
      ensures Leads(states'[j], steps'[j], states'[j + 1])
    {
      assert Leads(states[j], steps[j], states[j + 1]);
    }
    assert IsRun(states', steps') && states'[|states'| - 1] == states[i];
  }

  // ---------------------------------------------------------------- the connection timer

  /** The timer asks a connected server for a sign of life, unless it has been asked and has not
      answered yet; without a connection it opens a new generation with a probe, unless a
      connection request is pending already. */
  lemma TimerReconnects(s: State)
    requires Reachable(s) && !s.c.shuttingDown
    ensures var t := Next(s, Act(Timer));
            if s.c.link.connected then
              && t.c.link == s.c.link
              && t.wire == s.wire + (if Unary(Ping) in s.wire || Unary(Ping) in s.entered then multiset{}
                                     else multiset{Unary(Ping)})
            else if s.c.link.pending.Some? then t.c == s.c && t.wire == s.wire
            else
              && t.wire == s.wire + multiset{Connect} && Connect !in s.wire && Connect !in s.entered
              && t.c.link.connections == s.c.link.connections + 1 && !t.c.link.connected
              && t.c.link.pending.Some?
              && t.c.link.pending.value.phase == Probe
              && t.c.link.pending.value.generation == s.c.link.connections + 1
  {
    hide Record;
    ReachableInv(s);
    assert s.wire[Unary(Ping)] + s.entered[Unary(Ping)] == Outstanding(s.c, Unary(Ping));
    assert s.wire[Connect] + s.entered[Connect] == Outstanding(s.c, Connect);
  }

  // ---------------------------------------------------------------- applied replies

  lemma NewestAt(replies: seq<Reply>, k: nat)
    requires LastLargest(replies, k)
    ensures replies != [] && Newest(replies) == replies[k]
  {
    hide Newest;
    var j := NewestIsLargest(replies);
    assert replies[j].serial == replies[k].serial;
  }

  /** The handler applies the newest queued reply if it is newer than what was applied before: its
      statistics message makes the client supported and is what the client shows; a reply without
      one, or a server that has refused the request, makes it unsupported. */
  lemma AppliedReplyIsShown(s: State, k: nat)
    requires LastLargest(s.c.pump.completed, k) && !s.c.shuttingDown
    ensures var r := s.c.pump.completed[k];
            var t := Next(s, Act(Handle(ImageWaiting)));
            && t.c.pump.completed == []
            && t.c.pump.lastApplied == (if r.serial > s.c.pump.lastApplied then r.serial else s.c.pump.lastApplied)
            && (if r.serial <= s.c.pump.lastApplied then t.c.intent == s.c.intent && t.wire == s.wire
                else if r.stats.Some? && !s.c.intent.rpcUnsupported then
                  t.c.intent.supported && Shows(t.c.intent.stats, r.stats.value)
                else !t.c.intent.supported && t.c.intent.stats.status.Unsupported? && t.c.intent.stats.count == 0)
  {
    hide Record, DispatchStats;
    NewestAt(s.c.pump.completed, k);
    DrainPump(s.c);
    DrainDispatches(s.c);
    if Applies(s.c) {
      DispatchKeepsStats(Stored(s.c));
      DispatchKeepsSupport(Stored(s.c));
      ReceivedIsCoherent(s.c.pump.completed[k].stats);
    }
  }

  lemma DispatchKeepsSupport(c: Client)
    ensures var o := DispatchStats(c);
            && o.client.link == c.link && o.client.intent.stats == c.intent.stats
            && o.client.intent.supported == c.intent.supported
            && o.client.intent.rpcUnsupported == c.intent.rpcUnsupported
            && (!c.link.connected || !c.intent.supported ==> o.rpcs == {})
  {
  }

  /** A reply that makes statistics available sends what the user wants, unless that is what this
      connection's server was told last. */
  lemma AppliedReplySendsIntent(s: State, k: nat)
    requires Reachable(s) && s.c.link.connected && !s.c.shuttingDown
    requires LastLargest(s.c.pump.completed, k) && s.c.pump.completed[k].serial > s.c.pump.lastApplied
    requires s.c.pump.completed[k].stats.Some? && !s.c.intent.rpcUnsupported
    requires (s.c.intent.haveIntent || s.c.intent.haveMaskIntent) && s.c.intent.pending.None?
    ensures var t := Next(s, Act(Handle(ImageWaiting)));
            && t.h.sends != []
            && var last := t.h.sends[|t.h.sends| - 1];
            && last.generation == t.c.link.connections && Wanted(t.c.intent, last)
            && t.wire == s.wire + if t.h.sends == s.h.sends then multiset{} else multiset{SetStats}
  {
    hide Reachable, Next, LastLargest, Newest, Wanted, IntentInv;
    ReachableIntent(s);
    NewestAt(s.c.pump.completed, k);
    StoredKeeps(s.c);
    DispatchSendsWanted(s, Stored(s.c));
    DrainedNext(s);
  }

  lemma ReachableIntent(s: State)
    requires Reachable(s)
    ensures IntentInv(s) && (s.c.link.connected ==> s.h.live)
  {
    ReachableInv(s);
  }

  /** An applied reply leaves what dispatching over the stored reply leaves. */
  lemma DrainedNext(s: State)
    requires Applies(s.c)
    ensures var o := DispatchStats(Stored(s.c));
            var t := Next(s, Act(Handle(ImageWaiting)));
            && t.c == o.client && t.wire == s.wire + multiset(o.rpcs)
            && t.h.sends == s.h.sends + (if SetStats in o.rpcs then
                 [Send(o.client.link.connections, o.client.intent.lastSent, o.client.intent.lastMaskSent)] else [])
  {
    hide DispatchStats, Stored, Newest;
    DrainDispatches(s.c);
  }

  /** Dispatching sends what is wanted unless that was sent last. */
  lemma DispatchSendsWanted(s: State, c: Client)
    requires IntentInv(s) && s.h.live && s.c.link.connected && c.link == s.c.link
    requires !c.shuttingDown && c.intent.supported && c.intent.pending.None?
    requires c.intent.haveIntent || c.intent.haveMaskIntent
    requires c.intent.sent == s.c.intent.sent && c.intent.lastSent == s.c.intent.lastSent
    requires c.intent.lastMaskSent == s.c.intent.lastMaskSent
    ensures var o := DispatchStats(c);
            && o.client.link == c.link && (o.rpcs == {} || o.rpcs == {SetStats})
            && if SetStats in o.rpcs then
                 Wanted(o.client.intent,
                        Send(c.link.connections, o.client.intent.lastSent, o.client.intent.lastMaskSent))
               else
                 && s.h.sends != []
                 && s.h.sends[|s.h.sends| - 1].generation == c.link.connections
                 && Wanted(o.client.intent, s.h.sends[|s.h.sends| - 1])
  {
  }

  lemma StoredKeeps(c: Client)
    requires Applies(c)
    ensures var d := Stored(c);
            && d.link == c.link && d.shuttingDown == c.shuttingDown
            && d.intent.supported == (Newest(c.pump.completed).stats.Some? && !c.intent.rpcUnsupported)
            && SameDesire(c.intent, d.intent) && d.intent.pending == c.intent.pending
            && d.intent.sent == c.intent.sent && d.intent.lastSent == c.intent.lastSent
            && d.intent.lastMaskSent == c.intent.lastMaskSent
  {
  }

  // ---------------------------------------------------------------- failed statistics requests

  /** What the result of a statistics request leads to: a success to nothing, an answer that the server
      does not know the request to an unsupported client that stays connected, and any other
      failure to the end of the connection; a result of an earlier generation is dropped. */
  lemma ResultIsHeeded(s: State)
    requires s.c.intent.pending.Some? && !s.c.intent.rpcPending && !s.c.shuttingDown
    ensures var r := s.c.intent.pending.value;
            var t := Next(s, Act(Handle(StatsReceived)));
            if r.generation != s.c.link.connections || r.code.Ok? then
              && t.c.link == s.c.link && t.c.intent.stats == s.c.intent.stats
              && t.c.intent.supported == s.c.intent.supported
            else if r.code.Unimplemented? then
              && t.c.link == s.c.link && !t.c.intent.supported && t.c.intent.rpcUnsupported
              && t.c.intent.stats.status.Unsupported? && t.c.intent.stats.count == 0 && t.wire == s.wire
            else
              && !t.c.link.connected && t.c.link.connections == s.c.link.connections
              && t.c.intent.stats.status.NoImage? && t.c.intent.stats.count == 0 && t.wire == s.wire
  {
    hide Record, DispatchStats, ApplyStatsResult;
    var taken := s.c.(intent := s.c.intent.(pending := None));
    ResultTakenIn(taken, s.c.intent.pending.value);
    DispatchKeepsSupport(ApplyStatsResult(taken, s.c.intent.pending.value));
  }

  lemma ResultTakenIn(c: Client, r: StatsRequest)
    ensures var d := ApplyStatsResult(c, r);
            if r.generation != c.link.connections || r.code.Ok? then d == c
            else if r.code.Unimplemented? then
              && d.link == c.link && !d.intent.supported && d.intent.rpcUnsupported
              && d.intent.stats.status.Unsupported? && d.intent.stats.count == 0
            else
              && !d.link.connected && d.link.connections == c.link.connections
              && d.intent.stats.status.NoImage? && d.intent.stats.count == 0
  {
  }

  /** The connection of this generation has been lost, or there has been a later one. */
  predicate Lost(s: State, generation: nat) {
    || s.c.link.connections > generation
    || (s.c.link.connections == generation && s.h.live && !s.c.link.connected)
  }

  lemma TimerOpensGeneration(s: State)
    requires InHandshake(s) && s.h.live && !s.c.link.connected
    ensures var t := Next(s, Act(Timer));
            t.c.link.connections == s.c.link.connections ==> t.h.live && !t.c.link.connected
  {
  }

  lemma OtherActionsStayDown(s: State, a: Action)
    requires InHandshake(s) && s.h.live && !s.c.link.connected && a != Timer
    ensures var t := Next(s, Act(a));
            t.c.link.connections == s.c.link.connections ==> t.h.live && !t.c.link.connected
  {
    hide Respond, Applies, Newest;
    if a == Handle(ConnectionReceived) {
      NothingPending(s.c);
    } else {
      OtherActionsKeepLink(s.c, a);
    }
  }

  lemma NothingPending(c: Client)
    requires c.link.pending.None?
    ensures Respond(c, Handle(ConnectionReceived)) == Quiet(c)
  {
  }

  /** Once a handshake has finished, its generation cannot connect again. */
  lemma LiveLinkStaysDown(s: State, step: Step)
    requires InHandshake(s) && s.h.live && !s.c.link.connected
    ensures var t := Next(s, step);
            t.c.link.connections == s.c.link.connections ==> t.h.live && !t.c.link.connected
  {
    hide Respond, Posted, Rest, InHandshake;
    match step
    case Act(a) =>
      if a == Timer {
        TimerOpensGeneration(s);
      } else {
        OtherActionsStayDown(s, a);
      }
    case Enter(r) =>
    case Complete(r, code, reply) => CompletionShrinksLink(s.c, r, code, reply);
    case FollowUp(t) =>
    case TearDown =>
  }

  lemma CompletionShrinksLink(c: Client, r: Rpc, code: Code, reply: Reply)
    ensures var d := Completion(c, r, code, reply).client;
            d.link.connections == c.link.connections && d.link.connected == c.link.connected
  {
  }

  lemma LostStaysLost(s: State, step: Step, generation: nat)
    requires Inv(s) && Enabled(s, step) && Lost(s, generation)
    ensures Lost(Next(s, step), generation)
  {
    hide Next, PumpInv, IntentInv, NotifiedOnce, Drained, Accounted, Counted, Sound;
    StepPrimes(s, step);
    if s.c.link.connections == generation {
      LiveLinkStaysDown(s, step);
    }
  }

  lemma {:induction false} LostForGood(states: seq<State>, steps: seq<Step>, i: nat, j: nat, generation: nat)
    requires IsRun(states, steps) && i <= j < |states| && Lost(states[i], generation)
    ensures Lost(states[j], generation)
  {
    hide Next, Enabled, Init, Inv, Lost;
    if i < j {
      LostForGood(states, steps, i, j - 1, generation);
      RunInv(states, steps, j - 1);
      assert Leads(states[j - 1], steps[j - 1], states[j - 1 + 1]);
      LostStaysLost(states[j - 1], steps[j - 1], generation);
    }
  }

  /** The result of a statistics request of this connection has come in, and it is a failure other than
      that the server does not know the request. */
  predicate RequestFails(s: State, step: Step) {
    && step == Act(Handle(StatsReceived)) && s.c.link.connected && !s.c.shuttingDown
    && s.c.intent.pending.Some? && !s.c.intent.rpcPending
    && s.c.intent.pending.value.generation == s.c.link.connections
    && !s.c.intent.pending.value.code.Ok? && !s.c.intent.pending.value.code.Unimplemented?
  }

  /** A request that fails is sent again: whenever the client is connected and supported once more and
      waits for nothing, it has sent what the user wants in a request that is later than all those it
      had sent before the failure. */
  lemma FailedRequestIsSentAgain(states: seq<State>, steps: seq<Step>, i: nat, j: nat)
    requires IsRun(states, steps) && i < j < |states| && RequestFails(states[i], steps[i])
    requires var s := states[j];
             && s.c.link.connected && !s.c.shuttingDown && s.c.intent.supported && s.c.intent.pending.None?
             && (s.c.intent.haveIntent || s.c.intent.haveMaskIntent)
    ensures var s := states[j];
            && s.h.sends != []
            && var last := s.h.sends[|s.h.sends| - 1];
            && last.generation == s.c.link.connections && Wanted(s.c.intent, last)
            && forall x | x in states[i].h.sends :: x.generation < last.generation
  {
    hide Next, Init, Inv, Enabled, Wanted;
    assert Leads(states[i], steps[i], states[i + 1]);
    RunInv(states, steps, i);
    FailureLoses(states[i]);
    LostForGood(states, steps, i + 1, j, states[i].c.link.connections);
    RunReaches(states, steps, j);
    IntentConverges(states[j]);
  }

  lemma FailureLoses(s: State)
    requires Inv(s) && RequestFails(s, Act(Handle(StatsReceived)))
    ensures Lost(Next(s, Act(Handle(StatsReceived))), s.c.link.connections)
    ensures forall x | x in s.h.sends :: x.generation <= s.c.link.connections
  {
    hide Respond;
    ResultIsHeeded(s);
  }
}
