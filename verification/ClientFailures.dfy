/** What ends a connection and what does not, what each kind of reply leads to, and that the user's
    requests reach the server. */
module ClientFailures {
  import opened Wrappers
  import opened GlobalStats
  import opened ClientSpec
  import opened ClientMachine
  import opened ClientTransport
  import opened ClientPump
  import opened ClientIntent
  import opened ClientTheorems
  import opened ClientPromises

  // ---------------------------------------------------------------- the end of a connection

  lemma HandlersKeepLink(c: Client, a: Action)
    requires c.link.connected && c.link.pending.None? && a != Handle(StatsReceived)
    ensures Respond(c, a).client.link == c.link
  {
    hide Newest, Received, FreshIds, Credits;
  }

  lemma RegionsKeepLink(c: Client, t: Tail)
    requires c.link.connected
    ensures AfterTail(c, t).link.connected <==> t != Disconnect(c.link.connections)
  {
  }

  lemma ConnectedIdle(s: State)
    requires Reachable(s) && s.c.link.connected
    ensures s.c.link.pending.None?
  {
    ReachableInv(s);
  }

  lemma ResultKeepsLink(s: State)
    requires s.c.link.connected
    ensures Next(s, Act(Handle(StatsReceived))).c.link.connected <==> !RequestFails(s, Act(Handle(StatsReceived)))
  {
    hide Record, DispatchStats, ApplyStatsResult;
    if StatsReady(s.c) {
      ResultIsHeeded(s);
    }
  }

  /** A connection ends in exactly two ways: a callback carries out the disconnect that a failed RPC of
      this generation left it to do, or the result of this generation's statistics request is a
      failure. */
  lemma DisconnectsExactly(s: State, step: Step)
    requires Reachable(s) && Enabled(s, step) && s.c.link.connected
    ensures !Next(s, step).c.link.connected <==>
            step == FollowUp(Disconnect(s.c.link.connections)) || RequestFails(s, step)
  {
    hide Reachable, Respond, Completion, AfterTail, Posted, Rest, Record;
    match step
    case Act(a) =>
      if a == Handle(StatsReceived) {
        ResultKeepsLink(s);
      } else {
        ConnectedIdle(s);
        HandlersKeepLink(s.c, a);
      }
    case Enter(r) =>
    case Complete(r, code, reply) => CompletionShrinksLink(s.c, r, code, reply);
    case FollowUp(t) => RegionsKeepLink(s.c, t);
    case TearDown =>
  }

  /** The ways an RPC can fail that cost the connection. A deadline that passes does not, unless it is
      that of the statistics request, and neither does a failed request for information. */
  predicate Fails(r: Rpc, code: Code) {
    match r
    case Connect => false
    case Image(_) => !code.Ok? && !code.DeadlineExceeded?
    case SetStats => !code.Ok? && !code.Unimplemented?
    case Unary(k) => !InfoSlot(k) && !code.Ok? && !code.DeadlineExceeded?
    case FireAndForget(_) => !code.Ok? && !code.DeadlineExceeded?
  }

  /** Nothing is under way that will end the connection. */
  ghost predicate Unharmed(s: State) {
    && (forall t | t in s.tails :: !t.Disconnect? && !t.ReadGeneration?)
    && (s.c.intent.pending.Some? ==> s.c.intent.pending.value.code.Ok? || s.c.intent.pending.value.code.Unimplemented?)
  }

  lemma CompletionUnharmed(s: State, r: Rpc, code: Code, reply: Reply)
    requires Unharmed(s) && !Fails(r, code)
    ensures Unharmed(Next(s, Complete(r, code, reply)))
  {
    hide Respond, Record;
  }

  lemma ActionUnharmed(s: State, a: Action)
    requires Unharmed(s)
    ensures Unharmed(Next(s, Act(a)))
  {
    hide Record, Respond;
    HandlersAskAfresh(s.c, a);
  }

  /** The pending statistics request is the same, or gone, or a new one. */
  predicate AsksAfresh(g: Intent, h: Intent) {
    h.pending.Some? ==> h.pending == g.pending || h.pending.value.code.Ok?
  }

  lemma DispatchAsksAfresh(c: Client)
    ensures AsksAfresh(c.intent, DispatchStats(c).client.intent)
  {
  }

  lemma ResultAsksAfresh(c: Client)
    ensures AsksAfresh(c.intent, OnStatsReceived(c).client.intent)
  {
    hide DispatchStats, ApplyStatsResult;
    if StatsReady(c) {
      var taken := c.(intent := c.intent.(pending := None));
      ResultApplied(taken, c.intent.pending.value);
      DispatchAsksAfresh(ApplyStatsResult(taken, c.intent.pending.value));
    }
  }

  lemma HandlersAskAfresh(c: Client, a: Action)
    ensures AsksAfresh(c.intent, Respond(c, a).client.intent)
  {
    hide ImageReceived, OnStatsReceived, OnStatsUnavailable, OnConnectionReceived, Reconnect, DispatchStats;
    if a == Handle(ImageWaiting) {
      DrainDispatches(c);
      if Applies(c) {
        DispatchAsksAfresh(Stored(c));
      }
    } else if a == Handle(StatsReceived) {
      ResultAsksAfresh(c);
    } else if a == Handle(ConnectionReceived) {
      ReceivedIntent(c);
    } else if a.RequestStats? {
      DispatchAsksAfresh(c.(intent := c.intent.(haveIntent := true, desired := a.enabled,
                                                haveMaskIntent := true, maskDesired := a.useMask)));
    } else if a == Timer {
      TimerIntent(c);
    } else if a.Handle? && a.event.StatsUnavailable? {
      UnavailableKeepsModes(c, a.event.generation);
    } else {
      hide Respond;
      OtherActionIntent(c, a);
    }
  }

  lemma StepUnharmed(s: State, step: Step)
    requires Enabled(s, step) && Unharmed(s) && (step.Complete? ==> !Fails(step.done, step.code))
    ensures Unharmed(Next(s, step))
  {
    match step
    case Act(a) => ActionUnharmed(s, a);
    case Enter(r) =>
    case Complete(r, code, reply) => CompletionUnharmed(s, r, code, reply);
    case FollowUp(t) => FollowUpUnharmed(s, t);
    case TearDown =>
  }

  lemma FollowUpUnharmed(s: State, t: Tail)
    requires Unharmed(s) && t in s.tails
    ensures Unharmed(Next(s, FollowUp(t)))
  {
    hide Posted, Record;
    FollowUpKeepsClient(s.c, t);
    var u := Next(s, FollowUp(t));
    assert forall x | x in u.tails :: x in s.tails || x in Rest(s.c, t);
  }

  lemma {:induction false} RunUnharmed(states: seq<State>, steps: seq<Step>, i: nat)
    requires IsRun(states, steps) && i < |states|
    requires forall k | 0 <= k < i :: steps[k].Complete? ==> !Fails(steps[k].done, steps[k].code)
    ensures Unharmed(states[i])
  {
    hide Next, Enabled, Unharmed, Fails;
    if i > 0 {
      RunUnharmed(states, steps, i - 1);
      assert Leads(states[i - 1], steps[i - 1], states[i - 1 + 1]);
      StepUnharmed(states[i - 1], steps[i - 1]);
    } else {
      StartUnharmed(states[0]);
    }
  }

  lemma StartUnharmed(s: State)
    requires Init(s)
    ensures Unharmed(s)
  {
  }

  /** As long as no RPC fails in one of those ways, a client that is connected stays so, through
      anything that the user, the timer, the replies and the destructor do. */
  lemma {:induction false} ConnectionLasts(states: seq<State>, steps: seq<Step>, i: nat, j: nat)
    requires IsRun(states, steps) && i <= j < |states| && states[i].c.link.connected
    requires forall k | 0 <= k < j :: steps[k].Complete? ==> !Fails(steps[k].done, steps[k].code)
    ensures states[j].c.link.connected
  {
    hide Next, Enabled, Init, Reachable, Fails, Unharmed;
    if i < j {
      ConnectionLasts(states, steps, i, j - 1);
      RunUnharmed(states, steps, j - 1);
      RunReaches(states, steps, j - 1);
      assert Leads(states[j - 1], steps[j - 1], states[j - 1 + 1]);
      UnharmedStays(states[j - 1], steps[j - 1]);
    }
  }

  lemma UnharmedStays(s: State, step: Step)
    requires Reachable(s) && Enabled(s, step) && Unharmed(s) && s.c.link.connected
    ensures Next(s, step).c.link.connected
  {
    hide Reachable, Next;
    DisconnectsExactly(s, step);
  }

  // ---------------------------------------------------------------- what follows a reply

  /** What the callback of a current image request goes on to do: wake the client for a valid image,
      say that there is none, ask again after a timeout, nothing for a status that the code does not
      treat, and disconnect after a failure. Only a valid image is queued. */
  lemma RepliesAreFollowedUp(s: State, id: nat, code: Code, reply: Reply)
    requires CurrentRequest(s.c, id)
    ensures var t := Next(s, Complete(Image(id), code, reply));
            && t.c.pump.completed == s.c.pump.completed
               + (if code.Ok? && reply.status.ImageValid? then [reply.(origin := s.c.link.connections)] else [])
            && id !in t.c.pump.inflight
            && t.tails == s.tails + multiset{
                 if code.Ok? && reply.status.ImageValid? && !s.c.shuttingDown then PostWaiting
                 else if code.Ok? && reply.status.ImageNone? && !s.c.shuttingDown then
                   PostUnavailable(s.c.link.connections)
                 else if (code.DeadlineExceeded? || (code.Ok? && reply.status.ImageTimeout?)) && !s.c.shuttingDown then
                   PostNeeded
                 else if !code.Ok? && !code.DeadlineExceeded? then Disconnect(s.c.link.connections)
                 else Leave}
  {
  }

  /** What each later region of a callback does: it posts its event, and a disconnect takes effect only
      if the generation is still the one in which the RPC failed. */
  lemma RegionsTakeEffect(s: State, t: Tail)
    requires t in s.tails
    ensures var u := Next(s, FollowUp(t));
            match t
            case PostWaiting => u.c == s.c && u.qt == s.qt + multiset{ImageWaiting}
            case PostNeeded => u.c == s.c && u.qt == s.qt + multiset{ImageNeeded}
            case PostUnavailable(g) =>
              && u.c == s.c && u.qt == s.qt + multiset{StatsUnavailable(g)}
              && u.tails == s.tails - multiset{t} + multiset{PostRetry}
            case PostRetry => u.c == s.c && u.qt == s.qt + multiset{ScheduleImagePlease}
            case PostConnection => u.c == s.c && (!s.c.shuttingDown ==> u.qt == s.qt + multiset{ConnectionReceived})
            case PostStats => u.c == s.c && (!s.c.shuttingDown ==> u.qt == s.qt + multiset{StatsReceived})
            case ReadGeneration =>
              u.c == s.c && u.tails == s.tails - multiset{t} + multiset{Disconnect(s.c.link.connections)}
            case Disconnect(g) =>
              u.c == s.c.(link := s.c.link.(connected := s.c.link.connected && g != s.c.link.connections))
            case Leave => u.tails == s.tails - multiset{t} && u.qt == s.qt
  {
  }

  /** The callbacks of the other RPCs: those that fail go on to disconnect, the rest are done. */
  lemma OthersAreFollowedUp(s: State, r: Rpc, code: Code, reply: Reply)
    requires r.Unary? || r.FireAndForget?
    ensures Next(s, Complete(r, code, reply)).tails == s.tails + multiset{
              if Fails(r, code) && !(r == Unary(Ping) && s.c.shuttingDown) then ReadGeneration else Leave}
  {
  }

  /** The server's word that there is no image blanks the measurements shown and keeps the modes,
      unless the connection has been renewed since. */
  lemma NoImageBlanks(s: State, generation: nat)
    requires !s.c.shuttingDown
    ensures var t := Next(s, Act(Handle(StatsUnavailable(generation))));
            var shown := t.c.intent.stats;
            if generation == s.c.link.connections then
              && shown.status.NoImage? && shown.count == 0
              && shown.enabled == s.c.intent.stats.enabled && shown.useMask == s.c.intent.stats.useMask
              && t.c == s.c.(intent := s.c.intent.(stats := shown))
            else t.c == s.c
  {
  }

  // ---------------------------------------------------------------- the user's other requests

  /** A request of the user reaches the server exactly if the client is connected and not stopping,
      and the same kind of request is not outstanding already. */
  lemma UserRequestsAreSent(s: State, k: Slot)
    requires Reachable(s)
    ensures Next(s, Act(RequestUnary(k))).wire == s.wire + multiset(
              if s.c.link.connected && !(if k.Ages? || k.Info? then s.c.infoShuttingDown else s.c.shuttingDown)
                 && Unary(k) !in s.wire && Unary(k) !in s.entered
              then {Unary(k)} else {})
  {
    ReachableInv(s);
    assert s.wire[Unary(k)] + s.entered[Unary(k)] == Outstanding(s.c, Unary(k));
  }

  lemma SettersAreSent(s: State, context: nat)
    requires Reachable(s)
    ensures Next(s, Act(RequestEmpty(context))).wire == s.wire + multiset(
              if s.c.link.connected && !s.c.shuttingDown
                 && FireAndForget(context) !in s.wire && FireAndForget(context) !in s.entered
              then {FireAndForget(context)} else {})
  {
    ReachableInv(s);
    var r := FireAndForget(context);
    assert s.wire[r] + s.entered[r] == Outstanding(s.c, r);
  }
}
