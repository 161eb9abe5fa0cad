/** The transition system run on the object: every step of the machine is carried out by the methods of
    the client, and leaves the object in the machine's state. */
module ClientRun {
  import opened Wrappers
  import opened ClientBase
  import opened ClientMachine
  import opened ClientSpec
  import opened ClientTheorems

  method RunEvent(client: RemoteClient, e: Event) returns (rpcs: set<Rpc>, events: multiset<Event>)
    modifies client
    ensures Out(client.Fields(), rpcs, events) == Respond(old(client.Fields()), Handle(e))
  {
    rpcs, events := {}, multiset{};
    match e
    case ImageNeeded => rpcs := client.ImagePlease();
    case RetryTimer => rpcs := client.ImagePlease();
    case ScheduleImagePlease => events := multiset{RetryTimer};
    case ImageWaiting => rpcs, events := client.ImageReceived();
    case ConnectionReceived => rpcs, events := client.ConnectionReceived();
    case StatsReceived => rpcs := client.GlobalStatsReceived();
    case StatsUnavailable(generation) => client.GlobalStatsUnavailable(generation);
  }

  method RunHandler(client: RemoteClient, a: Action) returns (rpcs: set<Rpc>, events: multiset<Event>)
    modifies client
    ensures Out(client.Fields(), rpcs, events) == Respond(old(client.Fields()), a)
  {
    rpcs, events := {}, multiset{};
    match a
    case Timer => rpcs := client.Reconnect();
    case RequestUnary(k) => rpcs := client.DispatchUnaryAsync(k);
    case RequestEmpty(context) => rpcs := client.DispatchEmptyRpc(context);
    case RequestWindow(w) => events := client.ImageRequestWindow(w);
    case RequestStats(enabled, useMask) => rpcs := client.RequestGlobalStats(enabled, useMask);
    case Handle(e) => rpcs, events := RunEvent(client, e);
  }

  method RunCallback(client: RemoteClient, r: Rpc, code: Code, reply: Reply) returns (tail: Tail)
    modifies client
    ensures Done(client.Fields(), tail) == Completion(old(client.Fields()), r, code, reply)
  {
    match r
    case Connect => client.ConnectionRequestCallback(code); tail := PostConnection;
    case Image(id) => tail := client.ImagePleaseCallback(id, code, reply);
    case SetStats => client.GlobalStatsCallback(code); tail := PostStats;
    case Unary(k) => tail := client.UnaryCallback(k, code);
    case FireAndForget(context) => tail := client.EmptyRpcCallback(context, code);
  }

  method RunRegion(client: RemoteClient, tail: Tail)
    modifies client
    ensures client.Fields() == AfterTail(old(client.Fields()), tail)
  {
    match tail
    case Disconnect(generation) => client.ReportServerDisconnected(generation);
    case Leave => client.EndGrpcCallbackActivity();
    case _ =>
  }

  method RunTearDown(client: RemoteClient, s: State)
    requires client.Fields() == s.c
    modifies client
    ensures client.Fields() == NextStage(s).c
  {
    match s.teardown
    case Running => client.shuttingDown := true;
    case FlagRaised => client.infoShuttingDown := true;
    case InfoFlagRaised => client.link := client.link.(pending := None);
    case _ =>
  }

  /** Whatever step is possible next, carrying it out on the object leaves the object in the machine's
      next state; what the object hands out is what the machine adds to the wire, to the queue and to
      the callbacks; and the next state is reachable, so that the invariant holds of it. */
  method TakeStep(client: RemoteClient, s: State, step: Step)
    returns (rpcs: set<Rpc>, events: multiset<Event>, tails: multiset<Tail>)
    requires Reachable(s) && client.Fields() == s.c && Enabled(s, step)
    modifies client
    ensures client.Fields() == Next(s, step).c
    ensures step.Act? ==>
              && Next(s, step).wire == s.wire + multiset(rpcs)
              && Next(s, step).qt == Taken(s.qt, step.action) + events
    ensures step.Complete? ==> Next(s, step).tails == s.tails + tails
    ensures Reachable(Next(s, step)) && Inv(Next(s, step))
  {
    hide Reachable, Respond, Completion, AfterTail, NextStage, Record, Inv;
    ReachableNext(s, step);
    ReachableInv(Next(s, step));
    rpcs, events, tails := {}, multiset{}, multiset{};
    match step
    case Act(a) => rpcs, events := RunHandler(client, a);
    case Enter(r) => client.BeginGrpcCallbackActivity();
    case Complete(r, code, reply) =>
      var tail := RunCallback(client, r, code, reply);
      tails := multiset{tail};
    case FollowUp(tail) => RunRegion(client, tail);
    case TearDown => RunTearDown(client, s);
  }

  lemma ReachableNext(s: State, step: Step)
    requires Reachable(s) && Enabled(s, step)
    ensures Reachable(Next(s, step))
  {
    hide Next, Enabled, Init;
    var states, steps :| IsRun(states, steps) && states[|states| - 1] == s;
    var t := Next(s, step);
    var states', steps' := states + [t], steps + [step];
    forall i | 0 <= i < |steps'|
      ensures Leads(states'[i], steps'[i], states'[i + 1])
    {
      if i < |steps| {
        assert Leads(states[i], steps[i], states[i + 1]);
      }
    }
    assert IsRun(states', steps') && states'[|states'| - 1] == t;
  }
}
