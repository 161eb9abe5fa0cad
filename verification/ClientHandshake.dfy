/** The connection handshake: one request at a time, always of the current generation, consumed
    exactly once, and the only way to become connected. */
module ClientHandshake {
  import opened Wrappers
  import opened ClientSpec
  import opened ClientMachine
  import opened ClientTransport
  import opened ClientShutdown

  /** A successful configuration followed by image-name completions 0, 1, ..., n-1. */
  ghost predicate NamesAfterConfigure(trail: seq<Reached>, n: nat) {
    && |trail| == n + 1
    && trail[0] == Reached(Configure, 0, Ok)
    && forall i | 1 <= i <= n :: trail[i].phase == ImageName && trail[i].image == i - 1
  }

  /** The two ways to complete a handshake. */
  ghost predicate CompleteTrail(trail: seq<Reached>) {
    trail == [Reached(Probe, 0, Ok)] || NamesAfterConfigure(trail, 4)
  }

  /** A pending request continues the handshake recorded in the trail. */
  ghost predicate Continues(r: ConnectionRequest, trail: seq<Reached>) {
    match r.phase
    case Probe => r.image == 0 && trail == []
    case Configure => r.image == 0 && trail == []
    case ImageName => r.image <= 3 && NamesAfterConfigure(trail, r.image)
  }

  ghost predicate InHandshake(s: State) {
    var link := s.c.link;
    && (link.connected ==> s.h.live)
    && (s.h.live ==> CompleteTrail(s.h.trail) && link.pending.None?)
    && (link.pending.Some? ==>
          && link.pending.value.generation == link.connections
          && !link.connected && !s.h.live
          && Continues(link.pending.value, s.h.trail))
  }

  /** A finished request has exactly one notification on its way. */
  predicate NotifiedOnce(s: State) {
    s.c.shuttingDown
    || s.qt[ConnectionReceived] + s.tails[PostConnection]
       == if s.c.link.pending.Some? && !s.c.link.rpcPending then 1 else 0
  }

  // ---------------------------------------------------------------- effects on the link

  /** Handlers other than the two that drive the handshake leave the link's request alone, and can
      only drop the connection. */
  lemma OtherActionsKeepLink(c: Client, a: Action)
    requires a != Timer && a != Handle(ConnectionReceived)
    ensures var d := Respond(c, a).client;
            && d.link.connections == c.link.connections && d.link.pending == c.link.pending
            && d.link.rpcPending == c.link.rpcPending && (d.link.connected ==> c.link.connected)
    ensures Respond(c, a).events[ConnectionReceived] == 0
  {
  }

  lemma ReconnectLink(s: State)
    requires InHandshake(s) && NotifiedOnce(s)
    ensures InHandshake(Next(s, Act(Timer))) && NotifiedOnce(Next(s, Act(Timer)))
  {
  }

  /** The link after a handshake completion of the current generation. */
  lemma ReceivedLinkOnly(c: Client)
    requires ConnectionReady(c) && c.link.pending.value.generation == c.link.connections
    ensures var r := c.link.pending.value;
            var idle := c.link.(pending := None);
            var next := (phase: Phase, image: nat) =>
              idle.(pending := Some(ConnectionRequest(phase, image, c.link.connections, Ok)), rpcPending := true);
            var o := OnConnectionReceived(c);
            o.events[ConnectionReceived] == 0 && o.client.shuttingDown == c.shuttingDown &&
            o.client.link ==
            match r.phase
            case Probe =>
              if r.code.Ok? then idle.(connected := true)
              else if r.code.FailedPrecondition? then
                idle.(connections := c.link.connections + 1, connected := false, rpcPending := true,
                      pending := Some(ConnectionRequest(Configure, 0, c.link.connections + 1, Ok)))
              else idle
            case Configure => if r.code.Ok? then next(ImageName, 0) else idle.(connected := false)
            case ImageName => if r.image < 3 then next(ImageName, r.image + 1) else idle.(connected := true)
  {
  }

  lemma ReceivedHandshake(s: State)
    requires InHandshake(s) && NotifiedOnce(s) && ConnectionReceived in s.qt && ConnectionReady(s.c)
    ensures InHandshake(Next(s, Act(Handle(ConnectionReceived))))
    ensures NotifiedOnce(Next(s, Act(Handle(ConnectionReceived))))
  {
    ReceivedLinkOnly(s.c);
  }

  lemma EnterHandshake(s: State, r: Rpc)
    requires InHandshake(s) && NotifiedOnce(s)
    ensures InHandshake(Next(s, Enter(r))) && NotifiedOnce(Next(s, Enter(r)))
  {
    hide Respond, Completion, NextStage, Posted, Rest;
  }

  lemma TearDownHandshake(s: State)
    requires Drained(s) && InHandshake(s) && NotifiedOnce(s)
    ensures InHandshake(Next(s, TearDown)) && NotifiedOnce(Next(s, TearDown))
  {
    hide Respond, Completion, Posted, Rest;
  }

  lemma HandshakeNext(s: State, step: Step)
    requires Sound(s.c) && Accounted(s) && Drained(s) && InHandshake(s) && NotifiedOnce(s) && Enabled(s, step)
    ensures InHandshake(Next(s, step)) && NotifiedOnce(Next(s, step))
  {
    match step
    case Act(a) =>
      if a == Timer {
        ReconnectLink(s);
      } else if a == Handle(ConnectionReceived) {
        if ConnectionReady(s.c) {
          ReceivedHandshake(s);
        }
      } else {
        OtherActionHandshake(s, a);
      }
    case Enter(r) => EnterHandshake(s, r);
    case Complete(r, code, reply) => CompleteHandshake(s, r, code, reply);
    case FollowUp(t) => FollowUpHandshake(s, t);
    case TearDown => TearDownHandshake(s);
  }

  lemma OtherActionHandshake(s: State, a: Action)
    requires InHandshake(s) && NotifiedOnce(s) && a != Timer && a != Handle(ConnectionReceived)
    ensures InHandshake(Next(s, Act(a))) && NotifiedOnce(Next(s, Act(a)))
  {
    hide Completion, NextStage, Posted, Rest, Respond;
    OtherActionsKeepLink(s.c, a);
    ActionFrame(s.c, a);
  }

  lemma OtherCompletionKeepsLink(c: Client, r: Rpc, code: Code, reply: Reply)
    requires r != Connect
    ensures var d := Completion(c, r, code, reply);
            d.client.link == c.link && d.client.shuttingDown == c.shuttingDown && d.tail != PostConnection
  {
  }

  lemma ConnectCompletes(s: State, code: Code, reply: Reply)
    requires Sound(s.c) && Accounted(s) && InHandshake(s) && NotifiedOnce(s) && Connect in s.entered
    ensures InHandshake(Next(s, Complete(Connect, code, reply)))
    ensures NotifiedOnce(Next(s, Complete(Connect, code, reply)))
  {
    hide Respond, NextStage, Posted, Rest;
    assert s.wire[Connect] + s.entered[Connect] == Outstanding(s.c, Connect);
  }

  lemma CompleteHandshake(s: State, r: Rpc, code: Code, reply: Reply)
    requires Sound(s.c) && Accounted(s) && InHandshake(s) && NotifiedOnce(s) && r in s.entered
    ensures InHandshake(Next(s, Complete(r, code, reply))) && NotifiedOnce(Next(s, Complete(r, code, reply)))
  {
    hide Respond, Completion, NextStage, Posted, Rest;
    if r == Connect {
      ConnectCompletes(s, code, reply);
    } else {
      OtherCompletionKeepsLink(s.c, r, code, reply);
    }
  }

  lemma FollowUpNotifies(s: State, t: Tail)
    requires t in s.tails && NotifiedOnce(s)
    ensures NotifiedOnce(Next(s, FollowUp(t)))
  {
    hide Respond, Completion, NextStage, Posted, Rest;
    Leftovers(s.c, t);
    Replaced(s.tails, t, Rest(s.c, t), PostConnection);
  }

  lemma FollowUpHandshake(s: State, t: Tail)
    requires InHandshake(s) && NotifiedOnce(s) && t in s.tails
    ensures InHandshake(Next(s, FollowUp(t))) && NotifiedOnce(Next(s, FollowUp(t)))
  {
    hide Respond, Completion, NextStage, Posted, Rest, NotifiedOnce;
    FollowUpNotifies(s, t);
  }
}
