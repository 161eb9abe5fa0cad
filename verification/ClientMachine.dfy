/** The remote client running against an arbitrary network.

    A state joins the client's fields with the RPCs on the wire, the callbacks in progress and the
    Qt queue. Qt handlers, the lock-protected region of each callback, each later lock region of a
    callback, and each stage of the destructor are separate steps, interleaved in any order; the
    network completes any outstanding RPC at any time with any result. */
module ClientMachine {
  import opened Wrappers
  import opened GlobalStats
  import opened ClientSpec

  /** How far the destructor has come. */
  datatype Teardown =
    | Running
    | FlagRaised
    | InfoFlagRaised
    | ConnectionDrained
    | ImagesDrained
    | InfoDrained
    | UnaryDrained
    | Gone

  function Rank(t: Teardown): nat {
    match t
    case Running => 0
    case FlagRaised => 1
    case InfoFlagRaised => 2
    case ConnectionDrained => 3
    case ImagesDrained => 4
    case InfoDrained => 5
    case UnaryDrained => 6
    case Gone => 7
  }

  /** A handshake completion consumed on the Qt thread. */
  datatype Reached = Reached(phase: Phase, image: nat, code: Code)

  datatype Applied = Applied(generation: nat, serial: nat, origin: nat)

  datatype Send = Send(generation: nat, enabled: bool, useMask: bool)

  /** What has happened so far; no step reads it.
      - live: the handshake of the current generation has finished
      - silenced: a reply of the current generation had a status with no follow-up
      - validSeen: a valid image reply of the current generation has arrived
      - top: the largest serial delivered since the handshake finished
      - trail: handshake completions consumed in the current generation
      - applied: image replies applied, oldest first
      - sends: global-statistics requests sent, oldest first */
  datatype History = History(live: bool,
                             silenced: bool,
                             validSeen: bool,
                             top: nat,
                             trail: seq<Reached>,
                             applied: seq<Applied>,
                             sends: seq<Send>)

  datatype State = State(c: Client,
                         wire: multiset<Rpc>,
                         entered: multiset<Rpc>,
                         tails: multiset<Tail>,
                         qt: multiset<Event>,
                         h: History,
                         teardown: Teardown)

  /** One handler run on the Qt thread, started by the timer, the user or a queued event. */
  datatype Action =
    | Timer
    | RequestUnary(slot: Slot)
    | RequestEmpty(context: nat)
    | RequestWindow(window: int)
    | RequestStats(enabled: bool, useMask: bool)
    | Handle(event: Event)

  datatype Step =
    | Act(action: Action)
    | Enter(rpc: Rpc)
    | Complete(done: Rpc, code: Code, reply: Reply)
    | FollowUp(tail: Tail)
    | TearDown

  /** The stage the destructor waits for before it moves on. */
  predicate MayTearDown(s: State) {
    match s.teardown
    case Running => true
    case FlagRaised => true
    case InfoFlagRaised => !s.c.link.rpcPending
    case ConnectionDrained => s.c.pump.inflight == map[]
    case ImagesDrained => forall k | k in s.c.groups.slots :: !InfoSlot(k)
    case InfoDrained =>
      && (forall k | k in s.c.groups.slots :: InfoSlot(k))
      && !s.c.intent.rpcPending && s.c.groups.emptyPending == 0
    case UnaryDrained => s.c.activity == 0
    case Gone => false
  }

  predicate Enabled(s: State, step: Step) {
    match step
    case Act(a) => a.Handle? ==> a.event in s.qt
    case Enter(r) => r in s.wire
    case Complete(r, _, _) => r in s.entered
    case FollowUp(t) => t in s.tails
    case TearDown => MayTearDown(s)
  }

  // ---------------------------------------------------------------- effects of single steps

  function WithOut(s: State, o: Out): State {
    s.(c := o.client, wire := s.wire + multiset(o.rpcs), qt := s.qt + o.events)
  }

  function Respond(c: Client, a: Action): Out {
    match a
    case Timer => Reconnect(c)
    case RequestUnary(k) => DispatchUnary(c, k)
    case RequestEmpty(context) => DispatchEmpty(c, context)
    case RequestWindow(w) => SetWindow(c, w)
    case RequestStats(enabled, useMask) => UserStats(c, enabled, useMask)
    case Handle(e) =>
      match e
      case ImageNeeded => ImagePlease(c)
      case RetryTimer => ImagePlease(c)
      case ScheduleImagePlease => Out(c, {}, multiset{RetryTimer})
      case ImageWaiting => ImageReceived(c)
      case ConnectionReceived => OnConnectionReceived(c)
      case StatsReceived => OnStatsReceived(c)
      case StatsUnavailable(generation) => Quiet(OnStatsUnavailable(c, generation))
  }

  /** The queue once the event that starts `a` has been taken from it. */
  function Taken(qt: multiset<Event>, a: Action): multiset<Event> {
    if a.Handle? then qt - multiset{a.event} else qt
  }

  /** The lock-protected region of a callback, and what it leaves for later. */
  function Completion(c: Client, r: Rpc, code: Code, reply: Reply): Done {
    match r
    case Connect => Done(ConnectionDone(c, code), PostConnection)
    case Image(id) => ImageDone(c, id, code, reply)
    case SetStats => Done(StatsDone(c, code), PostStats)
    case Unary(k) => UnaryDone(c, k, code)
    case FireAndForget(context) => EmptyDone(c, context, code)
  }

  /** One more lock region or emission of a callback: what it does to the client. */
  function AfterTail(c: Client, t: Tail): Client {
    match t
    case Disconnect(generation) => DisconnectIf(c, generation)
    case Leave => EndActivity(c)
    case _ => c
  }

  /** The event it posts, if any. */
  function Posted(c: Client, t: Tail): multiset<Event> {
    match t
    case PostWaiting => multiset{ImageWaiting}
    case PostNeeded => multiset{ImageNeeded}
    case PostUnavailable(generation) => multiset{StatsUnavailable(generation)}
    case PostRetry => multiset{ScheduleImagePlease}
    case PostConnection => if c.shuttingDown then multiset{} else multiset{ConnectionReceived}
    case PostStats => if c.shuttingDown then multiset{} else multiset{StatsReceived}
    case _ => multiset{}
  }

  /** What the callback does next; nothing once the activity guard has been released. */
  function Rest(c: Client, t: Tail): multiset<Tail> {
    match t
    case PostUnavailable(_) => multiset{PostRetry}
    case ReadGeneration => multiset{Disconnect(c.link.connections)}
    case Leave => multiset{}
    case _ => multiset{Leave}
  }

  function NextStage(s: State): State {
    match s.teardown
    case Running => s.(teardown := FlagRaised, c := s.c.(shuttingDown := true))
    case FlagRaised => s.(teardown := InfoFlagRaised, c := s.c.(infoShuttingDown := true))
    case InfoFlagRaised =>
      s.(teardown := ConnectionDrained, c := s.c.(link := s.c.link.(pending := None)))
    case ConnectionDrained => s.(teardown := ImagesDrained)
    case ImagesDrained => s.(teardown := InfoDrained)
    case InfoDrained => s.(teardown := UnaryDrained)
    case _ => s.(teardown := Gone)
  }

  function Effect(s: State, step: Step): State {
    match step
    case Act(a) => WithOut(s.(qt := Taken(s.qt, a)), Respond(s.c, a))
    case Enter(r) =>
      s.(c := BeginActivity(s.c), wire := s.wire - multiset{r}, entered := s.entered + multiset{r})
    case Complete(r, code, reply) =>
      var d := Completion(s.c, r, code, reply);
      s.(c := d.client, entered := s.entered - multiset{r}, tails := s.tails + multiset{d.tail})
    case FollowUp(t) =>
      s.(c := AfterTail(s.c, t), tails := s.tails - multiset{t} + Rest(s.c, t), qt := s.qt + Posted(s.c, t))
    case TearDown => NextStage(s)
  }

  // ---------------------------------------------------------------- history

  /** The history entries that depend on the connection generation start over with it. */
  function NewGeneration(h: History): History {
    h.(live := false, silenced := false, validSeen := false, top := 0, trail := [])
  }

  /** The completion answers a request of the current generation, successfully. */
  predicate CurrentReply(c: Client, done: Rpc, code: Code) {
    done.Image? && code.Ok? && done.id in c.pump.inflight && c.pump.inflight[done.id] == c.link.connections
  }

  function RecordReply(h: History, reply: Reply): History {
    if reply.status.ImageValid? then h.(validSeen := true, top := Max(h.top, reply.serial))
    else if Silent(reply.status) then h.(silenced := true)
    else h
  }

  /** The handshake finishes: the last completion of a probe or of the fourth image name. */
  predicate Finishes(c: Client) {
    && ConnectionReady(c)
    && c.link.pending.value.generation == c.link.connections
    && match c.link.pending.value.phase
       case Probe => c.link.pending.value.code.Ok?
       case Configure => false
       case ImageName => c.link.pending.value.image >= 3
  }

  function RecordConnection(h: History, c: Client, d: Client): History {
    if d.link.connections != c.link.connections then NewGeneration(h)
    else if !ConnectionReady(c) then h
    else
      var r := c.link.pending.value;
      var trail := h.trail + [Reached(r.phase, r.image, r.code)];
      if Finishes(c) then h.(live := true, top := 0, trail := trail) else h.(trail := trail)
  }

  function RecordImage(h: History, c: Client): History {
    if !Applies(c) then h
    else
      var r := Newest(c.pump.completed);
      h.(applied := h.applied + [Applied(c.link.connections, r.serial, r.origin)])
  }

  function RecordSend(h: History, o: Out): History {
    if SetStats !in o.rpcs then h
    else
      var g := o.client.intent;
      h.(sends := h.sends + [Send(o.client.link.connections, g.lastSent, g.lastMaskSent)])
  }

  function Record(s: State, step: Step): History {
    match step
    case Act(a) => (
      var o := Respond(s.c, a);
      match a
      case Timer => if o.client.link.connections != s.c.link.connections then NewGeneration(s.h) else s.h
      case RequestStats(_, _) => RecordSend(s.h, o)
      case Handle(ConnectionReceived) => RecordConnection(s.h, s.c, o.client)
      case Handle(ImageWaiting) => RecordSend(RecordImage(s.h, s.c), o)
      case Handle(StatsReceived) => RecordSend(s.h, o)
      case _ => s.h
      )
    case Complete(r, code, reply) => if CurrentReply(s.c, r, code) then RecordReply(s.h, reply) else s.h
    case _ => s.h
  }

  function Next(s: State, step: Step): State {
    Effect(s, step).(h := Record(s, step))
  }

  // ---------------------------------------------------------------- runs

  /** A client that has loaded its configuration and not started its timer yet. */
  predicate Init(s: State) {
    && s.c.link == Link(0, false, None, false)
    && MIN_WINDOW <= s.c.pump.target <= MAX_WINDOW
    && s.c.pump == Pump(s.c.pump.target, false, 1, map[], [], 0)
    && s.c.intent == Intent(BLANK, false, false, s.c.intent.haveIntent, s.c.intent.desired,
                            s.c.intent.haveMaskIntent, s.c.intent.maskDesired, false, false, false, None, false)
    && s.c.groups == Groups({}, {}, 0)
    && !s.c.shuttingDown && !s.c.infoShuttingDown && s.c.activity == 0
    && s.wire == multiset{} && s.entered == multiset{} && s.tails == multiset{} && s.qt == multiset{}
    && s.h == History(false, false, false, 0, [], [], [])
    && s.teardown == Running
  }

  predicate Leads(s: State, step: Step, t: State) {
    Enabled(s, step) && t == Next(s, step)
  }

  predicate IsRun(states: seq<State>, steps: seq<Step>) {
    && |states| == |steps| + 1
    && Init(states[0])
    && forall i | 0 <= i < |steps| :: Leads(states[i], steps[i], states[i + 1])
  }

  ghost predicate Reachable(s: State) {
    exists states: seq<State>, steps: seq<Step> :: IsRun(states, steps) && states[|states| - 1] == s
  }
}
