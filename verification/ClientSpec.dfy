/** What each lock-protected region of the remote client does to the client's fields.

    Every function maps the fields before the region to the fields after it, the RPCs it hands to
    the transport and the Qt events it posts. `ClientBase` runs the same regions statement by
    statement and is proved to agree with these functions. */
module ClientSpec {
  import opened Wrappers
  import opened GlobalStats

  const MIN_WINDOW: nat := 1
  const MAX_WINDOW: nat := 128

  datatype Code = Ok | FailedPrecondition | DeadlineExceeded | Unimplemented | OtherFailure

  datatype Phase = Probe | Configure | ImageName

  datatype ImageStatus = ImageValid | ImageNone | ImageTimeout | ImageNotConfigured | ImageError | ImageUnknown

  /** A reply to an image request; `origin` records the generation that requested it. */
  datatype Reply = Reply(status: ImageStatus, serial: nat, stats: Option<WireStats>, origin: nat)

  datatype ConnectionRequest = ConnectionRequest(phase: Phase, image: nat, generation: nat, code: Code)

  datatype StatsRequest = StatsRequest(enabled: bool, useMask: bool, generation: nat, code: Code)

  /** The unary RPCs that own one pending flag each. */
  datatype Slot =
    | Ages
    | Info(image: nat)
    | Ping
    | GetPixel
    | ColorBox
    | StatsBox
    | SetColorstretch
    | SetMinScale
    | SetMaxScale

  predicate InfoSlot(k: Slot) {
    k.Ages? || k.Info?
  }

  datatype Rpc =
    | Connect
    | Image(id: nat)
    | SetStats
    | Unary(slot: Slot)
    | FireAndForget(context: nat)

  /** Events waiting in the Qt queue, including the timer of a delayed image retry. */
  datatype Event =
    | ImageNeeded
    | ImageWaiting
    | ScheduleImagePlease
    | RetryTimer
    | ConnectionReceived
    | StatsReceived
    | StatsUnavailable(generation: nat)

  /** What a callback still has to do after it has released the lock under which it cleared its
      pending entry. */
  datatype Tail =
    | PostWaiting
    | PostNeeded
    | PostUnavailable(generation: nat)
    | PostRetry
    | PostConnection
    | PostStats
    | ReadGeneration
    | Disconnect(generation: nat)
    | Leave

  datatype Link = Link(connections: nat,
                       connected: bool,
                       pending: Option<ConnectionRequest>,
                       rpcPending: bool)

  datatype Pump = Pump(target: nat,
                       primed: bool,
                       nextId: nat,
                       inflight: map<nat, nat>,
                       completed: seq<Reply>,
                       lastApplied: nat)

  datatype Intent = Intent(stats: Stats,
                           supported: bool,
                           rpcUnsupported: bool,
                           haveIntent: bool,
                           desired: bool,
                           haveMaskIntent: bool,
                           maskDesired: bool,
                           sent: bool,
                           lastSent: bool,
                           lastMaskSent: bool,
                           pending: Option<StatsRequest>,
                           rpcPending: bool)

  datatype Groups = Groups(slots: set<Slot>, contexts: set<nat>, emptyPending: nat)

  datatype Client = Client(link: Link,
                           pump: Pump,
                           intent: Intent,
                           groups: Groups,
                           shuttingDown: bool,
                           infoShuttingDown: bool,
                           activity: nat)

  datatype Out = Out(client: Client, rpcs: set<Rpc>, events: multiset<Event>)

  /** The fields after a callback's lock region, and what the callback still has to do. */
  datatype Done = Done(client: Client, tail: Tail)

  function Quiet(c: Client): Out {
    Out(c, {}, multiset{})
  }

  // ---------------------------------------------------------------- connection handshake

  predicate MayConnect(c: Client) {
    !c.shuttingDown && c.link.pending.None?
  }

  /** dispatchConnectionRequest: probing and configuring open a new generation. */
  function DispatchConnection(c: Client, phase: Phase, image: nat): Out {
    if !MayConnect(c) then Quiet(c)
    else
      var bumped :=
        if phase.ImageName? then c
        else c.(link := c.link.(connections := c.link.connections + 1, connected := false),
                pump := c.pump.(completed := [], primed := false));
      var request := ConnectionRequest(phase, image, bumped.link.connections, Ok);
      Out(bumped.(link := bumped.link.(pending := Some(request), rpcPending := true)), {Connect}, multiset{})
  }

  /** connectionRequest_callback, under the request mutex. */
  function ConnectionDone(c: Client, code: Code): Client {
    c.(link := c.link.(pending := if c.link.pending.Some? then Some(c.link.pending.value.(code := code)) else None,
                       rpcPending := false))
  }

  function FinishConnection(c: Client): Out {
    if c.shuttingDown then Quiet(c)
    else
      Out(c.(link := c.link.(connected := true),
             pump := c.pump.(completed := [], lastApplied := 0, primed := false),
             intent := c.intent.(stats := BLANK, supported := false, rpcUnsupported := false, sent := false)),
          {}, multiset{ImageNeeded})
  }

  predicate ConnectionReady(c: Client) {
    !c.shuttingDown && !c.link.rpcPending && c.link.pending.Some?
  }

  function OnConnectionReceived(c: Client): Out {
    if !ConnectionReady(c) then Quiet(c)
    else
      var r := c.link.pending.value;
      var taken := c.(link := c.link.(pending := None));
      if r.generation != c.link.connections then Quiet(taken)
      else match r.phase
        case Probe =>
          if r.code.Ok? then FinishConnection(taken)
          else if r.code.FailedPrecondition? then DispatchConnection(taken, Configure, 0)
          else Quiet(taken)
        case Configure =>
          if r.code.Ok? then DispatchConnection(taken, ImageName, 0)
          else Quiet(taken.(link := taken.link.(connected := false)))
        case ImageName =>
          if r.image < 3 then DispatchConnection(taken, ImageName, r.image + 1)
          else FinishConnection(taken)
  }

  /** The connection timer: ping when connected, probe otherwise. */
  function Reconnect(c: Client): Out {
    if c.shuttingDown then Quiet(c)
    else if c.link.connected then DispatchUnary(c, Ping)
    else DispatchConnection(c, Probe, 0)
  }

  // ---------------------------------------------------------------- image pump

  /** In-flight image requests of one connection generation. */
  function OfGeneration(inflight: map<nat, nat>, generation: nat): set<nat> {
    set id | id in inflight && inflight[id] == generation
  }

  function ActiveWindow(p: Pump): nat {
    if p.primed then p.target else 1
  }

  function Max(a: nat, b: nat): nat {
    if a >= b then a else b
  }

  /** Requests that `ImagePlease` adds to fill the active window. */
  function Credits(c: Client): nat {
    Max(|OfGeneration(c.pump.inflight, c.link.connections)|, ActiveWindow(c.pump))
    - |OfGeneration(c.pump.inflight, c.link.connections)|
  }

  predicate FreshId(id: nat, first: nat, count: nat) {
    first <= id < first + count
  }

  function FreshIds(first: nat, count: nat): set<nat> {
    set id | first <= id < first + count && FreshId(id, first, count)
  }

  function Tagged(ids: set<nat>, generation: nat): map<nat, nat> {
    map id | id in ids :: generation
  }

  function ImageRpcs(ids: set<nat>): set<Rpc> {
    set id | id in ids :: Image(id)
  }

  /** The pump with `count` more requests of `generation` in flight. */
  function WithRequests(p: Pump, generation: nat, count: nat): Pump {
    p.(nextId := p.nextId + count, inflight := p.inflight + Tagged(FreshIds(p.nextId, count), generation))
  }

  function Registered(p: Pump, generation: nat): Pump {
    p.(nextId := p.nextId + 1, inflight := p.inflight[p.nextId := generation])
  }

  function ImagePlease(c: Client): Out {
    if !c.link.connected || c.shuttingDown then Quiet(c)
    else Out(c.(pump := WithRequests(c.pump, c.link.connections, Credits(c))),
             ImageRpcs(FreshIds(c.pump.nextId, Credits(c))), multiset{})
  }

  predicate Silent(status: ImageStatus) {
    status.ImageNotConfigured? || status.ImageError? || status.ImageUnknown?
  }

  function Unless(stopping: bool, t: Tail): Tail {
    if stopping then Leave else t
  }

  /** ImagePlease_callback up to the release of the image mutex. */
  function ImageDone(c: Client, id: nat, code: Code, reply: Reply): Done {
    if id !in c.pump.inflight then Done(c, Leave)
    else
      var generation := c.pump.inflight[id];
      var p := c.pump.(inflight := c.pump.inflight - {id});
      if generation != c.link.connections then Done(c.(pump := p), Leave)
      else match code
        case Ok => (
          match reply.status
          case ImageValid =>
            Done(c.(pump := p.(primed := true, completed := p.completed + [reply.(origin := generation)])),
             Unless(c.shuttingDown, PostWaiting))
          case ImageNone =>
            Done(c.(pump := p.(primed := false)), Unless(c.shuttingDown, PostUnavailable(c.link.connections)))
          case ImageTimeout => Done(c.(pump := p), Unless(c.shuttingDown, PostNeeded))
          case _ => Done(c.(pump := p), Leave)
          )
        case DeadlineExceeded => Done(c.(pump := p), Unless(c.shuttingDown, PostNeeded))
        case _ => Done(c.(pump := p), Disconnect(c.link.connections))
  }

  /** The reply chosen by the scan in `ImageReceived`: on equal serials the later one wins. */
  function Newest(replies: seq<Reply>): Reply
    requires replies != []
  {
    var last := replies[|replies| - 1];
    if |replies| == 1 then last
    else
      var best := Newest(replies[..|replies| - 1]);
      if last.serial >= best.serial then last else best
  }

  predicate Applies(c: Client) {
    !c.shuttingDown && c.pump.completed != [] && Newest(c.pump.completed).serial > c.pump.lastApplied
  }

  function ImageReceived(c: Client): Out {
    if c.shuttingDown || c.pump.completed == [] then Quiet(c)
    else
      var newest := Newest(c.pump.completed);
      var drained := c.(pump := c.pump.(completed := []));
      if newest.serial > c.pump.lastApplied then
        var o := ReceiveStats(drained.(pump := drained.pump.(lastApplied := newest.serial)), newest.stats);
        Out(o.client, o.rpcs, o.events + multiset{ImageNeeded})
      else Out(drained, {}, multiset{ImageNeeded})
  }

  function Clamp(window: int): nat {
    if window < MIN_WINDOW then MIN_WINDOW else if window > MAX_WINDOW then MAX_WINDOW else window
  }

  function SetWindow(c: Client, window: int): Out {
    var w := Clamp(window);
    Out(c.(pump := c.pump.(target := w)), {},
        if !c.shuttingDown && w > c.pump.target then multiset{ImageNeeded} else multiset{})
  }

  // ---------------------------------------------------------------- global-statistics intent

  predicate HaveAnyIntent(g: Intent) {
    g.haveIntent || g.haveMaskIntent
  }

  function EffectiveEnabled(g: Intent): bool {
    if g.haveIntent then g.desired else g.stats.enabled
  }

  function EffectiveMask(g: Intent): bool {
    if g.haveMaskIntent then g.maskDesired else g.stats.useMask
  }

  /** The effective intent is what the last request of this generation asked for. */
  predicate AlreadySent(g: Intent) {
    g.sent && g.lastSent == EffectiveEnabled(g) && g.lastMaskSent == EffectiveMask(g)
  }

  predicate MaySendStats(c: Client) {
    && !c.shuttingDown && c.link.connected && c.intent.supported
    && HaveAnyIntent(c.intent) && c.intent.pending.None? && !AlreadySent(c.intent)
  }

  function DispatchStats(c: Client): Out {
    if !MaySendStats(c) then Quiet(c)
    else
      var g := c.intent;
      var request := StatsRequest(EffectiveEnabled(g), EffectiveMask(g), c.link.connections, Ok);
      Out(c.(intent := g.(pending := Some(request), rpcPending := true, sent := true,
                          lastSent := request.enabled, lastMaskSent := request.useMask)),
          {SetStats}, multiset{})
  }

  function UserStats(c: Client, enabled: bool, useMask: bool): Out {
    DispatchStats(c.(intent := c.intent.(haveIntent := true, desired := enabled,
                                         haveMaskIntent := true, maskDesired := useMask)))
  }

  /** globalStats_callback, under the RPC mutex. */
  function StatsDone(c: Client, code: Code): Client {
    c.(intent := c.intent.(pending := if c.intent.pending.Some? then Some(c.intent.pending.value.(code := code))
                                      else None,
                           rpcPending := false))
  }

  /** The server does not know the request. */
  function Refused(g: Intent): Intent {
    g.(stats := BLANK.(status := Unsupported), supported := false, rpcUnsupported := true)
  }

  /** The request failed otherwise: the measurements are gone, and nothing counts as sent. */
  function Withdrawn(g: Intent): Intent {
    g.(stats := BLANK.(status := NoImage), sent := false)
  }

  function ApplyStatsResult(c: Client, r: StatsRequest): Client {
    if r.generation != c.link.connections || r.code.Ok? then c
    else if r.code.Unimplemented? then c.(intent := Refused(c.intent))
    else c.(link := c.link.(connected := false), intent := Withdrawn(c.intent))
  }

  predicate StatsReady(c: Client) {
    !c.shuttingDown && !c.intent.rpcPending && c.intent.pending.Some?
  }

  function OnStatsReceived(c: Client): Out {
    if !StatsReady(c) then Quiet(c)
    else DispatchStats(ApplyStatsResult(c.(intent := c.intent.(pending := None)), c.intent.pending.value))
  }

  function OnStatsUnavailable(c: Client, generation: nat): Client {
    if c.shuttingDown || generation != c.link.connections then c
    else c.(intent := c.intent.(stats := Cleared(c.intent.stats.enabled, c.intent.stats.useMask, NoImage)))
  }

  /** The client with the statistics of an applied reply in place. */
  function WithStats(c: Client, wire: Option<WireStats>): Client {
    c.(intent := c.intent.(supported := wire.Some? && !c.intent.rpcUnsupported,
                           stats := if c.intent.rpcUnsupported then BLANK.(status := Unsupported) else Received(wire)))
  }

  function ReceiveStats(c: Client, wire: Option<WireStats>): Out {
    DispatchStats(WithStats(c, wire))
  }

  /** What the client shows: no measurements while it is not connected. */
  function ShownStats(c: Client): Stats {
    if c.link.connected then c.intent.stats
    else Cleared(c.intent.stats.enabled, c.intent.stats.useMask, NoImage)
  }

  // ---------------------------------------------------------------- other unary RPCs

  predicate MaySendUnary(c: Client, k: Slot) {
    && c.link.connected && k !in c.groups.slots
    && !(if InfoSlot(k) then c.infoShuttingDown else c.shuttingDown)
  }

  /** pollInfo, dispatchPingAsync, requestPixelValue and the other one-at-a-time requests. */
  function DispatchUnary(c: Client, k: Slot): Out {
    if !MaySendUnary(c, k) then Quiet(c)
    else Out(c.(groups := c.groups.(slots := c.groups.slots + {k})), {Unary(k)}, multiset{})
  }

  function UnaryDone(c: Client, k: Slot, code: Code): Done {
    Done(c.(groups := c.groups.(slots := c.groups.slots - {k})),
     if InfoSlot(k) || code.Ok? || code.DeadlineExceeded? || (k.Ping? && c.shuttingDown) then Leave
     else ReadGeneration)
  }

  /** A setter with an empty response; `context` is the address of its new call context. */
  function DispatchEmpty(c: Client, context: nat): Out {
    if !c.link.connected || c.shuttingDown || context in c.groups.contexts then Quiet(c)
    else Out(c.(groups := c.groups.(contexts := c.groups.contexts + {context},
                                    emptyPending := c.groups.emptyPending + 1)),
             {FireAndForget(context)}, multiset{})
  }

  function EmptyDone(c: Client, context: nat, code: Code): Done {
    Done(c.(groups := c.groups.(contexts := c.groups.contexts - {context},
                            emptyPending := if c.groups.emptyPending == 0 then 0 else c.groups.emptyPending - 1)),
     if code.Ok? || code.DeadlineExceeded? then Leave else ReadGeneration)
  }

  /** The compare-and-disconnect at the end of every failing callback. */
  function DisconnectIf(c: Client, generation: nat): Client {
    if generation == c.link.connections then c.(link := c.link.(connected := false)) else c
  }

  // ---------------------------------------------------------------- callback activity

  function BeginActivity(c: Client): Client {
    c.(activity := c.activity + 1)
  }

  function EndActivity(c: Client): Client {
    if c.activity == 0 then c else c.(activity := c.activity - 1)
  }
}
