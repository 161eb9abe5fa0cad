/** The remote client's lock-protected regions, statement by statement, over its own fields.

    Each method is proved to do what the function of the same region in `ClientSpec` says; the RPCs
    it hands to the transport and the Qt events it posts are its results. */
module ClientBase {
  import opened Wrappers
  import opened GlobalStats
  import opened ClientSpec

  class RemoteClient {
    // The fields are grouped by the mutex that guards them: connection state and request, image
    // requests, and the two users of the asynchronous-RPC mutex.
    var link: Link
    var pump: Pump
    var intent: Intent
    var groups: Groups

    var shuttingDown: bool
    var infoShuttingDown: bool
    var activeGrpcCallbacks: nat

    /** All fields as one value. */
    ghost function Fields(): Client
      reads this
    {
      Client(link, pump, intent, groups, shuttingDown, infoShuttingDown, activeGrpcCallbacks)
    }

    // -------------------------------------------------------------- connection handshake

    method DispatchConnectionRequest(phase: Phase, image: nat) returns (rpcs: set<Rpc>)
      modifies this`link, this`pump
      ensures Out(Fields(), rpcs, multiset{}) == DispatchConnection(old(Fields()), phase, image)
    {
      rpcs := {};
      if shuttingDown || link.pending.Some? {
        return;
      }
      if phase != Phase.ImageName {
        link := link.(connections := link.connections + 1);
        link := link.(connected := false);
        pump := pump.(completed := []);
        pump := pump.(primed := false);
      }
      link := link.(pending := Some(ConnectionRequest(phase, image, link.connections, Ok)));
      link := link.(rpcPending := true);
      rpcs := {Connect};
    }

    method ConnectionRequestCallback(code: Code)
      modifies this`link
      ensures Fields() == ConnectionDone(old(Fields()), code)
    {
      var answered := if link.pending.Some? then Some(link.pending.value.(code := code)) else None;
      link := link.(pending := answered, rpcPending := false);
    }

    method FinishConnection() returns (events: multiset<Event>)
      modifies this
      ensures Out(Fields(), {}, events) == ClientSpec.FinishConnection(old(Fields()))
    {
      events := multiset{};
      if shuttingDown {
        return;
      }
      link := link.(connected := true);
      pump := pump.(completed := []);
      pump := pump.(lastApplied := 0);
      pump := pump.(primed := false);
      intent := intent.(stats := BLANK);
      intent := intent.(supported := false);
      intent := intent.(rpcUnsupported := false);
      intent := intent.(sent := false);
      events := multiset{ImageNeeded};
    }

    method ConnectionReceived() returns (rpcs: set<Rpc>, events: multiset<Event>)
      modifies this
      ensures Out(Fields(), rpcs, events) == OnConnectionReceived(old(Fields()))
    {
      rpcs, events := {}, multiset{};
      if shuttingDown || link.rpcPending || link.pending.None? {
        return;
      }
      var state := link.pending.value;
      link := link.(pending := None);
      if state.generation != link.connections {
        return;
      }
      match state.phase {
        case Probe =>
          if state.code.Ok? {
            events := FinishConnection();
          } else if state.code.FailedPrecondition? {
            rpcs := DispatchConnectionRequest(Configure, 0);
          }
        case Configure =>
          if !state.code.Ok? {
            link := link.(connected := false);
            return;
          }
          rpcs := DispatchConnectionRequest(Phase.ImageName, 0);
        case ImageName =>
          if state.image < 3 {
            rpcs := DispatchConnectionRequest(Phase.ImageName, state.image + 1);
          } else {
            events := FinishConnection();
          }
      }
    }

    method Reconnect() returns (rpcs: set<Rpc>)
      modifies this
      ensures Out(Fields(), rpcs, multiset{}) == ClientSpec.Reconnect(old(Fields()))
    {
      rpcs := {};
      if shuttingDown {
        return;
      }
      if link.connected {
        rpcs := DispatchUnaryAsync(Ping);
      } else {
        rpcs := DispatchConnectionRequest(Probe, 0);
      }
    }

    // -------------------------------------------------------------- image pump

    /** Fill the credit window one request at a time. */
    method ImagePlease() returns (rpcs: set<Rpc>)
      modifies this`pump
      ensures Out(Fields(), rpcs, multiset{}) == ClientSpec.ImagePlease(old(Fields()))
    {
      hide WithRequests, Registered, ImageRpcs, FreshIds, OfGeneration;
      rpcs := {};
      if !link.connected || shuttingDown {
        return;
      }
      NoRequests(pump, link.connections);
      var targetWindow := if pump.primed then pump.target else 1;
      var currentRequests := |OfGeneration(pump.inflight, link.connections)|;
      ghost var added: nat := 0;
      while currentRequests < targetWindow
        invariant added == currentRequests - |OfGeneration(old(pump).inflight, link.connections)|
        invariant currentRequests <= Max(currentRequests - added, targetWindow)
        invariant pump == WithRequests(old(pump), link.connections, added)
        invariant rpcs == ImageRpcs(FreshIds(old(pump).nextId, added))
      {
        ghost var before := pump;
        var rpc := Register();
        AddRequest(old(pump), before, link.connections, added);
        rpcs := rpcs + {rpc};
        currentRequests := currentRequests + 1;
        added := added + 1;
      }
      assert added == Credits(old(Fields()));
    }

    /** Enter one request of the current generation under the next identifier. */
    method Register() returns (rpc: Rpc)
      modifies this`pump
      ensures pump == Registered(old(pump), link.connections) && rpc == Rpc.Image(old(pump).nextId)
    {
      var requestId := pump.nextId;
      pump := pump.(nextId := requestId + 1);
      pump := pump.(inflight := pump.inflight[requestId := link.connections]);
      rpc := Rpc.Image(requestId);
    }

    static lemma NoRequests(p: Pump, generation: nat)
      ensures WithRequests(p, generation, 0) == p
      ensures ImageRpcs(FreshIds(p.nextId, 0)) == {}
    {
      assert FreshIds(p.nextId, 0) == {};
      assert p.inflight + Tagged({}, generation) == p.inflight;
    }

    /** One more request takes the next identifier. */
    static lemma AddRequest(p: Pump, q: Pump, generation: nat, count: nat)
      requires q == WithRequests(p, generation, count)
      ensures WithRequests(p, generation, count + 1) == Registered(q, generation)
      ensures ImageRpcs(FreshIds(p.nextId, count + 1)) == ImageRpcs(FreshIds(p.nextId, count)) + {Rpc.Image(q.nextId)}
    {
      assert FreshIds(p.nextId, count + 1) == FreshIds(p.nextId, count) + {p.nextId + count};
      assert p.inflight + Tagged(FreshIds(p.nextId, count + 1), generation)
          == (p.inflight + Tagged(FreshIds(p.nextId, count), generation))[p.nextId + count := generation];
    }

    method ImagePleaseCallback(requestId: nat, code: Code, reply: Reply) returns (tail: Tail)
      modifies this`pump
      ensures Done(Fields(), tail) == ImageDone(old(Fields()), requestId, code, reply)
    {
      tail := Leave;
      if requestId !in pump.inflight {
        return;
      }
      var generation := pump.inflight[requestId];
      if generation == link.connections {
        if code.Ok? {
          if reply.status.ImageValid? {
            tail := PostWaiting;
            pump := pump.(primed := true);
            pump := pump.(completed := pump.completed + [reply.(origin := generation)]);
          } else if reply.status.ImageNone? {
            tail := PostUnavailable(link.connections);
            pump := pump.(primed := false);
          } else if reply.status.ImageTimeout? {
            tail := PostNeeded;
          }
        } else if code.DeadlineExceeded? {
          tail := PostNeeded;
        } else {
          tail := Disconnect(link.connections);
        }
      }
      pump := pump.(inflight := pump.inflight - {requestId});
      if shuttingDown && !tail.Disconnect? {
        tail := Leave;
      }
    }

    /** Scan the queue for the newest reply, apply it if it is newer than the last one applied, and
        drop the rest. */
    method ImageReceived() returns (rpcs: set<Rpc>, events: multiset<Event>)
      modifies this
      ensures Out(Fields(), rpcs, events) == ClientSpec.ImageReceived(old(Fields()))
    {
      rpcs, events := {}, multiset{};
      if shuttingDown || pump.completed == [] {
        return;
      }
      var newest := pump.completed[0];
      var i := 0;
      while i < |pump.completed|
        invariant 0 <= i <= |pump.completed|
        invariant newest == if i == 0 then pump.completed[0] else Newest(pump.completed[..i])
      {
        if pump.completed[i].serial >= newest.serial {
          newest := pump.completed[i];
        }
        assert pump.completed[..i + 1][..i] == pump.completed[..i];
        i := i + 1;
      }
      assert pump.completed[..i] == pump.completed;
      var haveImageReply := newest.serial > pump.lastApplied;
      if haveImageReply {
        pump := pump.(lastApplied := newest.serial);
      }
      pump := pump.(completed := []);
      if haveImageReply {
        rpcs := ReceiveGlobalStats(newest.stats);
      }
      events := multiset{ImageNeeded};
    }

    method ImageRequestWindow(window: int) returns (events: multiset<Event>)
      modifies this`pump
      ensures Out(Fields(), {}, events) == SetWindow(old(Fields()), window)
    {
      var clampedWindow := Clamp(window);
      events := if !shuttingDown && clampedWindow > pump.target then multiset{ImageNeeded} else multiset{};
      pump := pump.(target := clampedWindow);
    }

    // -------------------------------------------------------------- global-statistics intent

    method DispatchGlobalStats() returns (rpcs: set<Rpc>)
      modifies this`intent
      ensures Out(Fields(), rpcs, multiset{}) == DispatchStats(old(Fields()))
    {
      rpcs := {};
      var enabled := if intent.haveIntent then intent.desired else intent.stats.enabled;
      var useMask := if intent.haveMaskIntent then intent.maskDesired else intent.stats.useMask;
      if shuttingDown || !link.connected || !intent.supported || !(intent.haveIntent || intent.haveMaskIntent)
         || intent.pending.Some?
         || (intent.sent && intent.lastSent == enabled && intent.lastMaskSent == useMask) {
        return;
      }
      intent := intent.(pending := Some(StatsRequest(enabled, useMask, link.connections, Ok)), rpcPending := true,
                        sent := true, lastSent := enabled, lastMaskSent := useMask);
      rpcs := {SetStats};
    }

    method RequestGlobalStats(enabled: bool, useMask: bool) returns (rpcs: set<Rpc>)
      modifies this
      ensures Out(Fields(), rpcs, multiset{}) == UserStats(old(Fields()), enabled, useMask)
    {
      intent := intent.(haveIntent := true);
      intent := intent.(desired := enabled);
      intent := intent.(haveMaskIntent := true);
      intent := intent.(maskDesired := useMask);
      rpcs := DispatchGlobalStats();
    }

    method GlobalStatsCallback(code: Code)
      modifies this`intent
      ensures Fields() == StatsDone(old(Fields()), code)
    {
      var answered := if intent.pending.Some? then Some(intent.pending.value.(code := code)) else None;
      intent := intent.(pending := answered, rpcPending := false);
    }

    method GlobalStatsReceived() returns (rpcs: set<Rpc>)
      modifies this
      ensures Out(Fields(), rpcs, multiset{}) == OnStatsReceived(old(Fields()))
    {
      rpcs := {};
      if shuttingDown || intent.rpcPending || intent.pending.None? {
        return;
      }
      var state := intent.pending.value;
      intent := intent.(pending := None);
      if state.generation == link.connections && !state.code.Ok? {
        if state.code.Unimplemented? {
          intent := intent.(stats := BLANK.(status := Unsupported), supported := false, rpcUnsupported := true);
        } else {
          link := link.(connected := false);
          intent := intent.(stats := BLANK.(status := NoImage), sent := false);
        }
      }
      rpcs := DispatchGlobalStats();
    }

    method GlobalStatsUnavailable(generation: nat)
      modifies this`intent
      ensures Fields() == OnStatsUnavailable(old(Fields()), generation)
    {
      if shuttingDown || generation != link.connections {
        return;
      }
      var enabled := intent.stats.enabled;
      var useMask := intent.stats.useMask;
      intent := intent.(stats := BLANK.(enabled := enabled, useMask := useMask, status := NoImage));
    }

    method ReceiveGlobalStats(wire: Option<WireStats>) returns (rpcs: set<Rpc>)
      modifies this
      ensures Out(Fields(), rpcs, multiset{}) == ReceiveStats(old(Fields()), wire)
    {
      var result := Received(wire);
      if intent.rpcUnsupported {
        result := BLANK.(status := Unsupported);
      }
      intent := intent.(supported := wire.Some? && !intent.rpcUnsupported, stats := result);
      assert Fields() == WithStats(old(Fields()), wire);
      rpcs := DispatchGlobalStats();
    }

    // -------------------------------------------------------------- other unary RPCs

    method DispatchUnaryAsync(k: Slot) returns (rpcs: set<Rpc>)
      modifies this`groups
      ensures Out(Fields(), rpcs, multiset{}) == DispatchUnary(old(Fields()), k)
    {
      rpcs := {};
      var stopping := if InfoSlot(k) then infoShuttingDown else shuttingDown;
      if !link.connected || stopping || k in groups.slots {
        return;
      }
      groups := groups.(slots := groups.slots + {k});
      rpcs := {Unary(k)};
    }

    method UnaryCallback(k: Slot, code: Code) returns (tail: Tail)
      modifies this`groups
      ensures Done(Fields(), tail) == UnaryDone(old(Fields()), k, code)
    {
      groups := groups.(slots := groups.slots - {k});
      tail := ReadGeneration;
      if InfoSlot(k) || code.Ok? || code.DeadlineExceeded? || (k.Ping? && shuttingDown) {
        tail := Leave;
      }
    }

    method EmptyRpcCallback(context: nat, code: Code) returns (tail: Tail)
      modifies this`groups
      ensures Done(Fields(), tail) == EmptyDone(old(Fields()), context, code)
    {
      groups := groups.(contexts := groups.contexts - {context});
      if groups.emptyPending != 0 {
        groups := groups.(emptyPending := groups.emptyPending - 1);
      }
      tail := if code.Ok? || code.DeadlineExceeded? then Leave else ReadGeneration;
    }

    /** A setter with an empty response; `context` is the address of its new call context. */
    method DispatchEmptyRpc(context: nat) returns (rpcs: set<Rpc>)
      modifies this`groups
      ensures Out(Fields(), rpcs, multiset{}) == DispatchEmpty(old(Fields()), context)
    {
      rpcs := {};
      if !link.connected || shuttingDown || context in groups.contexts {
        return;
      }
      groups := groups.(contexts := groups.contexts + {context}, emptyPending := groups.emptyPending + 1);
      rpcs := {FireAndForget(context)};
    }

    /** The end of a failing callback: disconnect unless the connection has been renewed since. */
    method ReportServerDisconnected(generation: nat)
      modifies this`link
      ensures Fields() == DisconnectIf(old(Fields()), generation)
    {
      if generation == link.connections {
        link := link.(connected := false);
      }
    }

    method BeginGrpcCallbackActivity()
      modifies this`activeGrpcCallbacks
      ensures Fields() == BeginActivity(old(Fields()))
    {
      activeGrpcCallbacks := activeGrpcCallbacks + 1;
    }

    method EndGrpcCallbackActivity()
      modifies this`activeGrpcCallbacks
      ensures Fields() == EndActivity(old(Fields()))
    {
      if activeGrpcCallbacks == 0 {
        return;
      }
      activeGrpcCallbacks := activeGrpcCallbacks - 1;
    }
  }
}
