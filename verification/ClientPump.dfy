/** The image pump: replies never cross connection generations, serials are applied in increasing
    order, the credit window is respected, and a connected pump keeps going. */
module ClientPump {
  import opened ClientSpec
  import opened ClientMachine
  import opened ClientTransport
  import opened ClientHandshake

  /** The largest serial among queued replies, 0 when there are none. */
  function Peak(replies: seq<Reply>): nat {
    if replies == [] then 0 else Newest(replies).serial
  }

  lemma PeakOfAppend(replies: seq<Reply>, r: Reply)
    ensures Peak(replies + [r]) == Max(Peak(replies), r.serial)
  {
    assert (replies + [r])[..|replies|] == replies;
  }

  /** `k` is the position of the last reply with the largest serial. */
  ghost predicate LastLargest(replies: seq<Reply>, k: nat) {
    && k < |replies|
    && (forall i | 0 <= i < |replies| :: replies[i].serial <= replies[k].serial)
    && (forall i | k < i < |replies| :: replies[i].serial < replies[k].serial)
  }

  /** The scan picks a largest serial, and the last reply that carries it. */
  lemma {:induction false} NewestIsLargest(replies: seq<Reply>) returns (k: nat)
    requires replies != []
    ensures LastLargest(replies, k) && Newest(replies) == replies[k]
  {
    var n := |replies| - 1;
    if n == 0 {
      k := 0;
    } else {
      var front := replies[..n];
      k := NewestIsLargest(front);
      assert forall i | 0 <= i < n :: replies[i] == front[i];
      if replies[n].serial >= front[k].serial {
        k := n;
      }
    }
  }

  // ---------------------------------------------------------------- what holds in every state

  ghost predicate Isolated(s: State) {
    && (forall r | r in s.c.pump.completed :: r.origin == s.c.link.connections)
    && (!s.h.live ==> s.c.pump.completed == [] && OfGeneration(s.c.pump.inflight, s.c.link.connections) == {})
    && (forall a | a in s.h.applied :: a.origin == a.generation <= s.c.link.connections)
  }

  ghost predicate Ordered(s: State) {
    && (s.h.live ==> Max(s.c.pump.lastApplied, Peak(s.c.pump.completed)) == s.h.top)
    && (forall a | a in s.h.applied && a.generation == s.c.link.connections ::
          s.h.live && a.serial <= s.c.pump.lastApplied)
    && (forall i, j | 0 <= i < j < |s.h.applied| && s.h.applied[i].generation == s.h.applied[j].generation ::
          s.h.applied[i].serial < s.h.applied[j].serial)
  }

  ghost predicate WithinCredit(s: State) {
    var current := |OfGeneration(s.c.pump.inflight, s.c.link.connections)|;
    && current <= MAX_WINDOW
    && (!s.h.validSeen ==> !s.c.pump.primed && current <= 1)
    && (s.c.pump.primed ==> s.h.live)
  }

  /** An event or a callback's later region is under way that leads to the next image request. */
  predicate UnderWay(qt: multiset<Event>, tails: multiset<Tail>, generation: nat) {
    || ImageNeeded in qt || ScheduleImagePlease in qt || RetryTimer in qt
    || PostNeeded in tails || PostRetry in tails
    || PostUnavailable(generation) in tails
    || Disconnect(generation) in tails
  }

  /** Something leads to the next image request, or to the end of the connection. */
  ghost predicate Driven(s: State) {
    || OfGeneration(s.c.pump.inflight, s.c.link.connections) != {}
    || s.c.pump.completed != []
    || UnderWay(s.qt, s.tails, s.c.link.connections)
  }

  ghost predicate KeepsGoing(s: State) {
    s.c.link.connected && !s.c.shuttingDown && !s.h.silenced ==> Driven(s)
  }

  /** Queued replies always have a wake-up on its way. */
  ghost predicate WakeUpPosted(s: State) {
    !s.c.shuttingDown && s.c.pump.completed != [] ==> ImageWaiting in s.qt || PostWaiting in s.tails
  }

  ghost predicate PumpInv(s: State) {
    Isolated(s) && Ordered(s) && WithinCredit(s) && KeepsGoing(s) && WakeUpPosted(s)
  }

  // ---------------------------------------------------------------- effects on the pump

  predicate DrivesPump(a: Action) {
    || a == Timer || a.RequestWindow?
    || (a.Handle? && (a.event == ImageNeeded || a.event == RetryTimer || a.event == ImageWaiting
                      || a.event == ConnectionReceived))
  }

  lemma OtherActionsKeepPump(s: State, a: Action)
    requires !DrivesPump(a)
    ensures Respond(s.c, a).client.pump == s.c.pump
    ensures SameButSends(s.h, Record(s, Act(a)))
  {
    assert SameButSends(s.h, RecordSend(s.h, Respond(s.c, a)));
  }

  ghost predicate SameButSends(h: History, k: History) {
    && k.live == h.live && k.silenced == h.silenced && k.validSeen == h.validSeen && k.top == h.top
    && k.trail == h.trail && k.applied == h.applied
  }

  lemma NewRequestsOfGeneration(c: Client)
    requires Sound(c) && c.link.connected && !c.shuttingDown
    ensures var d := ImagePlease(c).client;
            var before := OfGeneration(c.pump.inflight, c.link.connections);
            var after := OfGeneration(d.pump.inflight, c.link.connections);
            && after == before + FreshIds(c.pump.nextId, Credits(c))
            && |after| == Max(|before|, ActiveWindow(c.pump))
  {
    var before := OfGeneration(c.pump.inflight, c.link.connections);
    FreshIdsCount(c.pump.nextId, Credits(c));
    assert before !! FreshIds(c.pump.nextId, Credits(c));
    assert OfGeneration(ImagePlease(c).client.pump.inflight, c.link.connections)
        == before + FreshIds(c.pump.nextId, Credits(c));
  }

  lemma {:induction false} FreshIdsCount(first: nat, count: nat)
    ensures |FreshIds(first, count)| == count
  {
    if count > 0 {
      FreshIdsCount(first, count - 1);
      assert FreshIds(first, count) == FreshIds(first, count - 1) + {first + count - 1};
    } else {
      assert FreshIds(first, count) == {};
    }
  }

  /** What ImagePlease changes of the pump, and when it changes nothing. */
  lemma PleaseFills(c: Client)
    requires Sound(c)
    ensures var d := ImagePlease(c).client;
            var current := |OfGeneration(c.pump.inflight, c.link.connections)|;
            && d.link == c.link && d.shuttingDown == c.shuttingDown && ImagePlease(c).events == multiset{}
            && d.pump.completed == c.pump.completed && d.pump.lastApplied == c.pump.lastApplied
            && d.pump.primed == c.pump.primed
            && (if c.link.connected && !c.shuttingDown then
                  |OfGeneration(d.pump.inflight, c.link.connections)| == Max(current, ActiveWindow(c.pump))
                else d.pump == c.pump)
  {
    if c.link.connected && !c.shuttingDown {
      NewRequestsOfGeneration(c);
    }
  }

  lemma PleaseKeepsPumpInv(s: State, a: Action)
    requires Sound(s.c) && InHandshake(s) && PumpInv(s) && (a == Handle(ImageNeeded) || a == Handle(RetryTimer))
    ensures PumpInv(Next(s, Act(a)))
  {
    hide Completion, NextStage, Posted, Rest, OfGeneration;
    hide ImagePlease, ImageReceived, OnConnectionReceived, OnStatsReceived;
    PleaseFills(s.c);
    var t := Next(s, Act(a));
    assert t.h == s.h;
    if s.c.link.connected && !s.c.shuttingDown {
      var current := OfGeneration(t.c.pump.inflight, t.c.link.connections);
      assert |current| >= 1;
      assert current != {};
    }
  }


  lemma OtherActionKeepsPumpInv(s: State, a: Action)
    requires InHandshake(s) && PumpInv(s) && !DrivesPump(a)
    ensures PumpInv(Next(s, Act(a)))
  {
    OtherActionsKeepPump(s, a);
    OtherActionsKeepLink(s.c, a);
    ActionFrame(s.c, a);
  }

  lemma WindowKeepsPumpInv(s: State, w: int)
    requires PumpInv(s)
    ensures PumpInv(Next(s, Act(RequestWindow(w))))
  {
  }

  /** A new generation starts with an empty pump. */
  lemma NewGenerationPumpInv(s: State, t: State)
    requires Sound(s.c) && PumpInv(s)
    requires t.c.link.connections == s.c.link.connections + 1 && !t.c.link.connected
    requires t.c.pump == s.c.pump.(completed := [], primed := false)
    requires t.h == NewGeneration(s.h)
    ensures PumpInv(t)
  {
    assert OfGeneration(t.c.pump.inflight, t.c.link.connections) == {};
  }

  lemma TimerKeepsPumpInv(s: State)
    requires Sound(s.c) && InHandshake(s) && PumpInv(s)
    ensures PumpInv(Next(s, Act(Timer)))
  {
    if !s.c.link.connected && MayConnect(s.c) {
      NewGenerationPumpInv(s, Next(s, Act(Timer)));
    }
  }

  lemma ReceivedPump(c: Client)
    ensures var o := OnConnectionReceived(c);
            && o.client.shuttingDown == c.shuttingDown
            && (Finishes(c) ==> o.client.pump == c.pump.(completed := [], lastApplied := 0, primed := false)
                                && o.client.link.connections == c.link.connections && ImageNeeded in o.events)
            && (!Finishes(c) && o.client.link.connections == c.link.connections ==>
                  o.client.pump == c.pump && (o.client.link.connected ==> c.link.connected))
            && (o.client.link.connections != c.link.connections ==>
                  o.client.pump == c.pump.(completed := [], primed := false)
                  && o.client.link.connections == c.link.connections + 1 && !o.client.link.connected)
  {
  }

  lemma ConnectionKeepsPumpInv(s: State)
    requires Sound(s.c) && InHandshake(s) && PumpInv(s)
    ensures PumpInv(Next(s, Act(Handle(ConnectionReceived))))
  {
    var t := Next(s, Act(Handle(ConnectionReceived)));
    ReceivedPump(s.c);
    if t.c.link.connections != s.c.link.connections {
      NewGenerationPumpInv(s, t);
    } else if Finishes(s.c) {
      assert !s.h.live;
      assert t.h.applied == s.h.applied && t.h.live;
    }
  }

  lemma DrainPump(c: Client)
    ensures var o := ImageReceived(c);
            && o.client.link == c.link && o.client.shuttingDown == c.shuttingDown
            && (c.shuttingDown || c.pump.completed == [] ==> o.client.pump == c.pump)
            && (!c.shuttingDown && c.pump.completed != [] ==>
                  o.client.pump
                  == c.pump.(completed := [], lastApplied := Max(c.pump.lastApplied, Peak(c.pump.completed)))
                  && ImageNeeded in o.events)
  {
  }

  lemma DrainKeepsOrder(s: State)
    requires Isolated(s) && Ordered(s)
    ensures Isolated(Next(s, Act(Handle(ImageWaiting)))) && Ordered(Next(s, Act(Handle(ImageWaiting))))
  {
    hide ImageReceived, DispatchStats, Completion, NextStage, Posted, Rest;
    DrainPump(s.c);
    if Applies(s.c) {
      var k := NewestIsLargest(s.c.pump.completed);
      assert s.c.pump.completed[k] in s.c.pump.completed;
    }
  }

  lemma DrainKeepsGoing(s: State)
    requires WithinCredit(s) && KeepsGoing(s) && WakeUpPosted(s)
    ensures var t := Next(s, Act(Handle(ImageWaiting))); WithinCredit(t) && KeepsGoing(t) && WakeUpPosted(t)
  {
    hide ImageReceived, DispatchStats, Completion, NextStage, Posted, Rest, Newest, Peak, OfGeneration;
    DrainPump(s.c);
  }

  lemma DrainKeepsPumpInv(s: State)
    requires PumpInv(s)
    ensures PumpInv(Next(s, Act(Handle(ImageWaiting))))
  {
    hide Next, Isolated, Ordered, WithinCredit, KeepsGoing, WakeUpPosted;
    DrainKeepsOrder(s);
    DrainKeepsGoing(s);
  }

  /** Steps away from the pump keep it going as long as they keep what drives it. */
  lemma FramePumpInv(s: State, t: State)
    requires PumpInv(s)
    requires t.c.pump == s.c.pump && t.h == s.h && t.c.link.connections == s.c.link.connections
    requires (t.c.link.connected ==> s.c.link.connected) && (s.c.shuttingDown ==> t.c.shuttingDown)
    requires t.c.link.connected && Driven(s) ==> Driven(t)
    requires !t.c.shuttingDown && s.c.pump.completed != [] && (ImageWaiting in s.qt || PostWaiting in s.tails)
             ==> ImageWaiting in t.qt || PostWaiting in t.tails
    ensures PumpInv(t)
  {
  }

  /** A completion from an earlier generation only removes its own entry. */
  lemma StaleCompletion(c: Client, id: nat, code: Code, reply: Reply)
    requires id in c.pump.inflight && c.pump.inflight[id] != c.link.connections
    ensures ImageDone(c, id, code, reply) == Done(c.(pump := c.pump.(inflight := c.pump.inflight - {id})), Leave)
  {
  }

  lemma StaleKeepsPumpInv(s: State, id: nat, code: Code, reply: Reply)
    requires PumpInv(s) && !CurrentRequest(s.c, id)
    ensures PumpInv(Next(s, Complete(Image(id), code, reply)))
  {
    var t := Next(s, Complete(Image(id), code, reply));
    assert t.c.pump == s.c.pump.(inflight := t.c.pump.inflight);
    assert OfGeneration(t.c.pump.inflight, s.c.link.connections)
        == OfGeneration(s.c.pump.inflight, s.c.link.connections);
  }

  predicate CurrentRequest(c: Client, id: nat) {
    id in c.pump.inflight && c.pump.inflight[id] == c.link.connections
  }

  lemma ValidReplyKeepsPumpInv(s: State, id: nat, reply: Reply)
    requires PumpInv(s) && CurrentRequest(s.c, id) && reply.status.ImageValid?
    ensures PumpInv(Next(s, Complete(Image(id), Ok, reply)))
  {
    var t := Next(s, Complete(Image(id), Ok, reply));
    PeakOfAppend(s.c.pump.completed, reply.(origin := s.c.link.connections));
    assert id in OfGeneration(s.c.pump.inflight, s.c.link.connections);
    assert OfGeneration(t.c.pump.inflight, s.c.link.connections)
        == OfGeneration(s.c.pump.inflight, s.c.link.connections) - {id};
  }

  /** Replies other than a valid image: the follow-up keeps the pump going unless the status has none. */
  lemma OtherReplyPump(c: Client, id: nat, code: Code, reply: Reply)
    requires CurrentRequest(c, id) && !(code.Ok? && reply.status.ImageValid?)
    ensures var Done(d, tail) := ImageDone(c, id, code, reply);
            && d.pump.inflight == c.pump.inflight - {id} && d.pump.completed == c.pump.completed
            && d.pump.lastApplied == c.pump.lastApplied && (d.pump.primed ==> c.pump.primed)
            && d.link == c.link && d.shuttingDown == c.shuttingDown
            && (!c.shuttingDown && !(code.Ok? && Silent(reply.status)) ==>
                  || tail == PostUnavailable(c.link.connections) || tail == PostNeeded
                  || tail == Disconnect(c.link.connections))
  {
  }

  lemma OtherReplyKeepsPumpInv(s: State, id: nat, code: Code, reply: Reply)
    requires PumpInv(s) && CurrentRequest(s.c, id) && !(code.Ok? && reply.status.ImageValid?)
    ensures PumpInv(Next(s, Complete(Image(id), code, reply)))
  {
    var t := Next(s, Complete(Image(id), code, reply));
    var current := OfGeneration(s.c.pump.inflight, s.c.link.connections);
    OtherReplyPump(s.c, id, code, reply);
    assert id in current;
    assert OfGeneration(t.c.pump.inflight, s.c.link.connections) == current - {id};
    assert t.h == s.h || t.h == s.h.(silenced := true);
  }

  lemma ImageDoneKeepsPumpInv(s: State, id: nat, code: Code, reply: Reply)
    requires PumpInv(s)
    ensures PumpInv(Next(s, Complete(Image(id), code, reply)))
  {
    if !CurrentRequest(s.c, id) {
      StaleKeepsPumpInv(s, id, code, reply);
    } else if code.Ok? && reply.status.ImageValid? {
      ValidReplyKeepsPumpInv(s, id, reply);
    } else {
      OtherReplyKeepsPumpInv(s, id, code, reply);
    }
  }

  lemma OtherCompletionKeepsPumpInv(s: State, r: Rpc, code: Code, reply: Reply)
    requires PumpInv(s) && !r.Image?
    ensures PumpInv(Next(s, Complete(r, code, reply)))
  {
    FramePumpInv(s, Next(s, Complete(r, code, reply)));
  }

  /** A callback's later regions keep whatever leads to the next request, in one form or another. */
  lemma FollowUpKeepsWay(c: Client, qt: multiset<Event>, tails: multiset<Tail>, tail: Tail)
    requires tail in tails && UnderWay(qt, tails, c.link.connections) && AfterTail(c, tail).link.connected
    ensures UnderWay(qt + Posted(c, tail), tails - multiset{tail} + Rest(c, tail), c.link.connections)
  {
    Kept(tails, tail, Rest(c, tail));
    if tail == PostRetry {
      assert ScheduleImagePlease in Posted(c, tail);
    } else if tail.PostUnavailable? {
      assert PostRetry in Rest(c, tail);
    }
  }

  lemma FollowUpDrives(s: State, tail: Tail)
    requires tail in s.tails
    ensures var t := Effect(s, FollowUp(tail));
            && (t.c.link.connected && Driven(s) ==> Driven(t))
            && (!t.c.shuttingDown && (ImageWaiting in s.qt || PostWaiting in s.tails) ==>
                  ImageWaiting in t.qt || PostWaiting in t.tails)
  {
    hide Respond, Completion, NextStage, OfGeneration, UnderWay, Rest;
    Kept(s.tails, tail, Rest(s.c, tail));
    if AfterTail(s.c, tail).link.connected && UnderWay(s.qt, s.tails, s.c.link.connections) {
      FollowUpKeepsWay(s.c, s.qt, s.tails, tail);
    }
  }

  lemma Kept<T>(m: multiset<T>, x: T, more: multiset<T>)
    ensures forall y :: (y in m && y != x) || y in more ==> y in m - multiset{x} + more
  {
  }

  lemma FollowUpKeepsPumpInv(s: State, tail: Tail)
    requires PumpInv(s) && tail in s.tails
    ensures PumpInv(Next(s, FollowUp(tail)))
  {
    hide Respond, Completion, NextStage, PumpInv, Driven, Posted, Rest;
    FollowUpDrives(s, tail);
    var t := Next(s, FollowUp(tail));
    assert Driven(t) == Driven(Effect(s, FollowUp(tail))) by {
      DrivenIgnoresHistory(t, Effect(s, FollowUp(tail)));
    }
    FramePumpInv(s, t);
  }

  lemma DrivenIgnoresHistory(s: State, t: State)
    requires s.c == t.c && s.qt == t.qt && s.tails == t.tails
    ensures Driven(s) == Driven(t)
  {
  }

  lemma PumpNext(s: State, step: Step)
    requires Sound(s.c) && InHandshake(s) && PumpInv(s) && Enabled(s, step)
    ensures PumpInv(Next(s, step))
  {
    match step
    case Act(a) =>
      if a == Timer {
        TimerKeepsPumpInv(s);
      } else if a.RequestWindow? {
        WindowKeepsPumpInv(s, a.window);
      } else if a == Handle(ConnectionReceived) {
        ConnectionKeepsPumpInv(s);
      } else if a == Handle(ImageWaiting) {
        DrainKeepsPumpInv(s);
      } else if DrivesPump(a) {
        PleaseKeepsPumpInv(s, a);
      } else {
        OtherActionKeepsPumpInv(s, a);
      }
    case Enter(r) => FramePumpInv(s, Next(s, step));
    case Complete(r, code, reply) =>
      if r.Image? {
        ImageDoneKeepsPumpInv(s, r.id, code, reply);
      } else {
        OtherCompletionKeepsPumpInv(s, r, code, reply);
      }
    case FollowUp(t) => FollowUpKeepsPumpInv(s, t);
    case TearDown => FramePumpInv(s, Next(s, step));
  }
}
