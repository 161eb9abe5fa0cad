/** Every RPC is on the wire or in its callback exactly while the client's own bookkeeping says it
    is outstanding; from this follows that the destructor leaves nothing behind. */
module ClientTransport {
  import opened Wrappers
  import opened ClientSpec
  import opened ClientMachine

  /** Only the last region of a completion posts its notification, and no region repeats itself. */
  lemma Leftovers(c: Client, t: Tail)
    ensures Rest(c, t)[PostStats] == Rest(c, t)[PostConnection] == 0
    ensures !c.shuttingDown ==>
              && Posted(c, t)[StatsReceived] == (if t == PostStats then 1 else 0)
              && Posted(c, t)[ConnectionReceived] == (if t == PostConnection then 1 else 0)
  {
  }

  /** Taking one element out of a multiset and putting others in. */
  lemma Replaced<T>(m: multiset<T>, x: T, more: multiset<T>, y: T)
    requires x in m
    ensures (m - multiset{x} + more)[y] + (if y == x then 1 else 0) == m[y] + more[y]
  {
  }

  /** How many RPCs the client's pending entries announce for `r`. */
  function Outstanding(c: Client, r: Rpc): nat {
    if match r
       case Connect => c.link.rpcPending
       case Image(id) => id in c.pump.inflight
       case SetStats => c.intent.rpcPending
       case Unary(k) => k in c.groups.slots
       case FireAndForget(context) => context in c.groups.contexts
    then 1 else 0
  }

  ghost predicate Accounted(s: State) {
    forall r :: s.wire[r] + s.entered[r] == Outstanding(s.c, r)
  }

  predicate Counted(s: State) {
    s.c.activity == |s.entered| + |s.tails|
  }

  /** Facts about the client's fields alone. */
  ghost predicate Sound(c: Client) {
    && (c.link.rpcPending ==> c.link.pending.Some?)
    && (c.intent.rpcPending ==> c.intent.pending.Some?)
    && (forall id | id in c.pump.inflight :: id < c.pump.nextId && c.pump.inflight[id] <= c.link.connections)
    && MIN_WINDOW <= c.pump.target <= MAX_WINDOW
    && c.groups.emptyPending == |c.groups.contexts|
  }

  // ---------------------------------------------------------------- dispatching

  /** A handler announces exactly the RPCs it sends. */
  ghost predicate Announces(c: Client, o: Out) {
    forall r :: Outstanding(o.client, r) == Outstanding(c, r) + multiset(o.rpcs)[r]
  }

  lemma DispatchStatsAnnounces(c: Client)
    requires Sound(c)
    ensures Announces(c, DispatchStats(c)) && Sound(DispatchStats(c).client)
  {
  }

  lemma DispatchConnectionAnnounces(c: Client, phase: Phase, image: nat)
    requires Sound(c)
    ensures Announces(c, DispatchConnection(c, phase, image)) && Sound(DispatchConnection(c, phase, image).client)
  {
  }

  lemma ImagePleaseAnnounces(c: Client)
    requires Sound(c)
    ensures Announces(c, ImagePlease(c)) && Sound(ImagePlease(c).client)
  {
  }

  lemma DispatchUnaryAnnounces(c: Client, k: Slot)
    requires Sound(c)
    ensures Announces(c, DispatchUnary(c, k)) && Sound(DispatchUnary(c, k).client)
  {
  }

  lemma DispatchEmptyAnnounces(c: Client, context: nat)
    requires Sound(c)
    ensures Announces(c, DispatchEmpty(c, context)) && Sound(DispatchEmpty(c, context).client)
  {
  }

  lemma ConnectionAnnounces(c: Client)
    requires Sound(c)
    ensures Announces(c, OnConnectionReceived(c)) && Sound(OnConnectionReceived(c).client)
  {
    if ConnectionReady(c) && c.link.pending.value.generation == c.link.connections {
      var r := c.link.pending.value;
      var taken := c.(link := c.link.(pending := None));
      assert Sound(taken) && forall r :: Outstanding(taken, r) == Outstanding(c, r);
      match r.phase
      case Probe =>
        if r.code.FailedPrecondition? { DispatchConnectionAnnounces(taken, Configure, 0); }
      case Configure =>
        if r.code.Ok? { DispatchConnectionAnnounces(taken, ImageName, 0); }
      case ImageName =>
        if r.image < 3 { DispatchConnectionAnnounces(taken, ImageName, r.image + 1); }
    }
  }

  lemma ImageReceivedAnnounces(c: Client)
    requires Sound(c)
    ensures Announces(c, ImageReceived(c)) && Sound(ImageReceived(c).client)
  {
    if !(c.shuttingDown || c.pump.completed == []) {
      var newest := Newest(c.pump.completed);
      var drained := c.(pump := c.pump.(completed := []));
      ReceiveStatsAnnounces(drained.(pump := drained.pump.(lastApplied := newest.serial)), newest.stats);
    }
  }

  predicate SamePending(g: Intent, h: Intent) {
    h.rpcPending == g.rpcPending && h.pending == g.pending
  }

  lemma FailureKeepsPending(g: Intent)
    ensures SamePending(g, Refused(g)) && SamePending(g, Withdrawn(g))
  {
  }

  /** Taking a result in leaves what is outstanding, and what the books rest on, as it was. */
  lemma ResultKeepsBooks(c: Client, r: StatsRequest)
    ensures var d := ApplyStatsResult(c, r);
            && d.link.rpcPending == c.link.rpcPending && d.link.pending == c.link.pending
            && d.link.connections == c.link.connections && d.pump == c.pump && d.groups == c.groups
            && SamePending(c.intent, d.intent)
  {
    hide SamePending, Refused, Withdrawn;
    FailureKeepsPending(c.intent);
    if r.generation != c.link.connections || r.code.Ok? {
      NothingKeepsPending(c.intent);
    }
  }

  lemma NothingKeepsPending(g: Intent)
    ensures SamePending(g, g)
  {
  }

  lemma AppliedAnnounces(c: Client)
    requires Sound(c) && StatsReady(c)
    ensures var applied := ApplyStatsResult(c.(intent := c.intent.(pending := None)), c.intent.pending.value);
            Sound(applied) && forall r :: Outstanding(applied, r) == Outstanding(c, r)
  {
    hide ApplyStatsResult;
    ResultKeepsBooks(c.(intent := c.intent.(pending := None)), c.intent.pending.value);
  }

  lemma StatsReceivedAnnounces(c: Client)
    requires Sound(c)
    ensures Announces(c, OnStatsReceived(c)) && Sound(OnStatsReceived(c).client)
  {
    hide DispatchStats, MaySendStats, ApplyStatsResult, Sound;
    if StatsReady(c) {
      var applied := ApplyStatsResult(c.(intent := c.intent.(pending := None)), c.intent.pending.value);
      AppliedAnnounces(c);
      DispatchStatsAnnounces(applied);
    }
  }

  lemma Announce(c: Client, a: Action)
    requires Sound(c)
    ensures Announces(c, Respond(c, a)) && Sound(Respond(c, a).client)
  {
    match a
    case Timer =>
      DispatchUnaryAnnounces(c, Ping);
      DispatchConnectionAnnounces(c, Probe, 0);
    case RequestUnary(k) => DispatchUnaryAnnounces(c, k);
    case RequestEmpty(context) => DispatchEmptyAnnounces(c, context);
    case RequestWindow(w) =>
    case RequestStats(enabled, useMask) => UserStatsAnnounces(c, enabled, useMask);
    case Handle(e) =>
      match e {
        case ImageNeeded => ImagePleaseAnnounces(c);
        case RetryTimer => ImagePleaseAnnounces(c);
        case ImageWaiting => ImageReceivedAnnounces(c);
        case ConnectionReceived => ConnectionAnnounces(c);
        case StatsReceived => StatsReceivedAnnounces(c);
        case ScheduleImagePlease =>
        case StatsUnavailable(generation) =>
      }
  }

  lemma ReceiveStatsAnnounces(c: Client, wire: Option<GlobalStats.WireStats>)
    requires Sound(c)
    ensures Announces(c, ReceiveStats(c, wire)) && Sound(ReceiveStats(c, wire).client)
  {
    var stored := WithStats(c, wire);
    assert Sound(stored);
    assert forall r :: Outstanding(stored, r) == Outstanding(c, r);
    DispatchStatsAnnounces(stored);
  }

  /** Exactly the entry of `done` is gone. */
  ghost predicate Clears(c: Client, done: Rpc, d: Client) {
    forall r :: Outstanding(d, r) == if r == done then 0 else Outstanding(c, r)
  }

  lemma ImageClears(c: Client, id: nat, code: Code, reply: Reply)
    requires Sound(c) && id in c.pump.inflight
    ensures Sound(ImageDone(c, id, code, reply).client) && Clears(c, Image(id), ImageDone(c, id, code, reply).client)
  {
    var d := ImageDone(c, id, code, reply).client;
    assert d.pump.inflight == c.pump.inflight - {id} && d.pump.nextId == c.pump.nextId;
    assert d.pump.target == c.pump.target && d.link == c.link && d.intent == c.intent && d.groups == c.groups;
    hide ImageDone;
  }

  lemma FieldClears(c: Client, done: Rpc, code: Code, reply: Reply)
    requires Sound(c) && !done.Image? && !done.FireAndForget?
    ensures Sound(Completion(c, done, code, reply).client) && Clears(c, done, Completion(c, done, code, reply).client)
  {
    hide ImageDone, EmptyDone;
  }

  lemma ContextClears(c: Client, context: nat, code: Code)
    requires Sound(c) && context in c.groups.contexts
    ensures Sound(EmptyDone(c, context, code).client)
    ensures Clears(c, FireAndForget(context), EmptyDone(c, context, code).client)
  {
  }

  /** A completion clears exactly the entry of its own RPC. */
  lemma CompletionClears(c: Client, done: Rpc, code: Code, reply: Reply)
    requires Sound(c) && Outstanding(c, done) == 1
    ensures Sound(Completion(c, done, code, reply).client)
    ensures Clears(c, done, Completion(c, done, code, reply).client)
  {
    hide Sound, Clears, ImageDone, EmptyDone;
    match done
    case Image(id) => ImageClears(c, id, code, reply);
    case FireAndForget(context) => ContextClears(c, context, code);
    case _ => FieldClears(c, done, code, reply);
  }

  // ---------------------------------------------------------------- steps

  lemma SentAccounted(s: State, rest: multiset<Event>, o: Out)
    requires Accounted(s) && Announces(s.c, o)
    ensures Accounted(WithOut(s.(qt := rest), o))
  {
  }

  /** The bookkeeping stays exact through every step. */
  lemma AccountedEffect(s: State, step: Step)
    requires Sound(s.c) && Accounted(s) && Enabled(s, step)
    ensures Sound(Effect(s, step).c) && Accounted(Effect(s, step))
  {
    match step
    case Act(a) =>
      Announce(s.c, a);
      SentAccounted(s, Taken(s.qt, a), Respond(s.c, a));
    case Enter(r) => EnterAccounted(s, r);
    case Complete(r, code, reply) => CompleteAccounted(s, r, code, reply);
    case FollowUp(t) => FollowUpAccounted(s, t);
    case TearDown => TearDownAccounted(s);
  }

  lemma UserStatsAnnounces(c: Client, enabled: bool, useMask: bool)
    requires Sound(c)
    ensures Announces(c, UserStats(c, enabled, useMask)) && Sound(UserStats(c, enabled, useMask).client)
  {
    DispatchStatsAnnounces(c.(intent := c.intent.(haveIntent := true, desired := enabled,
                                                  haveMaskIntent := true, maskDesired := useMask)));
  }

  lemma EnterAccounted(s: State, r: Rpc)
    requires Sound(s.c) && Accounted(s) && r in s.wire
    ensures Sound(Effect(s, Enter(r)).c) && Accounted(Effect(s, Enter(r)))
  {
  }

  lemma CompleteAccounted(s: State, done: Rpc, code: Code, reply: Reply)
    requires Sound(s.c) && Accounted(s) && done in s.entered
    ensures Sound(Effect(s, Complete(done, code, reply)).c) && Accounted(Effect(s, Complete(done, code, reply)))
  {
    assert s.wire[done] + s.entered[done] == Outstanding(s.c, done);
    CompletionClears(s.c, done, code, reply);
  }

  lemma FollowUpAccounted(s: State, t: Tail)
    requires Sound(s.c) && Accounted(s)
    ensures Sound(Effect(s, FollowUp(t)).c) && Accounted(Effect(s, FollowUp(t)))
  {
  }

  lemma TearDownAccounted(s: State)
    requires Sound(s.c) && Accounted(s) && MayTearDown(s)
    ensures Sound(NextStage(s).c) && Accounted(NextStage(s))
  {
  }

  /** The teardown flags and the activity count are not a handler's business. */
  predicate SameFlags(c: Client, d: Client) {
    d.activity == c.activity && d.shuttingDown == c.shuttingDown && d.infoShuttingDown == c.infoShuttingDown
  }

  lemma ConnectionFrame(c: Client)
    ensures SameFlags(c, OnConnectionReceived(c).client)
  {
  }

  lemma DispatchStatsFrame(c: Client)
    ensures SameFlags(c, DispatchStats(c).client)
  {
  }

  lemma ImageFrame(c: Client)
    ensures SameFlags(c, ImageReceived(c).client)
  {
    hide DispatchStats;
    if !c.shuttingDown && c.pump.completed != [] {
      var newest := Newest(c.pump.completed);
      var drained := c.(pump := c.pump.(completed := []));
      DispatchStatsFrame(WithStats(drained.(pump := drained.pump.(lastApplied := newest.serial)), newest.stats));
    }
  }

  lemma StatsFrame(c: Client)
    ensures SameFlags(c, OnStatsReceived(c).client)
  {
    hide DispatchStats;
    if StatsReady(c) {
      DispatchStatsFrame(ApplyStatsResult(c.(intent := c.intent.(pending := None)), c.intent.pending.value));
    }
  }

  lemma ActionFrame(c: Client, a: Action)
    ensures SameFlags(c, Respond(c, a).client)
  {
    if a == Handle(ConnectionReceived) {
      ConnectionFrame(c);
    } else if a == Handle(ImageWaiting) {
      ImageFrame(c);
    } else if a == Handle(StatsReceived) {
      StatsFrame(c);
    }
  }

  lemma CompletionKeepsActivity(c: Client, r: Rpc, code: Code, reply: Reply)
    ensures Completion(c, r, code, reply).client.activity == c.activity
  {
  }

  lemma FollowUpCounted(s: State, t: Tail)
    requires Counted(s) && t in s.tails
    ensures Counted(Effect(s, FollowUp(t)))
  {
    var rest := s.tails - multiset{t};
    assert |s.tails| == |rest| + 1 by {
      assert s.tails == rest + multiset{t};
    }
  }

  /** The activity count is the number of callbacks that have begun and not ended. */
  lemma CountedEffect(s: State, step: Step)
    requires Counted(s) && Enabled(s, step)
    ensures Counted(Effect(s, step))
  {
    match step
    case Act(a) => ActionFrame(s.c, a);
    case Enter(r) =>
    case Complete(r, code, reply) =>
      CompletionKeepsActivity(s.c, r, code, reply);
      assert s.entered == (s.entered - multiset{r}) + multiset{r};
    case FollowUp(t) => FollowUpCounted(s, t);
    case TearDown =>
  }
}
