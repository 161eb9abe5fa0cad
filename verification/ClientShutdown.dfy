/** The destructor: once a stage has been passed nothing of its group comes back, and when the last
    stage is passed no RPC and no callback is left. */
module ClientShutdown {
  import opened ClientSpec
  import opened ClientMachine
  import opened ClientTransport

  ghost predicate Drained(s: State) {
    var stage := Rank(s.teardown);
    && (s.c.shuttingDown <==> stage >= 1)
    && (s.c.infoShuttingDown <==> stage >= 2)
    && (stage >= 3 ==> !s.c.link.rpcPending && s.c.link.pending.None?)
    && (stage >= 4 ==> s.c.pump.inflight == map[])
    && (stage >= 5 ==> forall k | k in s.c.groups.slots :: !InfoSlot(k))
    && (stage >= 6 ==> s.c.groups.slots == {} && !s.c.intent.rpcPending && s.c.groups.emptyPending == 0)
    && (stage == 7 ==> s.c.activity == 0)
  }

  /** Once the first flag is up no handler dispatches anything but an info request or touches another
      pending entry; once both are up none dispatches anything. */
  lemma RefusesAfterFlags(c: Client, a: Action)
    requires c.shuttingDown
    ensures var o := Respond(c, a);
            && o.client.link == c.link && o.client.pump.inflight == c.pump.inflight
            && o.client.intent.rpcPending == c.intent.rpcPending
            && o.client.groups.emptyPending == c.groups.emptyPending
            && o.client.shuttingDown && o.client.infoShuttingDown == c.infoShuttingDown
            && o.client.activity == c.activity
            && (forall r | r in o.rpcs :: r.Unary? && InfoSlot(r.slot))
            && o.client.groups.contexts == c.groups.contexts && c.groups.slots <= o.client.groups.slots
            && (forall k | k in o.client.groups.slots && k !in c.groups.slots :: InfoSlot(k))
            && (c.infoShuttingDown ==> o.rpcs == {} && o.client.groups == c.groups)
  {
  }

  /** Completions only ever shrink what is pending. */
  lemma CompletionShrinks(c: Client, r: Rpc, code: Code, reply: Reply)
    ensures var d := Completion(c, r, code, reply).client;
            && d.link.connections == c.link.connections
            && (d.link.rpcPending ==> c.link.rpcPending)
            && (c.link.pending.None? ==> d.link.pending.None?)
            && d.pump.inflight.Keys <= c.pump.inflight.Keys && d.pump.nextId == c.pump.nextId
            && (d.intent.rpcPending ==> c.intent.rpcPending)
            && d.groups.slots <= c.groups.slots && d.groups.emptyPending <= c.groups.emptyPending
            && d.shuttingDown == c.shuttingDown && d.infoShuttingDown == c.infoShuttingDown
            && d.activity == c.activity
  {
  }

  /** With every group drained and no activity there is no RPC and no callback. */
  lemma GoneMeansNothingLeft(s: State)
    requires Sound(s.c) && Accounted(s) && Counted(s) && Drained(s) && s.teardown == Gone
    ensures s.wire == s.entered == multiset{} && s.tails == multiset{}
  {
    assert s.c.groups.contexts == {};
    forall r
      ensures r !in s.wire && r !in s.entered
    {
      assert s.wire[r] + s.entered[r] == Outstanding(s.c, r);
    }
    assert s.wire == multiset{} && s.entered == multiset{};
    assert |s.tails| == 0;
  }

  lemma FollowUpKeepsDrained(s: State, t: Tail)
    requires Drained(s) && s.teardown != Gone
    ensures Drained(Effect(s, FollowUp(t)))
  {
  }

  lemma ActKeepsDrained(s: State, a: Action)
    requires Drained(s)
    ensures Drained(Effect(s, Act(a)))
  {
    if s.c.shuttingDown {
      RefusesAfterFlags(s.c, a);
    } else {
      ActionFrame(s.c, a);
    }
  }

  lemma DrainedEffect(s: State, step: Step)
    requires Sound(s.c) && Accounted(s) && Counted(s) && Drained(s) && Enabled(s, step)
    ensures Drained(Effect(s, step))
  {
    if s.teardown == Gone {
      GoneMeansNothingLeft(s);
    }
    match step
    case Act(a) => ActKeepsDrained(s, a);
    case Enter(r) => assert s.teardown != Gone;
    case Complete(r, code, reply) => CompletionKeepsDrained(s, r, code, reply);
    case FollowUp(t) => FollowUpKeepsDrained(s, t);
    case TearDown => TearDownKeepsDrained(s);
  }

  lemma CompletionKeepsDrained(s: State, r: Rpc, code: Code, reply: Reply)
    requires Drained(s)
    ensures Drained(Effect(s, Complete(r, code, reply)))
  {
    CompletionShrinks(s.c, r, code, reply);
  }

  lemma TearDownKeepsDrained(s: State)
    requires Drained(s) && MayTearDown(s)
    ensures Drained(NextStage(s))
  {
  }
}
