/** When the credit window is open. The answer is told from the replies that have arrived over a run,
    not from the client's fields. */
module ClientWindow {
  import opened ClientSpec
  import opened ClientMachine
  import opened ClientTransport
  import opened ClientHandshake
  import opened ClientPump
  import opened ClientTheorems

  /** A reply with the given status arrives for a request of the present generation. */
  predicate Arrives(s: State, step: Step, status: ImageStatus) {
    && step.Complete? && step.done.Image? && step.code.Ok? && step.reply.status == status
    && step.done.id in s.c.pump.inflight && s.c.pump.inflight[step.done.id] == s.c.link.connections
  }

  /** Step `j` of the run brought a valid image in the generation of state `i`, and no later step
      before `i` brought the answer that there is no image. */
  ghost predicate OpenedAt(states: seq<State>, steps: seq<Step>, j: nat, i: nat)
    requires j < i < |states| && |states| == |steps| + 1
  {
    && states[j].c.link.connections == states[i].c.link.connections
    && Arrives(states[j], steps[j], ImageValid)
    && forall k | j < k < i :: !Arrives(states[k], steps[k], ImageNone)
  }

  ghost predicate Open(states: seq<State>, steps: seq<Step>, i: nat)
    requires i < |states| && |states| == |steps| + 1
  {
    exists j | 0 <= j < i :: OpenedAt(states, steps, j, i)
  }

  // ---------------------------------------------------------------- single steps

  lemma ActionPrimes(s: State, a: Action)
    requires Sound(s.c) && InHandshake(s) && PumpInv(s)
    ensures var d := Respond(s.c, a).client;
            && d.link.connections >= s.c.link.connections
            && (d.pump.primed <==> d.link.connections == s.c.link.connections && s.c.pump.primed)
  {
    hide ImageReceived, OnStatsReceived, ImagePlease, OnConnectionReceived;
    if !DrivesPump(a) {
      OtherActionsKeepPump(s, a);
      OtherActionsKeepLink(s.c, a);
    } else if a == Handle(ConnectionReceived) {
      ReceivedPump(s.c);
    } else if a == Handle(ImageWaiting) {
      DrainPump(s.c);
    } else if a.Handle? {
      PleaseFills(s.c);
    }
  }

  lemma CompletionPrimes(s: State, r: Rpc, code: Code, reply: Reply)
    requires Accounted(s) && r in s.entered
    ensures var d := Completion(s.c, r, code, reply).client;
            && d.link.connections == s.c.link.connections
            && (d.pump.primed <==>
                  && !Arrives(s, Complete(r, code, reply), ImageNone)
                  && (s.c.pump.primed || Arrives(s, Complete(r, code, reply), ImageValid)))
  {
    assert s.wire[r] + s.entered[r] == Outstanding(s.c, r);
  }

  lemma StepPrimes(s: State, step: Step)
    requires Inv(s) && Enabled(s, step)
    ensures var t := Next(s, step);
            && t.c.link.connections >= s.c.link.connections
            && (t.c.pump.primed <==>
                  && t.c.link.connections == s.c.link.connections
                  && !Arrives(s, step, ImageNone)
                  && (s.c.pump.primed || Arrives(s, step, ImageValid)))
  {
    hide Record, Respond, Completion, Posted, Rest;
    hide Counted, NotifiedOnce;
    match step
    case Act(a) => ActionPrimes(s, a);
    case Enter(r) =>
    case Complete(r, code, reply) => CompletionPrimes(s, r, code, reply);
    case FollowUp(t) => FollowUpKeepsClient(s.c, t);
    case TearDown =>
  }

  // ---------------------------------------------------------------- runs

  lemma {:induction false} ConnectionsNeverFall(states: seq<State>, steps: seq<Step>, j: nat, i: nat)
    requires IsRun(states, steps) && j <= i < |states|
    ensures states[j].c.link.connections <= states[i].c.link.connections
  {
    hide Next, Enabled, Inv, Init;
    if j < i {
      ConnectionsNeverFall(states, steps, j, i - 1);
      RunInv(states, steps, i - 1);
      assert Leads(states[i - 1], steps[i - 1], states[i - 1 + 1]);
      StepPrimes(states[i - 1], steps[i - 1]);
    }
  }

  /** How one more step opens or closes the window. */
  lemma OpenGrows(states: seq<State>, steps: seq<Step>, i: nat)
    requires IsRun(states, steps) && i < |steps|
    ensures Open(states, steps, i + 1) <==>
              && states[i + 1].c.link.connections == states[i].c.link.connections
              && !Arrives(states[i], steps[i], ImageNone)
              && (Open(states, steps, i) || Arrives(states[i], steps[i], ImageValid))
  {
    hide Next, Enabled, Inv, Init, Leads, Arrives;
    var s, t := states[i], states[i + 1];
    if Open(states, steps, i + 1) {
      var j: nat :| j < i + 1 && OpenedAt(states, steps, j, i + 1);
      ConnectionsNeverFall(states, steps, j, i);
      ConnectionsNeverFall(states, steps, i, i + 1);
      if j < i {
        assert OpenedAt(states, steps, j, i);
      } else {
        NotBoth(s, steps[i]);
      }
    }
    if t.c.link.connections == s.c.link.connections && !Arrives(s, steps[i], ImageNone) {
      if Open(states, steps, i) {
        var j: nat :| j < i && OpenedAt(states, steps, j, i);
        assert OpenedAt(states, steps, j, i + 1);
      } else if Arrives(s, steps[i], ImageValid) {
        assert OpenedAt(states, steps, i, i + 1);
      }
    }
  }

  lemma NotBoth(s: State, step: Step)
    ensures !(Arrives(s, step, ImageValid) && Arrives(s, step, ImageNone))
  {
  }

  lemma {:induction false} PrimedWhileOpen(states: seq<State>, steps: seq<Step>, i: nat)
    requires IsRun(states, steps) && i < |states|
    ensures states[i].c.pump.primed <==> Open(states, steps, i)
  {
    hide Next, Enabled, Inv, Arrives, Open, OpenedAt;
    if i > 0 {
      PrimedWhileOpen(states, steps, i - 1);
      RunInv(states, steps, i - 1);
      assert Leads(states[i - 1], steps[i - 1], states[i - 1 + 1]);
      StepPrimes(states[i - 1], steps[i - 1]);
      OpenGrows(states, steps, i - 1);
    } else {
      ClosedAtStart(states, steps);
    }
  }

  lemma ClosedAtStart(states: seq<State>, steps: seq<Step>)
    requires IsRun(states, steps)
    ensures !Open(states, steps, 0)
  {
  }

  /** One run of the handler, with the given number of requests to reach. */
  ghost predicate Fills(s: State, t: State, window: nat) {
    var generation := s.c.link.connections;
    var before := set id | id in s.c.pump.inflight && s.c.pump.inflight[id] == generation;
    var after := set id | id in t.c.pump.inflight && t.c.pump.inflight[id] == generation;
    && before <= after && |after| == (if |before| >= window then |before| else window)
    && t.wire == s.wire + multiset(Requests(after - before))
    && (forall id | id in s.c.pump.inflight ::
          id in t.c.pump.inflight && t.c.pump.inflight[id] == s.c.pump.inflight[id])
  }

  function Requests(ids: set<nat>): set<Rpc> {
    set id | id in ids :: Image(id)
  }

  lemma PleaseFillsWindow(s: State, e: Event)
    requires Sound(s.c) && s.c.link.connected && !s.c.shuttingDown && (e.ImageNeeded? || e.RetryTimer?)
    ensures Fills(s, Next(s, Act(Handle(e))), if s.c.pump.primed then s.c.pump.target else 1)
  {
    hide Sound, Record;
    var c, generation := s.c, s.c.link.connections;
    var o := ImagePlease(c);
    NewRequestsOfGeneration(c);
    var before, after := OfGeneration(c.pump.inflight, generation), OfGeneration(o.client.pump.inflight, generation);
    var added := FreshIds(c.pump.nextId, Credits(c));
    AddedAreFresh(c, added);
    assert after - before == added;
    assert o.rpcs == ImageRpcs(added) == Requests(added);
  }

  lemma AddedAreFresh(c: Client, added: set<nat>)
    requires Sound(c) && added == FreshIds(c.pump.nextId, Credits(c))
    ensures forall id | id in added :: id !in c.pump.inflight
  {
  }

  /** Whenever a connected client asks for images, it ends with as many requests of this generation in
      flight as the window that the user chose if a valid image has arrived in this generation and no
      answer that there is none since, and otherwise with one, unless there were more already. It
      keeps those it had, and hands the others to the transport. */
  lemma RequestsFillTheWindow(states: seq<State>, steps: seq<Step>, i: nat, e: Event)
    requires IsRun(states, steps) && i < |states|
    requires states[i].c.link.connected && !states[i].c.shuttingDown
    requires e.ImageNeeded? || e.RetryTimer?
    ensures Fills(states[i], Next(states[i], Act(Handle(e))),
                  if Open(states, steps, i) then states[i].c.pump.target else 1)
  {
    hide IsRun, Open, Fills, Next;
    RunInv(states, steps, i);
    PrimedWhileOpen(states, steps, i);
    PleaseFillsWindow(states[i], e);
  }

  /** The window is the one that the user asked for, or the nearest that is allowed; a wider one
      leads to more requests. */
  lemma WindowFollowsUser(s: State, window: int)
    ensures var t := Next(s, Act(RequestWindow(window)));
            && 1 <= t.c.pump.target <= 128
            && (1 <= window <= 128 ==> t.c.pump.target == window)
            && (window < 1 ==> t.c.pump.target == 1) && (window > 128 ==> t.c.pump.target == 128)
            && t.c == s.c.(pump := s.c.pump.(target := t.c.pump.target)) && t.wire == s.wire
            && t.qt == s.qt + (if !s.c.shuttingDown && t.c.pump.target > s.c.pump.target then multiset{ImageNeeded}
                               else multiset{})
  {
  }
}
