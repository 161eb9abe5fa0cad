/** Shutdown ends: once both flags are up, the callbacks and the destructor together can take only so
    many more steps, and until the destructor is through one of them can always be taken. */
module ClientDrain {
  import opened ClientMachine
  import opened ClientShutdown
  import opened ClientSpec

  /** The regions a callback has left to run. */
  function Regions(t: Tail): nat {
    match t
    case Leave => 1
    case ReadGeneration => 3
    case PostUnavailable(_) => 3
    case _ => 2
  }

  ghost function AllRegions(tails: multiset<Tail>): nat
    decreases |tails|
  {
    if tails == multiset{} then 0
    else
      var t :| t in tails;
      Regions(t) + AllRegions(tails - multiset{t})
  }

  lemma {:induction false} TakeOut(tails: multiset<Tail>, t: Tail)
    requires t in tails
    ensures AllRegions(tails) == Regions(t) + AllRegions(tails - multiset{t})
    decreases |tails|, 1
  {
    hide Regions;
    var u :| u in tails && AllRegions(tails) == Regions(u) + AllRegions(tails - multiset{u});
    if u != t {
      Exchange(tails, t, u);
    }
  }

  lemma {:induction false} Exchange(tails: multiset<Tail>, t: Tail, u: Tail)
    requires t in tails && u in tails && t != u
    ensures Regions(u) + AllRegions(tails - multiset{u}) == Regions(t) + AllRegions(tails - multiset{t})
    decreases |tails|, 0
  {
    hide Regions, AllRegions;
    TakeOut(tails - multiset{u}, t);
    TakeOut(tails - multiset{t}, u);
    assert tails - multiset{u} - multiset{t} == tails - multiset{t} - multiset{u};
  }

  lemma PutIn(tails: multiset<Tail>, t: Tail)
    ensures AllRegions(tails + multiset{t}) == Regions(t) + AllRegions(tails)
  {
    hide Regions, AllRegions;
    TakeOut(tails + multiset{t}, t);
    assert tails + multiset{t} - multiset{t} == tails;
  }

  /** What is left to do before the destructor is through. */
  ghost function Work(s: State): nat {
    5 * |s.wire| + 4 * |s.entered| + AllRegions(s.tails) + 7 - Rank(s.teardown)
  }

  lemma FollowUpShrinks(s: State, t: Tail)
    requires t in s.tails
    ensures AllRegions(s.tails - multiset{t} + Rest(s.c, t)) == AllRegions(s.tails) - 1
  {
    hide AllRegions;
    var others := s.tails - multiset{t};
    TakeOut(s.tails, t);
    match t
    case Leave => assert others + Rest(s.c, t) == others;
    case ReadGeneration => PutIn(others, Disconnect(s.c.link.connections));
    case PostUnavailable(_) => PutIn(others, PostRetry);
    case _ => PutIn(others, Leave);
  }

  lemma EnterShrinks(s: State, r: Rpc)
    requires r in s.wire
    ensures Work(Next(s, Enter(r))) < Work(s)
  {
    hide AllRegions, Respond, Completion, Posted, Rest, NextStage;
    assert |s.wire - multiset{r}| == |s.wire| - 1;
    assert |s.entered + multiset{r}| == |s.entered| + 1;
  }

  lemma CompleteShrinks(s: State, r: Rpc, code: Code, reply: Reply)
    requires r in s.entered
    ensures Work(Next(s, Complete(r, code, reply))) < Work(s)
  {
    hide AllRegions, Respond, Completion, Posted, Rest, NextStage;
    PutIn(s.tails, Completion(s.c, r, code, reply).tail);
    assert |s.entered - multiset{r}| == |s.entered| - 1;
  }

  lemma FollowUpShrinksWork(s: State, t: Tail)
    requires t in s.tails
    ensures Work(Next(s, FollowUp(t))) < Work(s)
  {
    hide AllRegions, Respond, Completion, Posted, Rest, NextStage;
    FollowUpShrinks(s, t);
  }

  lemma TearDownShrinks(s: State)
    requires MayTearDown(s)
    ensures Work(Next(s, TearDown)) < Work(s)
  {
    hide AllRegions, Respond, Completion, Posted, Rest;
  }

  lemma ActionAddsNothing(s: State, a: Action)
    requires s.c.shuttingDown && s.c.infoShuttingDown
    ensures Work(Next(s, Act(a))) == Work(s)
    ensures Next(s, Act(a)).c.shuttingDown && Next(s, Act(a)).c.infoShuttingDown
  {
    hide AllRegions, Respond, Completion, Posted, Rest, NextStage;
    RefusesAfterFlags(s.c, a);
    assert s.wire + multiset(Respond(s.c, a).rpcs) == s.wire;
  }

  lemma FlagsStayUp(s: State, step: Step)
    requires !step.Act? && s.c.shuttingDown && s.c.infoShuttingDown
    ensures Next(s, step).c.shuttingDown && Next(s, step).c.infoShuttingDown
  {
    hide AllRegions, Respond, Posted, Rest;
  }

  /** Every step of a callback and of the destructor leaves less to do; handlers, which may still run
      between them, leave no more. */
  lemma StepShrinksWork(s: State, step: Step)
    requires Enabled(s, step) && s.c.shuttingDown && s.c.infoShuttingDown
    ensures if step.Act? then Work(Next(s, step)) == Work(s) else Work(Next(s, step)) < Work(s)
    ensures Next(s, step).c.shuttingDown && Next(s, step).c.infoShuttingDown
  {
    hide Work, Next;
    match step
    case Act(a) => ActionAddsNothing(s, a);
    case Enter(r) => EnterShrinks(s, r); FlagsStayUp(s, step);
    case Complete(r, code, reply) => CompleteShrinks(s, r, code, reply); FlagsStayUp(s, step);
    case FollowUp(t) => FollowUpShrinksWork(s, t); FlagsStayUp(s, step);
    case TearDown => TearDownShrinks(s); FlagsStayUp(s, step);
  }

  function NotActions(steps: seq<Step>): nat {
    if steps == [] then 0
    else NotActions(steps[..|steps| - 1]) + if steps[|steps| - 1].Act? then 0 else 1
  }

  /** In any run, the number of steps that callbacks and destructor take after the flags are up is
      bounded by what was left to do then, however many handlers run in between. */
  lemma {:induction false} ShutdownIsBounded(states: seq<State>, steps: seq<Step>, i: nat, j: nat)
    requires IsRun(states, steps) && i <= j < |states|
    requires states[i].c.shuttingDown && states[i].c.infoShuttingDown
    ensures NotActions(steps[i..j]) + Work(states[j]) <= Work(states[i])
    ensures states[j].c.shuttingDown && states[j].c.infoShuttingDown
  {
    hide Work, Next, Init;
    if i < j {
      ShutdownIsBounded(states, steps, i, j - 1);
      assert Leads(states[j - 1], steps[j - 1], states[j - 1 + 1]);
      StepShrinksWork(states[j - 1], steps[j - 1]);
      assert steps[i..j][..j - 1 - i] == steps[i..j - 1];
    }
  }
}
