/** A run in which an error reply stops the image pump of a connected client: such a reply
    posts nothing, and the window of an unprimed pump is one request. */
module ClientStall {
  import opened Wrappers
  import opened GlobalStats
  import opened ClientSpec
  import opened ClientMachine
  import opened ClientPump

  const NO_INTENT := Intent(BLANK, false, false, false, false, false, false, false, false, false, None, false)
  const NO_PUMP := Pump(10, false, 1, map[], [], 0)
  const NO_HISTORY := History(false, false, false, 0, [], [], [])
  const PROBE := Some(ConnectionRequest(Probe, 0, 1, Ok))
  const ERROR_REPLY := Reply(ImageError, 0, None, 0)

  function Snapshot(link: Link, pump: Pump, wire: multiset<Rpc>, entered: multiset<Rpc>,
                    tails: multiset<Tail>, qt: multiset<Event>, h: History): State
  {
    State(Client(link, pump, NO_INTENT, Groups({}, {}, 0), false, false, |entered| + |tails|),
          wire, entered, tails, qt, h, Running)
  }

  const CONNECTED := NO_HISTORY.(live := true, trail := [Reached(Probe, 0, Ok)])
  const LINKED := Link(1, true, None, false)

  /** The run: a successful probe, then one image request answered with an error. */
  function Stage(i: nat): State
    requires i <= 10
  {
    var one := NO_PUMP.(nextId := 2, inflight := map[1 := 1]);
    var none := NO_PUMP.(nextId := 2);
    var waiting := Link(1, false, PROBE, true);
    var answered := Link(1, false, PROBE, false);
    var silenced := CONNECTED.(silenced := true);
    match i
    case 0 => Snapshot(Link(0, false, None, false), NO_PUMP, multiset{}, multiset{}, multiset{}, multiset{}, NO_HISTORY)
    case 1 => Snapshot(waiting, NO_PUMP, multiset{Connect}, multiset{}, multiset{}, multiset{}, NO_HISTORY)
    case 2 => Snapshot(waiting, NO_PUMP, multiset{}, multiset{Connect}, multiset{}, multiset{}, NO_HISTORY)
    case 3 => Snapshot(answered, NO_PUMP, multiset{}, multiset{}, multiset{PostConnection}, multiset{}, NO_HISTORY)
    case 4 =>
      Snapshot(answered, NO_PUMP, multiset{}, multiset{}, multiset{Leave}, multiset{ConnectionReceived}, NO_HISTORY)
    case 5 => Snapshot(LINKED, NO_PUMP, multiset{}, multiset{}, multiset{Leave}, multiset{ImageNeeded}, CONNECTED)
    case 6 => Snapshot(LINKED, one, multiset{Image(1)}, multiset{}, multiset{Leave}, multiset{}, CONNECTED)
    case 7 => Snapshot(LINKED, one, multiset{}, multiset{Image(1)}, multiset{Leave}, multiset{}, CONNECTED)
    case 8 => Snapshot(LINKED, none, multiset{}, multiset{}, multiset{Leave, Leave}, multiset{}, silenced)
    case 9 => Snapshot(LINKED, none, multiset{}, multiset{}, multiset{Leave}, multiset{}, silenced)
    case 10 => Snapshot(LINKED, none, multiset{}, multiset{}, multiset{}, multiset{}, silenced)
  }

  function Move(i: nat): Step
    requires i < 10
  {
    match i
    case 0 => Act(Timer)
    case 1 => Enter(Connect)
    case 2 => Complete(Connect, Ok, ERROR_REPLY)
    case 3 => FollowUp(PostConnection)
    case 4 => Act(Handle(ConnectionReceived))
    case 5 => Act(Handle(ImageNeeded))
    case 6 => Enter(Image(1))
    case 7 => Complete(Image(1), Ok, ERROR_REPLY)
    case 8 => FollowUp(Leave)
    case 9 => FollowUp(Leave)
  }

  lemma ProbeSent()
    ensures Leads(Stage(0), Move(0), Stage(1))
  {
    hide Completion, NextStage, RecordConnection, RecordImage, RecordSend, RecordReply, DispatchUnary;
  }

  lemma ProbeArrives()
    ensures Leads(Stage(1), Move(1), Stage(2))
  {
    hide Respond, Completion, NextStage, RecordConnection, RecordImage, RecordSend, RecordReply;
  }

  lemma ProbeAnswered()
    ensures Leads(Stage(2), Move(2), Stage(3))
  {
    hide Respond, NextStage, RecordConnection, RecordImage, RecordSend, RecordReply;
    hide ImageDone, StatsDone, UnaryDone, EmptyDone;
  }

  lemma NotificationPosted()
    ensures Leads(Stage(3), Move(3), Stage(4))
  {
    hide Respond, Completion, NextStage, RecordConnection, RecordImage, RecordSend, RecordReply;
  }

  lemma Connects()
    ensures Leads(Stage(4), Move(4), Stage(5))
  {
    hide Completion, NextStage, RecordImage, RecordSend, RecordReply;
    hide DispatchConnection, DispatchUnary, DispatchStats, ImageReceived, ImagePlease;
  }

  /** The window of an unprimed pump is one request. */
  lemma FirstRequest()
    ensures ImagePlease(Stage(5).c) == Out(Stage(6).c, {Image(1)}, multiset{})
  {
    hide Respond, Record;
    assert OfGeneration(map[], 1) == {};
    assert FreshIds(1, 1) == {1} by {
      assert FreshId(1, 1, 1);
    }
    assert Tagged({1}, 1) == map[1 := 1];
    assert ImageRpcs({1}) == {Image(1)};
  }

  lemma ImageRequested()
    ensures Leads(Stage(5), Move(5), Stage(6))
  {
    hide Completion, NextStage, RecordConnection, RecordImage, RecordSend, RecordReply, ImagePlease;
    FirstRequest();
  }

  lemma ImageArrives()
    ensures Leads(Stage(6), Move(6), Stage(7))
  {
    hide Respond, Completion, NextStage, RecordConnection, RecordImage, RecordSend, RecordReply;
  }

  lemma ErrorAnswered()
    ensures Leads(Stage(7), Move(7), Stage(8))
  {
    hide Respond, NextStage, RecordConnection, RecordImage, RecordSend, StatsDone, UnaryDone, EmptyDone, ConnectionDone;
  }

  lemma ImageCallbackEnds()
    ensures Leads(Stage(8), Move(8), Stage(9))
  {
    hide Respond, Completion, NextStage, RecordConnection, RecordImage, RecordSend, RecordReply;
  }

  lemma ProbeCallbackEnds()
    ensures Leads(Stage(9), Move(9), Stage(10))
  {
    hide Respond, Completion, NextStage, RecordConnection, RecordImage, RecordSend, RecordReply;
  }

  lemma Moves(i: nat)
    requires i < 10
    ensures Leads(Stage(i), Move(i), Stage(i + 1))
  {
    match i
    case 0 => ProbeSent();
    case 1 => ProbeArrives();
    case 2 => ProbeAnswered();
    case 3 => NotificationPosted();
    case 4 => Connects();
    case 5 => ImageRequested();
    case 6 => ImageArrives();
    case 7 => ErrorAnswered();
    case 8 => ImageCallbackEnds();
    case 9 => ProbeCallbackEnds();
  }

  /** The client ends up connected with nothing in flight, nothing queued and no callback running. */
  lemma ErrorReplyStallsClient() returns (states: seq<State>, steps: seq<Step>)
    ensures IsRun(states, steps)
    ensures var s := states[|states| - 1];
            && s.c.link.connected && !s.c.shuttingDown && !Driven(s)
            && s.wire == s.entered == multiset{} && s.tails == multiset{} && s.qt == multiset{}
  {
    states := seq(11, i requires 0 <= i < 11 => Stage(i));
    steps := seq(10, i requires 0 <= i < 10 => Move(i));
    forall i | 0 <= i < |steps|
      ensures Leads(states[i], steps[i], states[i + 1])
    {
      Moves(i);
    }
    assert OfGeneration(Stage(10).c.pump.inflight, 1) == {};
  }
}
