/** One session from its first step to its last: that what BackgroundRunner proves of every interleaving does happen. */
module BackgroundExample {
  import opened Prelude
  import Broadcast
  import opened BackgroundRunner

  type Event = Broadcast.Event

  /** Two readers' session around one run that publishes one event and fails. */
  function JoinSteps(): seq<Step> { [Count(1, 1), Register(1, 1), Find(7), ReadHistory(7), Join(7)] }

  function SendSteps(event: Event): seq<Step> {
    [OnBus(1, Broadcast.BeginPublish(event))]
      + ([OnBus(1, Broadcast.Send(0))] + ([OnBus(1, Broadcast.Send(1))] + ([OnBus(1, Broadcast.EndPublish)] + [])))
  }

  function PublishSteps(event: Event): seq<Step> {
    [Store(event)] + (SendSteps(event) + ([OnBus(1, Broadcast.Close(Some("failed")))] + []))
  }

  function EndSteps(): seq<Step> {
    [Find(8)] + ([ReadHistory(8)] + ([Join(8)] + ([OnBus(1, Broadcast.Receive(1))] + ([RemoveActive] + []))))
  }

  /** A session in which reader 7 has joined the run live, behind its caller's own channel. */
  function JoinedSession(first: Event): Session {
    var bus := Broadcast.Bus([], {0, 1}, 2, false, None,
      map[0 := Broadcast.Channel(0, [], [], false), 1 := Broadcast.Channel(0, [], [], false)], Broadcast.Idle);
    Session([first], Some(1), map[1 := ActiveRun(bus, 1, 1)], map[1 := 1], map[7 := Live(1, [first], 1)])
  }

  /** The run's bus with its caller's channel. */
  function CallerBus(): Broadcast.Bus {
    Broadcast.Bus([], {0}, 1, false, None, map[0 := Broadcast.Channel(0, [], [], false)], Broadcast.Idle)
  }

  lemma JoinBus(first: Event)
    ensures Broadcast.Next(Broadcast.EMPTY_BUS, Broadcast.Subscribe) == CallerBus()
    ensures Broadcast.Next(CallerBus(), Broadcast.Replay) == JoinedSession(first).runs[1].bus
  {
    assert {0} + {1} == {0, 1};
  }

  lemma JoinStepsRun(first: Event)
    ensures Possible(Start([first]), JoinSteps()) && Run(Start([first]), JoinSteps()) == JoinedSession(first)
  {
    JoinBus(first);
    var s1 := Next(Start([first]), Count(1, 1));
    var s2 := Next(s1, Register(1, 1));
    assert s2 == Session([first], Some(1), map[1 := ActiveRun(CallerBus(), 1, 1)], map[1 := 1], map[]);
    var s4 := Next(Next(s2, Find(7)), ReadHistory(7));
    assert s4 == s2.(readers := map[7 := HistoryRead(1, [first])]);
    assert Next(s4, Join(7)) == JoinedSession(first);
    var steps := JoinSteps();
    assert steps[1..][1..][1..][1..][1..] == [];
  }

  /** The same session once the event is stored and published, and its run's bus is closed with an error. */
  function ClosedSession(first: Event, event: Event): Session {
    var bus := Broadcast.Bus([event], {}, 2, true, Some("failed"),
      map[0 := Broadcast.Channel(0, [], [event], true), 1 := Broadcast.Channel(0, [], [event], true)], Broadcast.Idle);
    JoinedSession(first).(stored := [first, event], runs := map[1 := ActiveRun(bus, 1, 1)])
  }

  /** The run's bus as the event goes out: begun, sent to one, to both, and ended. */
  function BusBegun(event: Event): Broadcast.Bus {
    JoinedSession(event).runs[1].bus.(buffer := [event], sending := Broadcast.Sending(event, {0, 1}))
  }

  function BusSent(event: Event): Broadcast.Bus {
    BusBegun(event).(sending := Broadcast.Idle,
      channels := map[0 := Broadcast.Channel(0, [], [event], false), 1 := Broadcast.Channel(0, [], [event], false)])
  }

  lemma PublishBus(event: Event)
    ensures Broadcast.Next(JoinedSession(event).runs[1].bus, Broadcast.BeginPublish(event)) == BusBegun(event)
    ensures Broadcast.Enabled(BusBegun(event), Broadcast.Send(0))
    ensures var one := Broadcast.Next(BusBegun(event), Broadcast.Send(0));
      Broadcast.Enabled(one, Broadcast.Send(1))
      && var two := Broadcast.Next(one, Broadcast.Send(1));
        Broadcast.Enabled(two, Broadcast.EndPublish) && Broadcast.Next(two, Broadcast.EndPublish) == BusSent(event)
    ensures Broadcast.Next(BusSent(event), Broadcast.Close(Some("failed"))) == ClosedSession(event, event).runs[1].bus
  {
    var none, sent, shut := Broadcast.Channel(0, [], [], false), Broadcast.Channel(0, [], [event], false),
      Broadcast.Channel(0, [], [event], true);
    assert [] + [event] == [event];
    assert {0, 1} - {0} == {1} && {1} - {1} == {};
    var one := Broadcast.Next(BusBegun(event), Broadcast.Send(0));
    assert one == BusBegun(event).(channels := map[0 := sent, 1 := none], sending := Broadcast.Sending(event, {1}));
    var two := Broadcast.Next(one, Broadcast.Send(1));
    assert two == one.(channels := map[0 := sent, 1 := sent], sending := Broadcast.Sending(event, {}));
    assert Broadcast.Next(BusSent(event), Broadcast.Close(Some("failed"))).channels == map[0 := shut, 1 := shut];
  }

  lemma OnBusAgain(s: Session, a: Broadcast.Bus, b: Broadcast.Bus)
    requires 1 in s.runs
    ensures WithBus(WithBus(s, 1, a), 1, b) == WithBus(s, 1, b)
  {
    assert s.runs[1 := s.runs[1].(bus := a)][1 := s.runs[1].(bus := b)] == s.runs[1 := s.runs[1].(bus := b)];
  }

  /** The run's bus is the joined one and goes through a publication. */
  lemma SendStepsRun(s: Session, event: Event)
    requires 1 in s.runs && s.runs[1].bus == JoinedSession(event).runs[1].bus
    ensures Possible(s, SendSteps(event)) && Run(s, SendSteps(event)) == WithBus(s, 1, BusSent(event))
  {
    PublishBus(event);
    var one := Broadcast.Next(BusBegun(event), Broadcast.Send(0));
    var two := Broadcast.Next(one, Broadcast.Send(1));
    OnBusAgain(s, BusBegun(event), one);
    OnBusAgain(s, one, two);
    OnBusAgain(s, two, BusSent(event));
    var r3 := [OnBus(1, Broadcast.EndPublish)] + [];
    OneStep(WithBus(s, 1, two), OnBus(1, Broadcast.EndPublish), []);
    OneStep(WithBus(s, 1, one), OnBus(1, Broadcast.Send(1)), r3);
    OneStep(WithBus(s, 1, BusBegun(event)), OnBus(1, Broadcast.Send(0)), [OnBus(1, Broadcast.Send(1))] + r3);
    OneStep(s, OnBus(1, Broadcast.BeginPublish(event)),
      [OnBus(1, Broadcast.Send(0))] + ([OnBus(1, Broadcast.Send(1))] + r3));
  }

  lemma CloseStepRuns(first: Event, event: Event, s: Session)
    requires s == JoinedSession(first).(stored := [first, event])
    ensures var sent := WithBus(s, 1, BusSent(event));
      && Possible(sent, [OnBus(1, Broadcast.Close(Some("failed")))] + [])
      && Run(sent, [OnBus(1, Broadcast.Close(Some("failed")))] + []) == ClosedSession(first, event)
  {
    PublishBus(event);
    var shut := ClosedSession(first, event).runs[1].bus;
    OnBusAgain(s, BusSent(event), shut);
    assert WithBus(s, 1, shut) == ClosedSession(first, event);
    OneStep(WithBus(s, 1, BusSent(event)), OnBus(1, Broadcast.Close(Some("failed"))), []);
  }

  lemma PublishStepsRun(first: Event, event: Event)
    ensures Possible(JoinedSession(first), PublishSteps(event))
    ensures Run(JoinedSession(first), PublishSteps(event)) == ClosedSession(first, event)
  {
    var s1, close := Next(JoinedSession(first), Store(event)), [OnBus(1, Broadcast.Close(Some("failed")))] + [];
    assert s1.stored == [first, event];
    SendStepsRun(s1, event);
    CloseStepRuns(first, event, s1);
    RunConcat(s1, SendSteps(event), close);
    OneStep(JoinedSession(first), Store(event), SendSteps(event) + close);
  }

  /** Reader 7 has drained its channel, reader 8 has come to the closed bus, and the run is gone. */
  function EndedSession(first: Event, event: Event): Session {
    var closed := ClosedSession(first, event);
    var bus := closed.runs[1].bus.(channels :=
      map[0 := Broadcast.Channel(0, [], [event], true), 1 := Broadcast.Channel(0, [event], [], true)]);
    closed.(active := None, runs := map[1 := ActiveRun(bus, 1, 1)],
      readers := map[7 := Live(1, [first], 1), 8 := Replayed(1, [first], [event], Some("failed"))])
  }

  lemma DrainBus(first: Event, event: Event)
    ensures var bus := ClosedSession(first, event).runs[1].bus;
      && Broadcast.Enabled(bus, Broadcast.Receive(1))
      && Broadcast.Next(bus, Broadcast.Receive(1)) == EndedSession(first, event).runs[1].bus
  {
    var bus := ClosedSession(first, event).runs[1].bus;
    assert [] + [event] == [event] && [event][1..] == [];
    assert Broadcast.Next(bus, Broadcast.Receive(1)).channels == EndedSession(first, event).runs[1].bus.channels;
  }

  /** Reader 8 finds the run, reads the counted history and comes to the closed bus. */
  lemma ReplayStepsRun(first: Event, event: Event)
    ensures var s0 := ClosedSession(first, event);
      && Enabled(s0, Find(8)) && Enabled(Next(s0, Find(8)), ReadHistory(8))
      && Enabled(Next(Next(s0, Find(8)), ReadHistory(8)), Join(8))
      && Next(Next(Next(s0, Find(8)), ReadHistory(8)), Join(8)) ==
           s0.(readers := EndedSession(first, event).readers)
  {
    var s0 := ClosedSession(first, event);
    var s2 := Next(Next(s0, Find(8)), ReadHistory(8));
    assert [first, event][..1] == [first];
    assert WithBus(s2, 1, s0.runs[1].bus).runs == s0.runs;
    assert Next(s2, Join(8)).readers == EndedSession(first, event).readers;
  }

  lemma EndStepsRun(first: Event, event: Event)
    ensures Possible(ClosedSession(first, event), EndSteps())
    ensures Run(ClosedSession(first, event), EndSteps()) == EndedSession(first, event)
  {
    var s0 := ClosedSession(first, event);
    ReplayStepsRun(first, event);
    var s1 := Next(s0, Find(8));
    var s2 := Next(s1, ReadHistory(8));
    var s3 := Next(s2, Join(8));
    DrainBus(first, event);
    var s4 := Next(s3, OnBus(1, Broadcast.Receive(1)));
    assert s4.runs == EndedSession(first, event).runs;
    OneStep(s4, RemoveActive, []);
    var r4 := [RemoveActive] + [];
    OneStep(s3, OnBus(1, Broadcast.Receive(1)), r4);
    var r3 := [OnBus(1, Broadcast.Receive(1))] + r4;
    OneStep(s2, Join(8), r3);
    OneStep(s1, ReadHistory(8), [Join(8)] + r3);
    OneStep(s0, Find(8), [ReadHistory(8)] + ([Join(8)] + r3));
  }

  /**
   * A whole session happens: a reader that joined while the run was live and one that came when its bus was closed both
   * finish, with the counted history, the run's event and the run's error.
   */
  lemma WholeRunExample(first: Event, event: Event)
    ensures var steps := JoinSteps() + (PublishSteps(event) + EndSteps());
      Possible(Start([first]), steps)
      && var end := Run(Start([first]), steps);
        && end.active == None && 7 in end.readers && end.readers[7].Live? && 8 in end.readers
          && end.readers[8].Replayed?
        && forall reader | reader == 7 || reader == 8 ::
             var r := end.readers[reader];
             ReaderOk(end, r) && Finished(end, r) && Output(end, r) == [first, event]
               && EndError(end, r) == Some("failed")
  {
    JoinStepsRun(first);
    PublishStepsRun(first, event);
    EndStepsRun(first, event);
    RunConcat(JoinedSession(first), PublishSteps(event), EndSteps());
    RunConcat(Start([first]), JoinSteps(), PublishSteps(event) + EndSteps());
    assert EndedSession(first, event).stored[..1] == [first] && [first] + [event] == [first, event];
  }
}
