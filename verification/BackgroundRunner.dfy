/**
 * One session of runtime/internal/background_runner.go: competing runs, the history the underlying runner stores, and
 * readers that splice the stored prefix with a run's bus. Every step takes one lock or touches one store.
 */
module BackgroundRunner {
  import opened Prelude
  import opened Broadcast

  /** A run that entered the active table. `base` records how long the history was then. */
  datatype ActiveRun = ActiveRun(bus: Bus, preRunEventCount: nat, base: nat)

  /** A reader's progress: it has found an active run, then read the capped history, then joined the bus. */
  datatype Reader =
    | Found(run: int)
    | HistoryRead(run: int, prefix: seq<Event>)
    | Live(run: int, prefix: seq<Event>, channel: int)
    | Replayed(run: int, prefix: seq<Event>, snapshot: seq<Event>, err: Option<string>)

  datatype Session = Session(
    stored: seq<Event>,
    active: Option<int>,
    runs: map<int, ActiveRun>,
    counted: map<int, nat>,
    readers: map<int, Reader>)

  datatype Step =
    | Count(caller: int, n: nat)
    | Register(caller: int, run: int)
    | Store(event: Event)
    | OnBus(run: int, step: Broadcast.Step)
    | RemoveActive
    | Find(reader: int)
    | ReadHistory(reader: int)
    | Join(reader: int)

  predicate Enabled(s: Session, step: Step) {
    match step
    case Count(_, n) => n <= |s.stored|
    case Register(caller, run) => caller in s.counted && s.active.None? && run !in s.runs
    case Store(_) => s.active.Some? && s.active.value in s.runs && !s.runs[s.active.value].bus.closed
    case OnBus(run, step) => run in s.runs && Broadcast.Enabled(s.runs[run].bus, step)
    case RemoveActive => s.active.Some? && s.active.value in s.runs && s.runs[s.active.value].bus.closed
    case Find(reader) => s.active.Some? && reader !in s.readers
    case ReadHistory(reader) => reader in s.readers && s.readers[reader].Found? && s.readers[reader].run in s.runs
    case Join(reader) =>
      && reader in s.readers && s.readers[reader].HistoryRead? && s.readers[reader].run in s.runs
      && s.runs[s.readers[reader].run].bus.sending.Idle?
  }

  function WithBus(s: Session, run: int, bus: Bus): Session
    requires run in s.runs
  {
    s.(runs := s.runs[run := s.runs[run].(bus := bus)])
  }

  function Next(s: Session, step: Step): Session
    requires Enabled(s, step)
  {
    match step
    case Count(caller, n) => s.(counted := s.counted[caller := n])
    case Register(caller, run) =>
      // The registering caller subscribes before the run starts.
      s.(active := Some(run),
         runs := s.runs[run := ActiveRun(Broadcast.Next(EMPTY_BUS, Subscribe), s.counted[caller], |s.stored|)])
    case Store(event) => s.(stored := s.stored + [event])
    case OnBus(run, step) => WithBus(s, run, Broadcast.Next(s.runs[run].bus, step))
    case RemoveActive => s.(active := None)
    case Find(reader) => s.(readers := s.readers[reader := Found(s.active.value)])
    case ReadHistory(reader) =>
      var run := s.readers[reader].run;
      s.(readers := s.readers[reader := HistoryRead(run, MaterializedPrefix(s.stored, s.runs[run].preRunEventCount))])
    case Join(reader) =>
      var HistoryRead(run, prefix) := s.readers[reader];
      var bus := s.runs[run].bus;
      WithBus(s, run, Broadcast.Next(bus, Replay)).(
        readers := s.readers[reader :=
          if bus.closed then Replayed(run, prefix, bus.buffer, bus.finalErr) else Live(run, prefix, bus.nextId)])
  }

  predicate Can(s: Session, step: Step) { Enabled(s, step) }

  predicate Takes(s: Session, step: Step, t: Session) { Enabled(s, step) && t == Next(s, step) }

  // ---------- The prefix ----------

  function MaterializedPrefix(events: seq<Event>, n: int): seq<Event> {
    if n <= 0 then [] else if n >= |events| then events else events[..n]
  }

  /** runtime/internal/background_runner.go:220-235; the stream ends where its first error stands. */
  method MaterializePrefix(events: seq<Event>, n: int) returns (out: seq<Event>)
    ensures out == MaterializedPrefix(events, n)
  {
    out := [];
    if n <= 0 {
      return;
    }
    for i := 0 to |events|
      invariant out == events[..i] && i < n
    {
      out := out + [events[i]];
      if |out| >= n {
        return;
      }
    }
  }

  /** Events and then an error, or the end. */
  datatype Events = Events(events: seq<Event>, err: Option<string>)

  /** runtime/internal/background_runner.go:239-262: all of the first, then all of the second, up to the first error. */
  method ChainIters(first: Events, second: Events) returns (out: Events)
    ensures out == if first.err.Some? then first else Events(first.events + second.events, second.err)
  {
    var yielded := [];
    for i := 0 to |first.events|
      invariant yielded == first.events[..i]
    {
      yielded := yielded + [first.events[i]];
    }
    if first.err.Some? {
      return Events(yielded, first.err);
    }
    for i := 0 to |second.events|
      invariant yielded == first.events + second.events[..i]
    {
      yielded := yielded + [second.events[i]];
    }
    return Events(yielded, second.err);
  }

  /**
   * The table of active runs, one entry a session, as its two locked sections change it. `runs` are the runs the
   * entries have pointed to; their readers hold on to them.
   */
  class BackgroundRunner {
    var activeRuns: map<string, int>
    var runs: map<int, ActiveRun>
    var nextRun: int

    constructor ()
      ensures Valid() && activeRuns == map[] && runs == map[]
    {
      activeRuns, runs, nextRun := map[], map[], 0;
    }

    ghost predicate Valid() reads this {
      (forall run | run in runs :: run < nextRun)
        && (forall session | session in activeRuns :: activeRuns[session] in runs)
    }

    /** A session as the model sees it; the rest of it is none of this object's concern. */
    ghost function State(session: string, rest: Session): Session reads this {
      rest.(active := if session in activeRuns then Some(activeRuns[session]) else None, runs := runs)
    }

    /** The other sessions have their active runs as before. */
    twostate predicate OthersKept(session: string) reads this {
      forall other | other != session ::
        && (other in activeRuns <==> other in old(activeRuns))
        && (other in activeRuns ==> activeRuns[other] == old(activeRuns)[other])
    }

    /**
     * runtime/internal/background_runner.go:75-97: the Register step of the session for the caller that has counted,
     * and refused while the session has an active run.
     */
    method Enter(session: string, count: nat, base: nat, ghost caller: int, ghost rest: Session)
      returns (entered: bool, run: int)
      requires Valid() && caller in rest.counted && rest.counted[caller] == count && base == |rest.stored|
      modifies this
      ensures Valid() && entered == (old(State(session, rest)).active == None)
      ensures entered ==> Takes(old(State(session, rest)), Register(caller, run), State(session, rest))
      ensures !entered ==> State(session, rest) == old(State(session, rest))
      ensures !entered ==> forall other: int :: !Can(old(State(session, rest)), Register(caller, other))
      ensures OthersKept(session)
    {
      if session in activeRuns {
        return false, 0;
      }
      run := nextRun;
      nextRun := nextRun + 1;
      runs := runs[run := ActiveRun(Broadcast.Next(EMPTY_BUS, Subscribe), count, base)];
      activeRuns := activeRuns[session := run];
      return true, run;
    }

    /** runtime/internal/background_runner.go:131-135, behind the close of the run's bus: the RemoveActive step. */
    method RemoveActiveRun(session: string, ghost rest: Session)
      requires Valid() && Can(State(session, rest), RemoveActive)
      modifies this
      ensures Valid() && Takes(old(State(session, rest)), RemoveActive, State(session, rest))
      ensures OthersKept(session)
    {
      activeRuns := activeRuns - {session};
    }
  }

  // ---------- What holds in every session ----------

  ghost predicate Inv(s: Session) {
    && (s.active.Some? ==> s.active.value in s.runs)
    && (forall caller | caller in s.counted :: s.counted[caller] <= |s.stored|)
    && (forall run | run in s.runs ::
          Broadcast.Inv(s.runs[run].bus) && s.runs[run].preRunEventCount <= s.runs[run].base <= |s.stored|)
    && (forall reader | reader in s.readers :: ReaderOk(s, s.readers[reader]))
  }

  ghost predicate ReaderOk(s: Session, r: Reader) {
    && r.run in s.runs
    && var run := s.runs[r.run];
       && run.preRunEventCount <= |s.stored|
       && (!r.Found? ==> r.prefix == s.stored[..run.preRunEventCount])
       && (r.Live? ==> r.channel in run.bus.channels && run.bus.channels[r.channel].from == 0)
       && (r.Replayed? ==> run.bus.closed && r.snapshot == run.bus.buffer && r.err == run.bus.finalErr)
  }

  lemma BusStepKeepsReader(b: Bus, step: Broadcast.Step, id: int)
    requires Broadcast.Inv(b) && Broadcast.Enabled(b, step) && id in b.channels
    ensures var n := Broadcast.Next(b, step);
      Broadcast.Inv(n) && id in n.channels && n.channels[id].from == b.channels[id].from
  {
    StepKeeps(b, step);
  }

  lemma WithBusKeeps(s: Session, run: int, step: Broadcast.Step)
    requires Inv(s) && run in s.runs && Broadcast.Enabled(s.runs[run].bus, step)
    ensures Inv(WithBus(s, run, Broadcast.Next(s.runs[run].bus, step)))
  {
    var n := WithBus(s, run, Broadcast.Next(s.runs[run].bus, step));
    StepKeeps(s.runs[run].bus, step);
    forall reader | reader in n.readers ensures ReaderOk(n, n.readers[reader]) {
      assert ReaderOk(s, s.readers[reader]);
      if n.readers[reader].Live? && n.readers[reader].run == run {
        BusStepKeepsReader(s.runs[run].bus, step, n.readers[reader].channel);
      }
    }
  }

  lemma JoinKeeps(s: Session, reader: int)
    requires Inv(s) && Enabled(s, Join(reader))
    ensures Inv(Next(s, Join(reader)))
  {
    var HistoryRead(run, prefix) := s.readers[reader];
    assert ReaderOk(s, s.readers[reader]);
    WithBusKeeps(s, run, Replay);
    var m := WithBus(s, run, Broadcast.Next(s.runs[run].bus, Replay));
    var n := Next(s, Join(reader));
    assert ReaderOk(m, s.readers[reader]);
    forall r | r in n.readers ensures ReaderOk(n, n.readers[r]) {
      if r != reader {
        assert ReaderOk(m, m.readers[r]);
      }
    }
  }

  lemma StoreKeeps(s: Session, event: Event)
    requires Inv(s) && Enabled(s, Store(event))
    ensures Inv(Next(s, Store(event)))
  {
    var n := Next(s, Store(event));
    forall r | r in n.readers ensures ReaderOk(n, n.readers[r]) {
      assert ReaderOk(s, s.readers[r]);
      var count := s.runs[s.readers[r].run].preRunEventCount;
      assert n.stored[..count] == s.stored[..count];
    }
  }

  lemma RegisterKeeps(s: Session, caller: int, run: int)
    requires Inv(s) && Enabled(s, Register(caller, run))
    ensures Inv(Next(s, Register(caller, run)))
  {
    var n := Next(s, Register(caller, run));
    StepKeeps(EMPTY_BUS, Subscribe);
    forall r | r in n.readers ensures ReaderOk(n, n.readers[r]) {
      assert ReaderOk(s, s.readers[r]);
    }
  }

  lemma ReadHistoryKeeps(s: Session, reader: int)
    requires Inv(s) && Enabled(s, ReadHistory(reader))
    ensures Inv(Next(s, ReadHistory(reader)))
  {
    var n := Next(s, ReadHistory(reader));
    assert ReaderOk(s, s.readers[reader]);
    forall r | r in n.readers ensures ReaderOk(n, n.readers[r]) {
      if r != reader {
        assert ReaderOk(s, s.readers[r]);
      }
    }
  }

  lemma OtherStepKeeps(s: Session, step: Step)
    requires Inv(s) && Enabled(s, step) && (step.Count? || step.RemoveActive? || step.Find?)
    ensures Inv(Next(s, step))
  {
    var n := Next(s, step);
    forall r | r in n.readers ensures ReaderOk(n, n.readers[r]) {
      if r in s.readers && !(step.Find? && step.reader == r) {
        assert ReaderOk(s, s.readers[r]);
      }
    }
  }

  lemma StepKeepsSession(s: Session, step: Step)
    requires Inv(s) && Enabled(s, step)
    ensures Inv(Next(s, step))
  {
    match step
    case Count(_, _) => OtherStepKeeps(s, step);
    case Register(caller, run) => RegisterKeeps(s, caller, run);
    case Store(event) => StoreKeeps(s, event);
    case OnBus(run, busStep) => WithBusKeeps(s, run, busStep);
    case RemoveActive => OtherStepKeeps(s, step);
    case Find(_) => OtherStepKeeps(s, step);
    case ReadHistory(reader) => ReadHistoryKeeps(s, reader);
    case Join(reader) => JoinKeeps(s, reader);
  }

  // ---------- Every interleaving ----------

  predicate Possible(s: Session, steps: seq<Step>)
    decreases |steps|
  {
    steps == [] || (Enabled(s, steps[0]) && Possible(Next(s, steps[0]), steps[1..]))
  }

  function Run(s: Session, steps: seq<Step>): Session
    requires Possible(s, steps)
    decreases |steps|
  {
    if steps == [] then s else Run(Next(s, steps[0]), steps[1..])
  }

  function Start(history: seq<Event>): Session { Session(history, None, map[], map[], map[]) }

  /** The history only grows, and a run keeps what it recorded on entering. */
  predicate Extends(s: Session, t: Session) {
    && s.stored <= t.stored
    && forall run | run in s.runs ::
         && run in t.runs && t.runs[run].preRunEventCount == s.runs[run].preRunEventCount
         && t.runs[run].base == s.runs[run].base
  }

  lemma StepExtends(s: Session, step: Step)
    requires Enabled(s, step)
    ensures Extends(s, Next(s, step))
  {
  }

  lemma {:induction false} RunKeepsSession(s: Session, steps: seq<Step>)
    requires Inv(s) && Possible(s, steps)
    ensures Inv(Run(s, steps)) && Extends(s, Run(s, steps))
    decreases |steps|
  {
    if steps != [] {
      StepKeepsSession(s, steps[0]);
      StepExtends(s, steps[0]);
      RunKeepsSession(Next(s, steps[0]), steps[1..]);
    }
  }

  /** What a reader has yielded. */
  function Output(s: Session, r: Reader): seq<Event>
    requires r.run in s.runs && (r.Live? ==> r.channel in s.runs[r.run].bus.channels)
  {
    match r
    case Found(_) => []
    case HistoryRead(_, prefix) => prefix
    case Live(run, prefix, channel) => prefix + s.runs[run].bus.channels[channel].received
    case Replayed(_, prefix, snapshot, _) => prefix + snapshot
  }

  /** The reader has drained a closed channel, or replayed a closed bus. */
  predicate Finished(s: Session, r: Reader)
    requires r.run in s.runs && (r.Live? ==> r.channel in s.runs[r.run].bus.channels)
  {
    r.Replayed? || (r.Live? && var c := s.runs[r.run].bus.channels[r.channel]; c.closed && c.queue == [])
  }

  /** A reader has yielded a prefix of the counted history and the run's buffer, and all of it once it is finished. */
  lemma ReaderOutput(s: Session, reader: int)
    requires Inv(s) && reader in s.readers
    ensures var r := s.readers[reader];
      && r.run in s.runs && (r.Live? ==> r.channel in s.runs[r.run].bus.channels)
      && var run := s.runs[r.run];
         && run.preRunEventCount <= run.base <= |s.stored|
         && Output(s, r) <= s.stored[..run.preRunEventCount] + run.bus.buffer
         && (Finished(s, r) ==> Output(s, r) == s.stored[..run.preRunEventCount] + run.bus.buffer)
  {
    var r := s.readers[reader];
    assert ReaderOk(s, r);
    var run := s.runs[r.run];
    if r.Live? {
      var c := run.bus.channels[r.channel];
      assert ChannelOk(run.bus, r.channel);
      assert run.bus.buffer[0..] == run.bus.buffer;
      assert c.received <= Stream(c);
      if c.queue == [] {
        assert Stream(c) == c.received;
      }
    }
  }

  /** The same over every interleaving from any history. */
  lemma ReaderSeesPrefixThenRun(history: seq<Event>, steps: seq<Step>, reader: int)
    requires Possible(Start(history), steps)
    requires reader in Run(Start(history), steps).readers
    ensures var s := Run(Start(history), steps);
      var r := s.readers[reader];
      && Inv(s) && r.run in s.runs && (r.Live? ==> r.channel in s.runs[r.run].bus.channels)
      && var run := s.runs[r.run];
         && run.preRunEventCount <= run.base <= |s.stored|
         && Output(s, r) <= s.stored[..run.preRunEventCount] + run.bus.buffer
         && (Finished(s, r) ==> Output(s, r) == s.stored[..run.preRunEventCount] + run.bus.buffer)
  {
    RunKeepsSession(Start(history), steps);
    ReaderOutput(Run(Start(history), steps), reader);
  }

  /** How many events some steps store. */
  function Stores(steps: seq<Step>): nat {
    if steps == [] then 0 else (if steps[0].Store? then 1 else 0) + Stores(steps[1..])
  }

  lemma {:induction false} NoStores(steps: seq<Step>)
    ensures Stores(steps) == 0 <==> forall step | step in steps :: !step.Store?
  {
    if steps != [] {
      NoStores(steps[1..]);
      assert steps == [steps[0]] + steps[1..];
    }
  }

  /** Steps in which a caller does not count again. */
  predicate NoRecount(steps: seq<Step>, caller: int) {
    forall step | step in steps :: !(step.Count? && step.caller == caller)
  }

  lemma {:induction false} StoredGrows(s: Session, steps: seq<Step>, caller: int)
    requires Possible(s, steps) && NoRecount(steps, caller) && caller in s.counted
    ensures var n := Run(s, steps);
      |n.stored| == |s.stored| + Stores(steps) && caller in n.counted && n.counted[caller] == s.counted[caller]
    decreases |steps|
  {
    if steps != [] {
      assert steps[0] in steps && forall step | step in steps[1..] :: step in steps;
      StoredGrows(Next(s, steps[0]), steps[1..], caller);
    }
  }

  /**
   * The stored prefix of a run is the whole history before it exactly when its caller counted everything and nothing
   * was stored between its count and its registration.
   */
  lemma CountIsRightIffQuiet(s: Session, caller: int, n: nat, between: seq<Step>, run: int)
    requires Enabled(s, Count(caller, n)) && Possible(Next(s, Count(caller, n)), between) && NoRecount(between, caller)
    requires Enabled(Run(Next(s, Count(caller, n)), between), Register(caller, run))
    ensures var entered := Next(Run(Next(s, Count(caller, n)), between), Register(caller, run)).runs[run];
      entered.preRunEventCount == entered.base <==> n == |s.stored| && forall step | step in between :: !step.Store?
  {
    StoredGrows(Next(s, Count(caller, n)), between, caller);
    NoStores(between);
  }

  /** Nothing is stored while no run is active, so a full count taken then stays right until its caller registers. */
  lemma {:induction false} QuietCountStaysRight(s: Session, steps: seq<Step>, caller: int)
    requires s.active.None? && caller in s.counted && s.counted[caller] == |s.stored|
    requires Possible(s, steps) && NoRecount(steps, caller) && forall step | step in steps :: !step.Register?
    ensures var n := Run(s, steps);
      n.active.None? && n.stored == s.stored && caller in n.counted && n.counted[caller] == |n.stored|
    ensures forall step | step in steps :: !step.Store?
    decreases |steps|
  {
    if steps != [] {
      assert steps[0] in steps && forall step | step in steps[1..] :: step in steps;
      QuietCountStaysRight(Next(s, steps[0]), steps[1..], caller);
      assert steps == [steps[0]] + steps[1..];
    }
  }

  /** A run registered right after a quiet full count reads back the whole history before it. */
  lemma QuietCountReadsAll(s: Session, between: seq<Step>, caller: int, run: int)
    requires s.active.None? && Possible(Next(s, Count(caller, |s.stored|)), between) && NoRecount(between, caller)
    requires forall step | step in between :: !step.Register?
    requires Enabled(Run(Next(s, Count(caller, |s.stored|)), between), Register(caller, run))
    ensures var n := Next(Run(Next(s, Count(caller, |s.stored|)), between), Register(caller, run));
      n.stored == s.stored && n.runs[run].preRunEventCount == n.runs[run].base == |n.stored|
  {
    QuietCountStaysRight(Next(s, Count(caller, |s.stored|)), between, caller);
  }

  // ---------- What a reader gets ----------

  /** The events whose publication begins on a run's bus before it is closed. */
  function PublishedOn(s: Session, steps: seq<Step>, run: int): seq<Event>
    requires Possible(s, steps)
    decreases |steps|
  {
    if steps == [] then []
    else
      (match steps[0]
       case OnBus(r, BeginPublish(e)) => if r == run && run in s.runs && !s.runs[run].bus.closed then [e] else []
       case _ => [])
      + PublishedOn(Next(s, steps[0]), steps[1..], run)
  }

  lemma {:induction false} BufferIsPublishedOn(s: Session, steps: seq<Step>, run: int)
    requires Possible(s, steps) && run in s.runs
    ensures run in Run(s, steps).runs
    ensures Run(s, steps).runs[run].bus.buffer == s.runs[run].bus.buffer + PublishedOn(s, steps, run)
    decreases |steps|
  {
    if steps != [] {
      OneStepPublishes(s, steps[0], run);
      BufferIsPublishedOn(Next(s, steps[0]), steps[1..], run);
    }
  }

  lemma OneStepPublishes(s: Session, step: Step, run: int)
    requires Enabled(s, step) && run in s.runs
    ensures run in Next(s, step).runs
    ensures Next(s, step).runs[run].bus.buffer == s.runs[run].bus.buffer +
      match step
      case OnBus(r, BeginPublish(e)) => if r == run && !s.runs[run].bus.closed then [e] else []
      case _ => []
  {
  }

  /** A run of some steps and then some more is two runs. */
  lemma {:induction false} RunConcat(s: Session, a: seq<Step>, b: seq<Step>)
    ensures Possible(s, a + b) <==> Possible(s, a) && Possible(Run(s, a), b)
    ensures Possible(s, a + b) ==> Run(s, a + b) == Run(Run(s, a), b)
    decreases |a|
  {
    if a == [] {
      assert a + b == b;
    } else {
      assert (a + b)[1..] == a[1..] + b;
      if Enabled(s, a[0]) {
        RunConcat(Next(s, a[0]), a[1..], b);
      }
    }
  }

  // ---------- What a reader ends with ----------

  /** What a finished reader is told: the error kept with its snapshot, or the final error of its run's bus. */
  function EndError(s: Session, r: Reader): Option<string>
    requires r.run in s.runs
  {
    if r.Replayed? then r.err else s.runs[r.run].bus.finalErr
  }

  predicate ClosesRun(step: Step, run: int) { step.OnBus? && step.run == run && step.step.Close? }

  /** The step that closes a run's bus. */
  predicate FirstCloseOf(steps: seq<Step>, run: int, i: nat) {
    i < |steps| && ClosesRun(steps[i], run) && forall j | 0 <= j < i :: !ClosesRun(steps[j], run)
  }

  predicate ClosedWith(s: Session, run: int, err: Option<string>) {
    run in s.runs && s.runs[run].bus.closed && s.runs[run].bus.finalErr == err
  }

  predicate NotClosed(s: Session, run: int) { run in s.runs ==> !s.runs[run].bus.closed }

  lemma OneStepCloses(s: Session, step: Step, run: int)
    requires Enabled(s, step)
    ensures forall err: Option<string> :: ClosedWith(s, run, err) ==> ClosedWith(Next(s, step), run, err)
    ensures NotClosed(s, run) && !ClosesRun(step, run) ==> NotClosed(Next(s, step), run)
    ensures NotClosed(s, run) && ClosesRun(step, run) ==> ClosedWith(Next(s, step), run, step.step.err)
  {
  }

  lemma {:induction false} StaysClosed(s: Session, steps: seq<Step>, run: int, err: Option<string>)
    requires Possible(s, steps) && ClosedWith(s, run, err)
    ensures ClosedWith(Run(s, steps), run, err)
    decreases |steps|
  {
    if steps != [] {
      OneStepCloses(s, steps[0], run);
      StaysClosed(Next(s, steps[0]), steps[1..], run, err);
    }
  }

  /** Whichever step closes a run's bus first, its error is the final one. */
  lemma {:induction false} RunEndsWithFirst(s: Session, steps: seq<Step>, run: int) returns (i: nat)
    requires Possible(s, steps) && NotClosed(s, run) && !NotClosed(Run(s, steps), run)
    ensures FirstCloseOf(steps, run, i) && ClosedWith(Run(s, steps), run, steps[i].step.err)
    decreases |steps|
  {
    OneStepCloses(s, steps[0], run);
    if ClosesRun(steps[0], run) {
      i := 0;
      StaysClosed(Next(s, steps[0]), steps[1..], run, steps[0].step.err);
    } else {
      i := RunEndsWithFirst(Next(s, steps[0]), steps[1..], run);
      assert forall j | 0 <= j < |steps| - 1 :: steps[1..][j] == steps[j + 1];
      i := i + 1;
    }
  }

  /**
   * Over every interleaving from any history, a live or replaying reader ends with exactly the error with which its
   * run's bus was closed first.
   */
  lemma ReaderEndsWithRunError(history: seq<Event>, steps: seq<Step>, reader: int) returns (i: nat)
    requires Possible(Start(history), steps) && reader in Run(Start(history), steps).readers
    requires var end := Run(Start(history), steps);
      ReaderOk(end, end.readers[reader]) && Finished(end, end.readers[reader])
    ensures var end := Run(Start(history), steps);
      var r := end.readers[reader];
      && i < |steps| && steps[i].OnBus? && steps[i].run == r.run && steps[i].step.Close?
      && (forall j | 0 <= j < i && steps[j].OnBus? && steps[j].run == r.run :: !steps[j].step.Close?)
      && EndError(end, r) == steps[i].step.err
  {
    var end := Run(Start(history), steps);
    var r := end.readers[reader];
    RunKeepsSession(Start(history), steps);
    assert r.Live? ==> ChannelOk(end.runs[r.run].bus, r.channel);
    i := RunEndsWithFirst(Start(history), steps, r.run);
    forall j | 0 <= j < i && steps[j].OnBus? && steps[j].run == r.run ensures !steps[j].step.Close? {
      assert !ClosesRun(steps[j], r.run);
    }
  }

  /** A session from which a run was registered by a caller's count, and what followed. */
  ghost predicate Story(s: Session, caller: int, n: nat, between: seq<Step>, run: int, later: seq<Step>) {
    && Enabled(s, Count(caller, n)) && NoRecount(between, caller)
    && Possible(Next(s, Count(caller, n)), between)
    && var waiting := Run(Next(s, Count(caller, n)), between);
       Enabled(waiting, Register(caller, run)) && Possible(Next(waiting, Register(caller, run)), later)
  }

  function Entered(s: Session, caller: int, n: nat, between: seq<Step>, run: int): Session
    requires Enabled(s, Count(caller, n)) && Possible(Next(s, Count(caller, n)), between)
    requires Enabled(Run(Next(s, Count(caller, n)), between), Register(caller, run))
  {
    Next(Run(Next(s, Count(caller, n)), between), Register(caller, run))
  }

  lemma StoryKeeps(s: Session, caller: int, n: nat, between: seq<Step>, run: int, later: seq<Step>)
    requires Inv(s) && Story(s, caller, n, between, run, later)
    ensures var entered := Entered(s, caller, n, between, run); var end := Run(entered, later);
      && Inv(entered) && Inv(end) && run in entered.runs && run in end.runs && entered.stored <= end.stored
      && end.runs[run].preRunEventCount == entered.runs[run].preRunEventCount == n
      && end.runs[run].base == entered.runs[run].base == |entered.stored|
      && end.runs[run].bus.buffer == PublishedOn(entered, later, run)
  {
    var counted := Next(s, Count(caller, n));
    StepKeepsSession(s, Count(caller, n));
    RunKeepsSession(counted, between);
    StoredGrows(counted, between, caller);
    StepKeepsSession(Run(counted, between), Register(caller, run));
    var entered := Entered(s, caller, n, between, run);
    RunKeepsSession(entered, later);
    BufferIsPublishedOn(entered, later, run);
    assert entered.runs[run].bus.buffer == [];
  }

  /**
   * From any session that keeps the invariant: a reader that joined a run at any moment has yielded, once finished, the
   * counted prefix of the history and then every event published on that run's bus, each once and in order. That is the
   * whole history before the run and then the run exactly when the caller counted everything and nothing was stored
   * between its count and its registration.
   */
  lemma ReaderSeesWholeHistory(
    s: Session, caller: int, n: nat, between: seq<Step>, run: int, later: seq<Step>, reader: int)
    requires Inv(s) && Story(s, caller, n, between, run, later)
    requires var end := Run(Entered(s, caller, n, between, run), later);
      reader in end.readers && end.readers[reader].run == run
    ensures var entered := Entered(s, caller, n, between, run);
      var end := Run(entered, later);
      var r, published := end.readers[reader], PublishedOn(entered, later, run);
      && ReaderOk(end, r) && n <= |entered.stored|
      && Output(end, r) <= entered.stored[..n] + published
      && (Finished(end, r) ==> Output(end, r) == entered.stored[..n] + published)
      && (Finished(end, r) ==>
            (Output(end, r) == entered.stored + published <==>
              n == |s.stored| && forall step | step in between :: !step.Store?))
  {
    var entered := Entered(s, caller, n, between, run);
    var end := Run(entered, later);
    var published := PublishedOn(entered, later, run);
    StoryKeeps(s, caller, n, between, run, later);
    ReaderOutput(end, reader);
    assert end.stored[..n] == entered.stored[..n];
    CountIsRightIffQuiet(s, caller, n, between, run);
    assert |entered.stored[..n] + published| == n + |published|;
    if n == |entered.stored| {
      assert entered.stored[..n] == entered.stored;
    }
  }

  /** Some steps, a count, more steps, the registration of a run with it, and what follows. */
  function StorySteps(
    before: seq<Step>, caller: int, n: nat, between: seq<Step>, run: int, later: seq<Step>): seq<Step>
  {
    before + ([Count(caller, n)] + (between + ([Register(caller, run)] + later)))
  }

  /** Such a run reaches a session, tells the story from there and ends where the story ends. */
  lemma StoryOfRun(
    history: seq<Event>, before: seq<Step>, caller: int, n: nat, between: seq<Step>, run: int, later: seq<Step>)
    requires Possible(Start(history), StorySteps(before, caller, n, between, run, later))
    requires NoRecount(between, caller)
    ensures Possible(Start(history), before)
    ensures var s := Run(Start(history), before);
      && Inv(s) && Story(s, caller, n, between, run, later)
      && Run(Start(history), StorySteps(before, caller, n, between, run, later)) ==
           Run(Entered(s, caller, n, between, run), later)
  {
    var entry := [Register(caller, run)] + later;
    var rest := [Count(caller, n)] + (between + entry);
    RunConcat(Start(history), before, rest);
    RunKeepsSession(Start(history), before);
    var s := Run(Start(history), before);
    assert rest[1..] == between + entry;
    RunConcat(Next(s, Count(caller, n)), between, entry);
    assert entry[1..] == later;
  }

  /**
   * Over every interleaving from any history: a run that a caller's count and registration put into it, and any reader
   * of that run. The reader's output is a prefix of the counted history and the published events, and all of it once
   * the reader is finished; that is the whole history before the run and then the run exactly when the caller counted
   * everything and nothing was stored until its registration.
   */
  lemma EveryRunReaderSeesWholeHistory(
    history: seq<Event>, before: seq<Step>, caller: int, n: nat, between: seq<Step>, run: int, later: seq<Step>,
    reader: int)
    requires Possible(Start(history), StorySteps(before, caller, n, between, run, later))
    requires NoRecount(between, caller)
    requires var end := Run(Start(history), StorySteps(before, caller, n, between, run, later));
      reader in end.readers && end.readers[reader].run == run
    ensures Possible(Start(history), before)
    ensures var s := Run(Start(history), before);
      var end := Run(Start(history), StorySteps(before, caller, n, between, run, later));
      && Story(s, caller, n, between, run, later)
      && var entered := Entered(s, caller, n, between, run);
         var r, published := end.readers[reader], PublishedOn(entered, later, run);
         && ReaderOk(end, r) && n <= |entered.stored|
         && Output(end, r) <= entered.stored[..n] + published
         && (Finished(end, r) ==> Output(end, r) == entered.stored[..n] + published)
         && (Finished(end, r) ==>
               (Output(end, r) == entered.stored + published <==>
                 n == |s.stored| && forall step | step in between :: !step.Store?))
  {
    StoryOfRun(history, before, caller, n, between, run, later);
    ReaderSeesWholeHistory(Run(Start(history), before), caller, n, between, run, later, reader);
  }

  lemma {:induction false} RegisteredSomewhere(s: Session, steps: seq<Step>, run: int) returns (i: nat)
    requires Possible(s, steps) && run !in s.runs && run in Run(s, steps).runs
    ensures i < |steps| && steps[i].Register? && steps[i].run == run
    decreases |steps|
  {
    if run in Next(s, steps[0]).runs {
      i := 0;
    } else {
      var j := RegisteredSomewhere(Next(s, steps[0]), steps[1..], run);
      i := j + 1;
    }
  }

  lemma {:induction false} CountedBefore(s: Session, steps: seq<Step>, caller: int) returns (i: nat)
    requires Possible(s, steps) && caller in Run(s, steps).counted && caller !in s.counted
    ensures i < |steps| && steps[i].Count? && steps[i].caller == caller && NoRecount(steps[i + 1..], caller)
    decreases |steps|
  {
    var last := |steps| - 1;
    assert steps == steps[..last] + [steps[last]];
    RunConcat(s, steps[..last], [steps[last]]);
    if steps[last].Count? && steps[last].caller == caller {
      i := last;
    } else {
      i := CountedBefore(s, steps[..last], caller);
      assert steps[i + 1..] == steps[..last][i + 1..] + [steps[last]];
    }
  }

  lemma CutTwice(steps: seq<Step>, k: nat, i: nat)
    requires k < i < |steps|
    ensures steps == steps[..k] + ([steps[k]] + (steps[..i][k + 1..] + ([steps[i]] + steps[i + 1..])))
  {
  }

  /** Every run of every interleaving was registered with the last count of its caller. */
  lemma StoryOfEveryRun(history: seq<Event>, steps: seq<Step>, run: int)
    returns (before: seq<Step>, caller: int, n: nat, between: seq<Step>, later: seq<Step>)
    requires Possible(Start(history), steps) && run in Run(Start(history), steps).runs
    ensures steps == StorySteps(before, caller, n, between, run, later) && NoRecount(between, caller)
  {
    var i := RegisteredSomewhere(Start(history), steps, run);
    assert steps[..i] + steps[i..] == steps;
    RunConcat(Start(history), steps[..i], steps[i..]);
    caller := steps[i].caller;
    var k := CountedBefore(Start(history), steps[..i], caller);
    CutTwice(steps, k, i);
    before, n, between, later := steps[..k], steps[k].n, steps[..i][k + 1..], steps[i + 1..];
  }

  /** So after a full count that no run disturbs, every reader of the run sees the whole history and then the run. */
  lemma QuietReaderSeesWholeHistory(
    s: Session, caller: int, between: seq<Step>, run: int, later: seq<Step>, reader: int)
    requires Inv(s) && s.active.None? && Story(s, caller, |s.stored|, between, run, later)
    requires forall step | step in between :: !step.Register?
    requires var end := Run(Entered(s, caller, |s.stored|, between, run), later);
      reader in end.readers && end.readers[reader].run == run
    ensures var entered := Entered(s, caller, |s.stored|, between, run);
      var end := Run(entered, later);
      var r := end.readers[reader];
      ReaderOk(end, r) && (Finished(end, r) ==> Output(end, r) == s.stored + PublishedOn(entered, later, run))
  {
    QuietCountReadsAll(s, between, caller, run);
    QuietCountStaysRight(Next(s, Count(caller, |s.stored|)), between, caller);
    ReaderSeesWholeHistory(s, caller, |s.stored|, between, run, later, reader);
  }

  lemma OneStep(s: Session, step: Step, rest: seq<Step>)
    requires Enabled(s, step) && Possible(Next(s, step), rest)
    ensures Possible(s, [step] + rest) && Run(s, [step] + rest) == Run(Next(s, step), rest)
  {
    assert ([step] + rest)[1..] == rest;
  }

  /** The second caller counts while the first run is active, and registers when it is gone. */
  function StaleCountSteps(event: Event): seq<Step> {
    [Count(1, 0)] + ([Register(1, 1)]
      + ([Count(2, 0)] + ([Store(event)] + ([OnBus(1, Close(None))] + ([RemoveActive] + ([Register(2, 2)] + []))))))
  }

  /** Counting while another run is active can lose its events for the readers of the next run. */
  lemma StaleCountExample(event: Event)
    ensures Possible(Start([]), StaleCountSteps(event))
    ensures var s := Run(Start([]), StaleCountSteps(event));
      2 in s.runs && s.runs[2].preRunEventCount == 0 && s.runs[2].base == 1 && s.stored == [event]
  {
    var s1 := Next(Start([]), Count(1, 0));
    var s2 := Next(s1, Register(1, 1));
    var s3 := Next(s2, Count(2, 0));
    var s4 := Next(s3, Store(event));
    var s5 := Next(s4, OnBus(1, Close(None)));
    var s6 := Next(s5, RemoveActive);
    var r6 := [Register(2, 2)] + [];
    var r5 := [RemoveActive] + r6;
    var r4 := [OnBus(1, Close(None))] + r5;
    var r3 := [Store(event)] + r4;
    var r2 := [Count(2, 0)] + r3;
    OneStep(s6, Register(2, 2), []);
    OneStep(s5, RemoveActive, r6);
    OneStep(s4, OnBus(1, Close(None)), r5);
    OneStep(s3, Store(event), r4);
    OneStep(s2, Count(2, 0), r3);
    OneStep(s1, Register(1, 1), r2);
    OneStep(Start([]), Count(1, 0), [Register(1, 1)] + r2);
  }
}
