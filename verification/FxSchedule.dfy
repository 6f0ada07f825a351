/**
 * The FX refresh schedule of finance/fx_refresh_schedule_service.go and
 * finance/persistence/fx_refresh_schedule_store.go: competing schedulers claim due occurrences by conditional updates,
 * and publish in the claiming transaction.
 */
module FxSchedule {
  import opened Prelude
  import opened Text

  type Id = int

  datatype Schedule = Schedule(
    provider: string, interval: Time, nextRunAt: Option<Time>, enabled: bool, lastScheduledAt: Option<Time>,
      lastJobId: string)

  /** A published refresh command with the occurrence it stands for. */
  datatype Command = Command(schedule: Id, provider: string, dueAt: Time, messageId: string)

  datatype Db = Db(schedules: map<Id, Schedule>, commands: seq<Command>)

  datatype Failure = IntervalNotPositive | PublishFailed | ReferenceMissing | ChangedBeforeFinalization

  /** What a claiming transaction comes to. A failure rolls everything back. */
  datatype Claim = NotClaimed | Claimed(db: Db, nextRunAt: Time) | Failed(failure: Failure)

  predicate IsDue(s: Schedule, now: Time) { s.enabled && s.nextRunAt.Some? && s.nextRunAt.value <= now }

  // ---------- The next run ----------

  /** The first time on the grid through dueAt, going on from dueAt, that lies after now. */
  ghost predicate FirstAfter(dueAt: Time, interval: Time, now: Time, next: Time) {
    && next > now && next - interval <= now
    && exists k: nat :: k > 0 && next == OnGrid(dueAt, interval, k)
  }

  function OnGrid(dueAt: Time, interval: Time, k: nat): Time { dueAt + k * interval }

  /** Stepping on from a due time: finance/fx_refresh_schedule_service.go:137-141. */
  method NextRun(dueAt: Time, interval: Time, now: Time) returns (next: Time)
    requires interval > 0 && dueAt <= now
    ensures FirstAfter(dueAt, interval, now, next) && next == NextRunAt(dueAt, interval, now)
  {
    next := dueAt;
    ghost var k: nat := 0;
    while !(next > now)
      invariant next == OnGrid(dueAt, interval, k) && (k > 0 ==> next - interval <= now)
      invariant k == 0 ==> next <= now
      decreases now - next
    {
      next := next + interval;
      k := k + 1;
    }
    FirstAfterUnique(dueAt, interval, now, next, NextRunAt(dueAt, interval, now));
  }

  function NextRunAt(dueAt: Time, interval: Time, now: Time): (next: Time)
    requires interval > 0 && dueAt <= now
    ensures FirstAfter(dueAt, interval, now, next)
  {
    var k := (now - dueAt) / interval + 1;
    assert (now - dueAt) == (now - dueAt) / interval * interval + (now - dueAt) % interval;
    Distribute((now - dueAt) / interval, interval);
    assert dueAt + k * interval == OnGrid(dueAt, interval, k);
    dueAt + k * interval
  }

  lemma Distribute(q: int, interval: int)
    ensures (q + 1) * interval == q * interval + interval
  {
  }

  lemma FirstAfterUnique(dueAt: Time, interval: Time, now: Time, a: Time, b: Time)
    requires interval > 0 && FirstAfter(dueAt, interval, now, a) && FirstAfter(dueAt, interval, now, b)
    ensures a == b
  {
    var i: nat :| i > 0 && a == OnGrid(dueAt, interval, i);
    var j: nat :| j > 0 && b == OnGrid(dueAt, interval, j);
    GridSpacing(dueAt, interval, i, j);
    GridSpacing(dueAt, interval, j, i);
  }

  lemma GridSpacing(dueAt: Time, interval: Time, i: nat, j: nat)
    requires interval > 0
    ensures i < j ==> OnGrid(dueAt, interval, i) + interval <= OnGrid(dueAt, interval, j)
  {
    if i < j {
      MulMonotone(i, j, interval);
      if i + 1 < j {
        MulMonotone(i + 1, j, interval);
      }
      Distribute(i, interval);
    }
  }

  // ---------- Conditional updates ----------

  /** finance/persistence/fx_refresh_schedule_store.go:133-148; None when no row matches. */
  function ClaimDue(
    schedules: map<Id, Schedule>, id: Id, dueAt: Time, next: Time, now: Time): Option<map<Id, Schedule>> {
    if id in schedules && schedules[id].enabled && schedules[id].nextRunAt == Some(dueAt) && dueAt <= now
    then Some(schedules[id := schedules[id].(nextRunAt := Some(next))])
    else None
  }

  /** finance/persistence/fx_refresh_schedule_store.go:152-175. */
  function FinalizeClaim(
    schedules: map<Id, Schedule>, id: Id, dueAt: Time, next: Time, messageId: string): Option<map<Id, Schedule>> {
    if id in schedules && schedules[id].enabled && schedules[id].nextRunAt == Some(next)
    then Some(schedules[id := schedules[id].(lastScheduledAt := Some(dueAt), lastJobId := messageId)])
    else None
  }

  /** The publisher's answer: an error, or a reference that may be blank. */
  type Reference = Option<string>

  /** A message identifier of white space only, or of nothing. */
  predicate Blank(messageId: string) { TrimSpace(messageId) == "" }

  /** From the re-read schedule to the end of the transaction. The claimed row stays locked until then. */
  function ClaimAndPublish(db: Db, id: Id, current: Schedule, now: Time, reference: Reference): Claim
    requires IsDue(current, now)
  {
    if current.interval <= 0 then Failed(IntervalNotPositive)
    else
      var dueAt := current.nextRunAt.value;
      var next := NextRunAt(dueAt, current.interval, now);
      match ClaimDue(db.schedules, id, dueAt, next, now)
      case None => NotClaimed
      case Some(claimed) =>
        if reference.None? then Failed(PublishFailed)
        else if Blank(reference.value) then Failed(ReferenceMissing)
        else
          match FinalizeClaim(claimed, id, dueAt, next, reference.value)
          case None => Failed(ChangedBeforeFinalization)
          case Some(finalized) => Claimed(Db(finalized,
            db.commands + [Command(id, current.provider, dueAt, reference.value)]), next)
  }

  /** The checks after re-reading: finance/fx_refresh_schedule_service.go:129-132. */
  predicate StillDue(schedules: map<Id, Schedule>, id: Id, candidate: Time, now: Time) {
    id in schedules && IsDue(schedules[id], now) && schedules[id].nextRunAt == Some(candidate)
  }

  // ---------- One scheduler's pass, alone ----------

  /** What one occurrence's transaction comes to when nobody else writes. */
  function Enqueue(db: Db, id: Id, candidate: Time, now: Time, reference: Reference): Claim {
    if StillDue(db.schedules, id, candidate, now) then ClaimAndPublish(db, id, db.schedules[id], now, reference)
      else NotClaimed
  }

  class FxRefreshScheduleService {
    var schedules: map<Id, Schedule>
    var commands: seq<Command>

    constructor (schedules: map<Id, Schedule>, commands: seq<Command>)
      ensures this.schedules == schedules && this.commands == commands
    {
      this.schedules, this.commands := schedules, commands;
    }

    ghost function State(): Db reads this { Db(schedules, commands) }

    /** Creates a schedule unless there is one. */
    method Ensure(id: Id, schedule: Schedule)
      modifies this`schedules
      ensures schedules == old(if id in schedules then schedules else schedules[id := schedule])
    {
      if id !in schedules {
        schedules := schedules[id := schedule];
      }
    }

    /** finance/fx_refresh_schedule_service.go:89-181: one transaction, rolled back on failure. */
    method EnqueueOccurrence(id: Id, candidate: Time, now: Time, reference: Reference) returns (claim: Claim)
      modifies this
      ensures claim == Enqueue(old(State()), id, candidate, now, reference)
      ensures State() == if claim.Claimed? then claim.db else old(State())
    {
      var before := Db(schedules, commands);
      if !StillDue(schedules, id, candidate, now) {
        return NotClaimed;
      }
      var current := schedules[id];
      if current.interval <= 0 {
        return Failed(IntervalNotPositive);
      }
      var next := NextRun(candidate, current.interval, now);
      var claimed := ClaimDue(schedules, id, candidate, next, now);
      if claimed.None? {
        return NotClaimed;
      }
      schedules := claimed.value;
      if reference.None? || Blank(reference.value) {
        schedules, commands := before.schedules, before.commands;
        return Failed(if reference.None? then PublishFailed else ReferenceMissing);
      }
      commands := commands + [Command(id, current.provider, candidate, reference.value)];
      var finalized := FinalizeClaim(schedules, id, candidate, next, reference.value);
      if finalized.None? {
        schedules, commands := before.schedules, before.commands;
        return Failed(ChangedBeforeFinalization);
      }
      schedules := finalized.value;
      claim := Claimed(Db(schedules, commands), next);
    }

    /**
     * finance/fx_refresh_schedule_service.go:67-87 over the listed occurrences: exactly the ones before the first
     * failure get one command each and their next run after now, and nothing else changes.
     */
    method EnqueueDue(
      due: seq<Id>, now: Time, references: seq<Reference>) returns (count: nat, failure: Option<Failure>)
      requires |references| == |due| && DueListing(schedules, due, now)
      modifies this
      ensures count <= |due| && (failure.None? <==> count == |due|)
      ensures count < |due| ==> Fails(old(schedules)[due[count]], references[count])
      ensures Enqueued(old(State()), State(), due[..count], now, references[..count])
    {
      count := 0;
      ghost var start := State();
      while count < |due|
        invariant count <= |due| && Enqueued(start, State(), due[..count], now, references[..count])
        decreases |due| - count
      {
        EnqueuedNext(start, State(), due, now, references, count);
        var claim := EnqueueOccurrence(due[count], schedules[due[count]].nextRunAt.value, now, references[count]);
        if claim.Failed? {
          return count, Some(claim.failure);
        }
        count := count + 1;
      }
      return count, None;
    }
  }

  /** Exactly the given schedules have had their occurrence published, and nothing else has changed. */
  predicate Enqueued(start: Db, db: Db, ids: seq<Id>, now: Time, references: seq<Reference>)
    requires |references| == |ids|
  {
    && db.schedules.Keys == start.schedules.Keys
    && (forall id | id in db.schedules && id !in ids :: db.schedules[id] == start.schedules[id])
    && |db.commands| == |start.commands| + |ids| && start.commands <= db.commands
    && forall i | 0 <= i < |ids| ::
         ids[i] in db.schedules
         && Occurred(ids[i], start.schedules[ids[i]], db.schedules[ids[i]], db.commands[|start.commands| + i], now,
           references[i])
  }

  lemma EnqueuedMore(
    start: Db, before: Db, db: Db, ids: seq<Id>, now: Time, references: seq<Reference>, id: Id, reference: Reference)
    requires |references| == |ids| && Enqueued(start, before, ids, now, references)
    requires id in before.schedules && id !in ids
    requires id in db.schedules && db.schedules == before.schedules[id := db.schedules[id]]
    requires |db.commands| == |before.commands| + 1 && before.commands <= db.commands
    requires Occurred(id, before.schedules[id], db.schedules[id], db.commands[|before.commands|], now, reference)
    ensures Enqueued(start, db, ids + [id], now, references + [reference])
  {
    forall i | 0 <= i < |ids| + 1
      ensures var other := (ids + [id])[i];
        other in db.schedules
        && Occurred(other, start.schedules[other], db.schedules[other], db.commands[|start.commands| + i], now,
          (references + [reference])[i])
    {
      if i < |ids| {
        assert db.commands[|start.commands| + i] == before.commands[|start.commands| + i];
      }
    }
  }

  /** The listed schedules are due, each listed once. */
  predicate DueListing(schedules: map<Id, Schedule>, due: seq<Id>, now: Time) {
    && (forall i | 0 <= i < |due| :: due[i] in schedules && IsDue(schedules[due[i]], now))
    && (forall i, j | 0 <= i < j < |due| :: due[i] != due[j])
  }

  predicate Fails(s: Schedule, reference: Reference) { s.interval <= 0 || reference.None? || Blank(reference.value) }

  /** An occurrence was published and its schedule moved on. */
  predicate Occurred(id: Id, was: Schedule, later: Schedule, command: Command, now: Time, reference: Reference) {
    && IsDue(was, now) && !Fails(was, reference)
    && later == was.(nextRunAt := Some(NextRunAt(was.nextRunAt.value, was.interval, now)),
                     lastScheduledAt := was.nextRunAt, lastJobId := reference.value)
    && command == Command(id, was.provider, was.nextRunAt.value, reference.value)
  }

  lemma EnqueueDecides(db: Db, id: Id, now: Time, reference: Reference)
    requires id in db.schedules && IsDue(db.schedules[id], now)
    ensures var claim, was := Enqueue(db, id, db.schedules[id].nextRunAt.value, now, reference), db.schedules[id];
      && (claim.Failed? <==> Fails(was, reference)) && !claim.NotClaimed?
      && (claim.Claimed? ==>
            && claim.db.schedules == db.schedules[id := claim.db.schedules[id]]
            && |claim.db.commands| == |db.commands| + 1 && db.commands <= claim.db.commands
            && Occurred(id, was, claim.db.schedules[id], claim.db.commands[|db.commands|], now, reference))
  {
  }

  /** The next listed occurrence, after the ones before it. */
  lemma EnqueuedNext(start: Db, before: Db, due: seq<Id>, now: Time, references: seq<Reference>, n: nat)
    requires |references| == |due| && n < |due| && DueListing(start.schedules, due, now)
    requires Enqueued(start, before, due[..n], now, references[..n])
    ensures due[n] in before.schedules && IsDue(before.schedules[due[n]], now)
    ensures
      var claim := Enqueue(before, due[n], before.schedules[due[n]].nextRunAt.value, now, references[n]);
      && !claim.NotClaimed? && (claim.Failed? <==> Fails(start.schedules[due[n]], references[n]))
      && (claim.Claimed? ==> Enqueued(start, claim.db, due[..n + 1], now, references[..n + 1]))
  {
    assert due[n] !in due[..n];
    EnqueueDecides(before, due[n], now, references[n]);
    var claim := Enqueue(before, due[n], before.schedules[due[n]].nextRunAt.value, now, references[n]);
    if claim.Claimed? {
      EnqueuedMore(start, before, claim.db, due[..n], now, references[..n], due[n], references[n]);
      assert due[..n + 1] == due[..n] + [due[n]] && references[..n + 1] == references[..n] + [references[n]];
    }
  }

  // ---------- Competing schedulers ----------

  /** One scheduler's work on one occurrence, between its own reads. */
  datatype Attempt =
    | Listed(id: Id, candidate: Time, now: Time)
    | Reread(id: Id, current: Schedule, now: Time)
    | Ended

  /** A committed advance of a schedule's due state. */
  datatype Advance = Advance(schedule: Id, from: Time, to: Time, interval: Time, now: Time)

  datatype World = World(db: Db, advances: seq<Advance>, attempts: map<nat, Attempt>)

  datatype Step =
    | EnsureStep(id: Id, schedule: Schedule)
    | ListStep(attempt: nat, id: Id, now: Time)
    | RereadStep(attempt: nat)
    | ClaimStep(attempt: nat, reference: Reference)

  /** Any clock and any interleaving; an attempt that takes no further step has died. */
  function Next(w: World, step: Step): World {
    match step
    case EnsureStep(id, schedule) =>
      if id in w.db.schedules then w else w.(db := w.db.(schedules := w.db.schedules[id := schedule]))
    case ListStep(attempt, id, now) =>
      if id in w.db.schedules && IsDue(w.db.schedules[id], now)
      then w.(attempts := w.attempts[attempt := Listed(id, w.db.schedules[id].nextRunAt.value, now)])
      else w
    case RereadStep(attempt) =>
      if attempt in w.attempts && w.attempts[attempt].Listed? then
        var a := w.attempts[attempt];
        w.(attempts := w.attempts[attempt :=
          if StillDue(w.db.schedules, a.id, a.candidate, a.now) then Reread(a.id, w.db.schedules[a.id], a.now)
            else Ended])
      else w
    case ClaimStep(attempt, reference) =>
      if attempt in w.attempts && w.attempts[attempt].Reread?
        && IsDue(w.attempts[attempt].current, w.attempts[attempt].now) then
        var a := w.attempts[attempt];
        var ended := w.attempts[attempt := Ended];
        match ClaimAndPublish(w.db, a.id, a.current, a.now, reference)
        case NotClaimed => w.(attempts := ended)
        case Failed(_) => w.(attempts := ended)
        case Claimed(db, to) =>
          World(db, w.advances + [Advance(a.id, a.current.nextRunAt.value, to, a.current.interval, a.now)], ended)
      else w
  }

  function Run(w: World, steps: seq<Step>): World {
    if steps == [] then w else Next(Run(w, steps[..|steps| - 1]), steps[|steps| - 1])
  }

  function Start(): World { World(Db(map[], []), [], map[]) }

  /** The last committed advance of a schedule. */
  function LastOf(advances: seq<Advance>, id: Id): Option<Advance> {
    if advances == [] then None
    else if advances[|advances| - 1].schedule == id then Some(advances[|advances| - 1])
    else LastOf(advances[..|advances| - 1], id)
  }

  /**
   * Every advance starts where the one before it ended, and ends at the first grid time after its scheduler's clock.
   */
  ghost predicate Linked(advances: seq<Advance>, j: nat)
    requires j < |advances|
  {
    var a := advances[j];
    && a.interval > 0 && a.from <= a.now && FirstAfter(a.from, a.interval, a.now, a.to)
    && var before := LastOf(advances[..j], a.schedule);
      before.Some? ==> before.value.to == a.from
  }

  /** Each advance has its command. */
  ghost predicate Paired(w: World) {
    && |w.db.commands| == |w.advances|
    && forall i | 0 <= i < |w.advances| ::
         w.db.commands[i].schedule == w.advances[i].schedule && w.db.commands[i].dueAt == w.advances[i].from
  }

  /** The row of a schedule shows its last advance. */
  ghost predicate ShowsLast(w: World, id: Id) {
    var last := LastOf(w.advances, id);
    last.Some? ==>
      && id in w.db.schedules
      && w.db.schedules[id].nextRunAt == Some(last.value.to)
        && w.db.schedules[id].lastScheduledAt == Some(last.value.from)
  }

  ghost predicate Inv(w: World) {
    && Paired(w)
    && (forall j | 0 <= j < |w.advances| :: Linked(w.advances, j))
    && (forall id :: ShowsLast(w, id))
  }

  lemma LastOfAppend(advances: seq<Advance>, a: Advance, id: Id)
    ensures LastOf(advances + [a], id) == if a.schedule == id then Some(a) else LastOf(advances, id)
  {
    assert (advances + [a])[..|advances|] == advances;
  }

  /** A claim goes through only on the row that the conditional update names. */
  lemma ClaimWrites(db: Db, id: Id, current: Schedule, now: Time, reference: Reference)
    requires IsDue(current, now) && ClaimAndPublish(db, id, current, now, reference).Claimed?
    ensures var next, due := ClaimAndPublish(db, id, current, now, reference), current.nextRunAt.value;
      && current.interval > 0 && FirstAfter(due, current.interval, now, next.nextRunAt)
      && id in db.schedules && db.schedules[id].nextRunAt == Some(due)
      && next.db.schedules == db.schedules[id := next.db.schedules[id]]
      && next.db.schedules[id].nextRunAt == Some(next.nextRunAt) && next.db.schedules[id].lastScheduledAt == Some(due)
      && |next.db.commands| == |db.commands| + 1 && next.db.commands[..|db.commands|] == db.commands
      && next.db.commands[|db.commands|].schedule == id && next.db.commands[|db.commands|].dueAt == due
  {
  }

  lemma LinkedAppend(advances: seq<Advance>, a: Advance)
    requires forall j | 0 <= j < |advances| :: Linked(advances, j)
    requires a.interval > 0 && a.from <= a.now && FirstAfter(a.from, a.interval, a.now, a.to)
    requires LastOf(advances, a.schedule).Some? ==> LastOf(advances, a.schedule).value.to == a.from
    ensures forall j | 0 <= j < |advances| + 1 :: Linked(advances + [a], j)
  {
    var all := advances + [a];
    forall j | 0 <= j < |all| ensures Linked(all, j) {
      assert all[..j] == advances[..j];
      assert advances[..|advances|] == advances;
      if j < |advances| {
        assert Linked(advances, j);
      }
    }
  }

  lemma ClaimKeeps(w: World, attempt: nat, reference: Reference)
    requires Inv(w)
    ensures Inv(Next(w, ClaimStep(attempt, reference)))
  {
    var v := Next(w, ClaimStep(attempt, reference));
    forall id ensures v.db == w.db && v.advances == w.advances ==> ShowsLast(v, id) {
      assert ShowsLast(w, id);
    }
    if attempt in w.attempts && w.attempts[attempt].Reread?
      && IsDue(w.attempts[attempt].current, w.attempts[attempt].now) {
      var a := w.attempts[attempt];
      if ClaimAndPublish(w.db, a.id, a.current, a.now, reference).Claimed? {
        ClaimWrites(w.db, a.id, a.current, a.now, reference);
        var claim := ClaimAndPublish(w.db, a.id, a.current, a.now, reference);
        var advance := Advance(a.id, a.current.nextRunAt.value, claim.nextRunAt, a.current.interval, a.now);
        CommitKeeps(w, Next(w, ClaimStep(attempt, reference)), advance);
      }
    }
  }

  lemma CommitKeeps(w: World, v: World, a: Advance)
    requires Inv(w) && v.advances == w.advances + [a]
    requires a.interval > 0 && a.from <= a.now && FirstAfter(a.from, a.interval, a.now, a.to)
    requires a.schedule in w.db.schedules && w.db.schedules[a.schedule].nextRunAt == Some(a.from)
    requires a.schedule in v.db.schedules && v.db.schedules == w.db.schedules[a.schedule := v.db.schedules[a.schedule]]
    requires v.db.schedules[a.schedule].nextRunAt == Some(a.to)
      && v.db.schedules[a.schedule].lastScheduledAt == Some(a.from)
    requires |v.db.commands| == |w.db.commands| + 1 && v.db.commands[..|w.db.commands|] == w.db.commands
    requires v.db.commands[|w.db.commands|].schedule == a.schedule && v.db.commands[|w.db.commands|].dueAt == a.from
    ensures Inv(v)
  {
    assert ShowsLast(w, a.schedule);
    LinkedAppend(w.advances, a);
    forall id ensures ShowsLast(v, id) {
      LastOfAppend(w.advances, a, id);
      assert ShowsLast(w, id);
    }
    assert forall i | 0 <= i < |w.db.commands| :: v.db.commands[i] == v.db.commands[..|w.db.commands|][i];
  }

  lemma StepKeeps(w: World, step: Step)
    requires Inv(w)
    ensures Inv(Next(w, step))
  {
    var v := Next(w, step);
    match step {
      case ClaimStep(attempt, reference) => ClaimKeeps(w, attempt, reference);
      case EnsureStep(id, schedule) =>
        forall other ensures ShowsLast(v, other) { assert ShowsLast(w, other); }
      case ListStep(_, _, _) =>
        forall other ensures ShowsLast(v, other) { assert ShowsLast(w, other); }
      case RereadStep(_) =>
        forall other ensures ShowsLast(v, other) { assert ShowsLast(w, other); }
    }
  }

  lemma {:induction false} RunKeeps(steps: seq<Step>)
    ensures Inv(Run(Start(), steps))
  {
    if steps != [] {
      RunKeeps(steps[..|steps| - 1]);
      StepKeeps(Run(Start(), steps[..|steps| - 1]), steps[|steps| - 1]);
    }
  }

  // ---------- What holds of every run ----------

  lemma {:induction false} LastReaches(advances: seq<Advance>, i: nat)
    requires i < |advances| && forall j | 0 <= j < |advances| :: Linked(advances, j)
    ensures var last := LastOf(advances, advances[i].schedule); last.Some? && advances[i].to <= last.value.to
  {
    var n := |advances| - 1;
    if i < n {
      var before := advances[..n];
      forall j | 0 <= j < n ensures Linked(before, j) {
        assert Linked(advances, j);
        assert before[..j] == advances[..j];
      }
      LastReaches(before, i);
      assert Linked(advances, n);
    }
  }

  /**
   * Every command, the newest too, pairs with the one advance of its schedule, which went from the command's due time
   * to the first grid time after its scheduler's clock.
   */
  lemma EachPublicationAdvances(steps: seq<Step>, i: nat)
    requires i < |Run(Start(), steps).db.commands|
    ensures var w := Run(Start(), steps);
      && |w.advances| == |w.db.commands|
      && var c, a := w.db.commands[i], w.advances[i];
         && a.schedule == c.schedule && a.from == c.dueAt <= a.now && a.interval > 0
         && FirstAfter(c.dueAt, a.interval, a.now, a.to)
  {
    RunKeeps(steps);
    assert Linked(Run(Start(), steps).advances, i);
  }

  /**
   * However schedulers interleave, with whatever clocks, stale listings and failures: the commands of a schedule stand
   * for strictly later and later occurrences, so none is published twice; each command pairs with the one advance of
   * its schedule; and that advance went to the first grid time after its scheduler's clock.
   */
  lemma PublishedOnce(steps: seq<Step>, i: nat, j: nat)
    requires i < j < |Run(Start(), steps).db.commands|
    ensures var w := Run(Start(), steps); var c, d := w.db.commands[i], w.db.commands[j];
      && |w.advances| == |w.db.commands|
      && (c.schedule == d.schedule ==> c.dueAt < d.dueAt && w.advances[i].to <= d.dueAt)
      && c.dueAt == w.advances[i].from
        && FirstAfter(c.dueAt, w.advances[i].interval, w.advances[i].now, w.advances[i].to)
  {
    RunKeeps(steps);
    var w := Run(Start(), steps);
    assert Linked(w.advances, i) && Linked(w.advances, j);
    if w.db.commands[i].schedule == w.db.commands[j].schedule {
      var before := w.advances[..j];
      forall k | 0 <= k < j ensures Linked(before, k) {
        assert Linked(w.advances, k);
        assert before[..k] == w.advances[..k];
      }
      LastReaches(before, i);
    }
  }

  lemma BlankIsWhiteSpace(messageId: string)
    ensures Blank(messageId) <==> forall k | 0 <= k < |messageId| :: IsSpace(messageId[k])
  {
    var i, j := TrimSpaceIs(messageId);
    if i < j {
      assert !IsSpace(messageId[i]);
    }
  }

  /**
   * A scheduler that lists, re-reads and publishes undisturbed claims the occurrence it listed: one command for it, and
   * the schedule goes on to the first grid time after the clock with that command as its last.
   */
  lemma DueIsClaimed(w: World, attempt: nat, id: Id, now: Time, messageId: string, k: nat)
    requires id in w.db.schedules && w.db.schedules[id].enabled && w.db.schedules[id].nextRunAt.Some?
    requires w.db.schedules[id].nextRunAt.value <= now && w.db.schedules[id].interval > 0
    requires k < |messageId| && !IsSpace(messageId[k])
    ensures var was := w.db.schedules[id];
      var v := Next(Next(Next(w, ListStep(attempt, id, now)), RereadStep(attempt)),
        ClaimStep(attempt, Some(messageId)));
      && v.db.commands == w.db.commands + [Command(id, was.provider, was.nextRunAt.value, messageId)]
      && v.db.schedules.Keys == w.db.schedules.Keys
      && (forall other | other in w.db.schedules && other != id :: v.db.schedules[other] == w.db.schedules[other])
      && var later := v.db.schedules[id];
        && later.provider == was.provider && later.interval == was.interval && later.enabled
        && later.lastScheduledAt == was.nextRunAt && later.lastJobId == messageId
        && later.nextRunAt.Some? && now < later.nextRunAt.value <= now + was.interval
        && exists n: nat :: n > 0 && later.nextRunAt.value == OnGrid(was.nextRunAt.value, was.interval, n)
  {
    BlankIsWhiteSpace(messageId);
  }

  /** An occurrence that is not due, or not the one that was listed, is left alone. */
  lemma NotDueIsLeft(db: Db, id: Id, candidate: Time, now: Time, reference: Reference)
    ensures Enqueue(db, id, candidate, now, reference).NotClaimed? <==>
      || id !in db.schedules || !db.schedules[id].enabled || db.schedules[id].nextRunAt != Some(candidate)
      || now < candidate
  {
  }

  /** What makes a due occurrence fail. */
  lemma WhatFails(db: Db, id: Id, candidate: Time, now: Time, reference: Reference)
    requires !Enqueue(db, id, candidate, now, reference).NotClaimed?
    ensures Enqueue(db, id, candidate, now, reference) == (
      if db.schedules[id].interval <= 0 then Failed(IntervalNotPositive)
      else if reference.None? then Failed(PublishFailed)
      else if forall k | 0 <= k < |reference.value| :: IsSpace(reference.value[k]) then Failed(ReferenceMissing)
      else Enqueue(db, id, candidate, now, reference))
    ensures Enqueue(db, id, candidate, now, reference).Claimed? <==>
      db.schedules[id].interval > 0 && reference.Some?
      && exists k :: 0 <= k < |reference.value| && !IsSpace(reference.value[k])
  {
    if reference.Some? {
      BlankIsWhiteSpace(reference.value);
    }
  }

  /** A scheduler whose reading is stale changes nothing, whoever moved the row on since. */
  lemma StaleClaimsNothing(w: World, attempt: nat, reference: Reference)
    requires attempt in w.attempts && w.attempts[attempt].Reread?
    requires var a := w.attempts[attempt];
      || a.id !in w.db.schedules || !w.db.schedules[a.id].enabled
      || w.db.schedules[a.id].nextRunAt != a.current.nextRunAt
    ensures Next(w, ClaimStep(attempt, reference)).db == w.db
  {
  }

  /** A claim ends its attempt, and writes exactly when the row is still as it was read and the publication succeeds. */
  lemma ClaimEndsAttempt(w: World, attempt: nat, reference: Reference)
    requires attempt in w.attempts && w.attempts[attempt].Reread?
    requires w.attempts[attempt].current.enabled && w.attempts[attempt].current.nextRunAt.Some?
      && w.attempts[attempt].current.nextRunAt.value <= w.attempts[attempt].now
    ensures Next(w, ClaimStep(attempt, reference)).attempts == w.attempts[attempt := Ended]
    ensures var a := w.attempts[attempt];
      |Next(w, ClaimStep(attempt, reference)).db.commands| == |w.db.commands| +
        if a.id in w.db.schedules && w.db.schedules[a.id].enabled
          && w.db.schedules[a.id].nextRunAt == a.current.nextRunAt && a.current.interval > 0
          && reference.Some? && (exists k :: 0 <= k < |reference.value| && !IsSpace(reference.value[k]))
        then 1 else 0
  {
    if reference.Some? {
      BlankIsWhiteSpace(reference.value);
    }
  }

  /** A schedule is made only where there is none. */
  lemma EnsureMakes(w: World, id: Id, schedule: Schedule)
    ensures var v := Next(w, EnsureStep(id, schedule));
      && v.db.schedules.Keys == w.db.schedules.Keys + {id} && v.db.commands == w.db.commands
      && v.db.schedules[id] == (if id in w.db.schedules then w.db.schedules[id] else schedule)
      && forall other | other in w.db.schedules :: v.db.schedules[other] == w.db.schedules[other]
  {
  }

  /** After any interleaving at all, a due schedule gets its command from a scheduler that then works undisturbed. */
  lemma DueIsClaimedAfter(steps: seq<Step>, attempt: nat, id: Id, now: Time, messageId: string, k: nat)
    requires var db := Run(Start(), steps).db;
      && id in db.schedules && db.schedules[id].enabled && db.schedules[id].nextRunAt.Some?
      && db.schedules[id].nextRunAt.value <= now && db.schedules[id].interval > 0
    requires k < |messageId| && !IsSpace(messageId[k])
    ensures var was, more := Run(Start(), steps).db,
        steps + [ListStep(attempt, id, now)] + [RereadStep(attempt)] + [ClaimStep(attempt, Some(messageId))];
      Run(Start(), more).db.commands ==
        was.commands + [Command(id, was.schedules[id].provider, was.schedules[id].nextRunAt.value, messageId)]
  {
    var one := steps + [ListStep(attempt, id, now)];
    var two := one + [RereadStep(attempt)];
    OneMoreStep(steps, ListStep(attempt, id, now));
    OneMoreStep(one, RereadStep(attempt));
    OneMoreStep(two, ClaimStep(attempt, Some(messageId)));
    DueIsClaimed(Run(Start(), steps), attempt, id, now, messageId, k);
  }

  lemma OneMoreStep(steps: seq<Step>, step: Step)
    ensures Run(Start(), steps + [step]) == Next(Run(Start(), steps), step)
  {
    assert (steps + [step])[..|steps|] == steps;
  }

  /** What a pass over some listed occurrences has left, written out. */
  lemma EnqueuedMeans(start: Db, db: Db, ids: seq<Id>, now: Time, references: seq<Reference>, i: nat)
    requires |references| == |ids| && Enqueued(start, db, ids, now, references) && i < |ids|
    requires ids[i] in start.schedules
    ensures |db.commands| == |start.commands| + |ids| && start.commands == db.commands[..|start.commands|]
    ensures db.schedules.Keys == start.schedules.Keys
    ensures forall id | id in db.schedules && id !in ids :: db.schedules[id] == start.schedules[id]
    ensures var was, later, c := start.schedules[ids[i]], db.schedules[ids[i]], db.commands[|start.commands| + i];
      && was.nextRunAt.Some? && was.nextRunAt.value <= now && was.enabled && was.interval > 0
      && references[i].Some?
      && c.schedule == ids[i] && c.provider == was.provider && c.dueAt == was.nextRunAt.value
      && c.messageId == references[i].value
      && later.nextRunAt.Some? && now < later.nextRunAt.value <= now + was.interval
      && later.lastScheduledAt == was.nextRunAt && later.lastJobId == references[i].value
      && later.provider == was.provider && later.interval == was.interval && later.enabled
  {
  }
}
