/**
 * Provider synchronisation as a protocol over runs: the target window policy, the oldest-first chunks, the state
 * journal and the orchestrator (finance/internal/providers/target_window_policy.go, window_chunk_policy.go,
 * sync_orchestrator.go; finance/persistence/provider_sync_state_journal_store.go).
 */
module ProviderSync {
  import opened Prelude
  import Calendar

  datatype Window = Window(start: Time, end: Time)

  datatype Stats = Stats(
    observedAccounts: int, createdAccounts: int, observedTransactions: int,
    createdTransactions: int, updatedTransactions: int, ambiguousCreatedTransactions: int)

  const NO_STATS := Stats(0, 0, 0, 0, 0, 0)

  function MergeStats(left: Stats, right: Stats): Stats {
    Stats(left.observedAccounts + right.observedAccounts, left.createdAccounts + right.createdAccounts,
          left.observedTransactions + right.observedTransactions, left.createdTransactions + right.createdTransactions,
          left.updatedTransactions + right.updatedTransactions,
          left.ambiguousCreatedTransactions + right.ambiguousCreatedTransactions)
  }

  /** A journal record: the requested window, whether it succeeded, and when the store wrote it. */
  datatype SyncState = SyncState(window: Window, succeeded: bool, createdAt: Time, aggregate: Stats)

  type Journal = seq<SyncState>

  // ---------- The target window ----------

  const BACKFILL_YEARS := 3
  const REFRESH_DAYS := 30
  const CHUNK_DAYS := 30

  datatype PlanError = InvalidStateWindow | InvalidTargetWindow

  datatype Planned<T> = Plan(value: T) | Rejected(error: PlanError)

  /** finance/internal/providers/target_window_policy.go:89-101. */
  predicate ValidWindow(w: Window) { w.start != ZERO_TIME && w.end != ZERO_TIME && w.end > w.start }

  /** Where the next run has to start from. */
  function Checkpoint(s: SyncState): Time { if s.succeeded then s.window.end else s.window.start }

  function DetermineStart(targetEnd: Time, state: Option<SyncState>): Planned<Time> {
    match state
    case None => Plan(Calendar.AddDate(targetEnd, -BACKFILL_YEARS, 0, 0))
    case Some(s) =>
      if !ValidWindow(s.window) then Rejected(InvalidStateWindow)
      else
        var recentStart := Calendar.AddDate(targetEnd, 0, 0, -REFRESH_DAYS);
        Plan(if Checkpoint(s) < recentStart then Checkpoint(s) else recentStart)
  }

  function Determine(
    now: Time, state: Option<SyncState>, windowStart: Option<Time>, windowEnd: Option<Time>): Planned<Window> {
    var targetEnd := if windowEnd.Some? then windowEnd.value else now;
    var targetStart := if windowStart.Some? then Plan(windowStart.value) else DetermineStart(targetEnd, state);
    match targetStart
    case Rejected(error) => Rejected(error)
    case Plan(start) => if ValidWindow(Window(start, targetEnd)) then Plan(Window(start, targetEnd))
      else Rejected(InvalidTargetWindow)
  }

  /** A run that continues from a record never starts behind its checkpoint, and looks back at least 30 days. */
  lemma DetermineResumes(now: Time, state: SyncState, windowEnd: Option<Time>, target: Window)
    requires Determine(now, Some(state), None, windowEnd) == Plan(target)
    ensures target.start <= Checkpoint(state)
    ensures target.start == Min(Checkpoint(state), target.end - REFRESH_DAYS * DAY)
    ensures target.end == if windowEnd.Some? then windowEnd.value else now
  {
    Calendar.AddDays(target.end, -REFRESH_DAYS);
  }

  /**
   * Without a journal and without an explicit start, a run goes back to the same date and clock three years before its
   * end; from the last of February, which that year did not have, to the first of March.
   */
  lemma FirstRunGoesBackThreeYears(now: Time, windowEnd: Option<Time>, target: Window)
    requires Determine(now, None, None, windowEnd) == Plan(target)
    ensures target.end == if windowEnd.Some? then windowEnd.value else now
    ensures var from, to := Calendar.CivilOf(target.start), Calendar.CivilOf(target.end);
      from == if to.month % 12 == 1 && to.day == 29 then Calendar.Civil(to.month - 35, 1, to.timeOfDay)
              else Calendar.Civil(to.month - 36, to.day, to.timeOfDay)
  {
    Calendar.ThreeYearsBefore(target.end);
  }

  /**
   * A run that continues from a record starts at its checkpoint, the end of a window that succeeded and the start of
   * one that failed, or 30 days before its own end if that is earlier. A window that is no window stops it.
   */
  lemma ContinuedRunStarts(now: Time, state: SyncState, windowEnd: Option<Time>)
    ensures var to := if windowEnd.Some? then windowEnd.value else now;
      var checkpoint := if state.succeeded then state.window.end else state.window.start;
      var recent := to - 2_592_000_000_000_000;
      var from := if checkpoint < recent then checkpoint else recent;
      Determine(now, Some(state), None, windowEnd) ==
        if state.window.start == 0 || state.window.end == 0 || state.window.end <= state.window.start then
          Rejected(InvalidStateWindow)
        else if from == 0 || to == 0 || to <= from then Rejected(InvalidTargetWindow)
        else Plan(Window(from, to))
  {
    Calendar.AddDays(if windowEnd.Some? then windowEnd.value else now, -30);
  }

  /** An explicit start is taken as it is, whatever was journaled. */
  lemma ExplicitStart(now: Time, state: Option<SyncState>, start: Time, windowEnd: Option<Time>)
    ensures var to := if windowEnd.Some? then windowEnd.value else now;
      Determine(now, state, Some(start), windowEnd) ==
        if start == 0 || to == 0 || to <= start then Rejected(InvalidTargetWindow) else Plan(Window(start, to))
  {
  }

  // ---------- Chunks ----------

  /** Contiguous windows from the start to the end of the target, none longer than a chunk and only the last shorter. */
  predicate Tiles(windows: seq<Window>, target: Window) {
    && windows != [] && windows[0].start == target.start && windows[|windows| - 1].end == target.end
    && (forall i | 0 <= i < |windows| :: windows[i].start < windows[i].end <= windows[i].start + CHUNK_DAYS * DAY)
    && (forall i | 0 <= i < |windows| - 1 ::
          windows[i + 1].start == windows[i].end == windows[i].start + CHUNK_DAYS * DAY)
  }

  ghost function Chunks(target: Window): (windows: seq<Window>)
    requires target.start < target.end
    ensures Tiles(windows, target)
    decreases target.end - target.start
  {
    var end := Min(target.start + CHUNK_DAYS * DAY, target.end);
    if end == target.end then [target] else [Window(target.start, end)] + Chunks(Window(end, target.end))
  }

  /** Every chunk but the last is exactly 30 days long, and each starts where the one before it ends. */
  lemma ChunksAre30Days(target: Window)
    requires target.start < target.end
    ensures var windows := Chunks(target);
      && |windows| >= 1 && windows[0].start == target.start && windows[|windows| - 1].end == target.end
      && (forall i | 0 <= i < |windows| - 1 ::
            windows[i + 1].start == windows[i].end == windows[i].start + 2_592_000_000_000_000)
      && (forall i | 0 <= i < |windows| ::
            windows[i].start < windows[i].end <= windows[i].start + 2_592_000_000_000_000)
  {
  }

  method PlusDays(t: Time, days: int) returns (r: Time)
    ensures r == t + days * DAY
  {
    Calendar.AddDays(t, days);
    return Calendar.AddDate(t, 0, 0, days);
  }

  /** Oldest first. The chunks of a target are determined by being its tiling. */
  method Split(target: Window) returns (r: Planned<seq<Window>>)
    ensures r.Rejected? <==> !ValidWindow(target)
    ensures r.Plan? ==> r.value == Chunks(target)
  {
    if !ValidWindow(target) {
      return Rejected(InvalidTargetWindow);
    }
    var windows := [];
    var start := target.start;
    while start < target.end
      invariant target.start <= start <= target.end
      invariant if start < target.end then windows + Chunks(Window(start, target.end)) == Chunks(target)
                else windows == Chunks(target)
    {
      var end := PlusDays(start, CHUNK_DAYS);
      if end > target.end {
        end := target.end;
      }
      ghost var before := windows;
      windows := windows + [Window(start, end)];
      ChunkStep(before, Window(start, target.end), end);
      start := end;
    }
    return Plan(windows);
  }

  lemma FirstChunk(rest: Window, end: Time)
    requires rest.start < rest.end && end == Min(rest.start + CHUNK_DAYS * DAY, rest.end)
    ensures Chunks(rest) == [Window(rest.start, end)] + if end < rest.end then Chunks(Window(end, rest.end)) else []
  {
  }

  lemma Joined(before: seq<Window>, chunk: Window, tail: seq<Window>)
    ensures before + ([chunk] + tail) == before + [chunk] + tail
  {
  }

  lemma ChunkStep(before: seq<Window>, rest: Window, end: Time)
    requires rest.start < rest.end && end == Min(rest.start + CHUNK_DAYS * DAY, rest.end)
    ensures before + Chunks(rest) ==
      before + [Window(rest.start, end)] + if end < rest.end then Chunks(Window(end, rest.end)) else []
  {
    FirstChunk(rest, end);
    Joined(before, Window(rest.start, end), if end < rest.end then Chunks(Window(end, rest.end)) else []);
  }

  // ---------- The journal ----------

  /**
   * The latest record by creation time, then by position:
   * finance/persistence/provider_sync_state_journal_store.go:25-44.
   */
  function LastState(journal: Journal): Option<SyncState> {
    if journal == [] then None
    else
      var last := journal[|journal| - 1];
      match LastState(journal[..|journal| - 1])
      case None => Some(last)
      case Some(s) => if s.createdAt > last.createdAt then Some(s) else Some(last)
  }

  lemma {:induction false} LastStateIsLatest(journal: Journal)
    ensures LastState(journal).None? <==> journal == []
    ensures LastState(journal).Some? ==>
      LastState(journal).value in journal
        && forall s | s in journal :: s.createdAt <= LastState(journal).value.createdAt
  {
    if journal != [] {
      var n := |journal| - 1;
      LastStateIsLatest(journal[..n]);
      assert journal == journal[..n] + [journal[n]];
    }
  }

  // ---------- One run ----------

  /**
   * What happens to one chunk: committed with its success record, failed and recorded, or failed and not even
   * recorded.
   */
  datatype Outcome = Commit(createdAt: Time, stats: Stats) | Fail(createdAt: Time) | FailUnrecorded

  /** What one chunk appends. */
  function ChunkRecord(window: Window, aggregate: Stats, outcome: Outcome): Journal {
    match outcome
    case Commit(at, stats) => [SyncState(window, true, at, MergeStats(aggregate, stats))]
    case Fail(at) => [SyncState(window, false, at, aggregate)]
    case FailUnrecorded => []
  }

  /** The records a run appends from its i-th chunk on: it stops at the first failure. */
  ghost function RunRecords(windows: seq<Window>, outcome: nat -> Outcome, i: nat, aggregate: Stats): Journal
    requires i <= |windows|
    decreases |windows| - i
  {
    if i == |windows| then []
    else if outcome(i).Commit? then
      ChunkRecord(windows[i], aggregate, outcome(i))
        + RunRecords(windows, outcome, i + 1, MergeStats(aggregate, outcome(i).stats))
    else ChunkRecord(windows[i], aggregate, outcome(i))
  }

  predicate Committed(outcome: nat -> Outcome, n: nat) { forall i | 0 <= i < n :: outcome(i).Commit? }

  ghost function TotalStats(outcome: nat -> Outcome, n: nat): Stats
    requires Committed(outcome, n)
  {
    if n == 0 then NO_STATS else MergeStats(TotalStats(outcome, n - 1), outcome(n - 1).stats)
  }

  datatype RunResult =
    | PlanningFailed(error: PlanError)
    | WindowFailed
    | Completed(target: Window, executed: seq<Window>, stats: Stats)

  class SyncOrchestrator {
    var journal: Journal

    constructor (journal: Journal)
      ensures this.journal == journal
    {
      this.journal := journal;
    }

    /**
     * The window executor by its contract: a successful execution commits the window's writes and its success
     * record in one transaction, a failed one leaves the journal alone.
     */
    method Execute(window: Window, aggregate: Stats, outcome: Outcome) returns (ok: bool, stats: Stats)
      modifies this
      ensures ok == outcome.Commit?
      ensures ok ==> stats == outcome.stats
      ensures journal == if ok then
        old(journal) + [SyncState(window, true, outcome.createdAt, MergeStats(aggregate, stats))] else old(journal)
    {
      match outcome
      case Commit(at, observed) =>
        ok, stats := true, observed;
        journal := journal + [SyncState(window, true, at, MergeStats(aggregate, observed))];
      case Fail(_) =>
        ok, stats := false, NO_STATS;
      case FailUnrecorded =>
        ok, stats := false, NO_STATS;
    }

    /** finance/internal/providers/sync_orchestrator.go:234-302. */
    method ExecuteRequestedWindow(window: Window, aggregate: Stats, outcome: Outcome) returns (ok: bool, updated: Stats)
      modifies this
      ensures ok == outcome.Commit?
      ensures ok ==> updated == MergeStats(aggregate, outcome.stats)
      ensures journal == old(journal) + ChunkRecord(window, aggregate, outcome)
    {
      var stats;
      ok, stats := Execute(window, aggregate, outcome);
      if !ok {
        if outcome.Fail? {
          journal := journal + [SyncState(window, false, outcome.createdAt, aggregate)];
        }
        return false, NO_STATS;
      }
      updated := MergeStats(aggregate, stats);
    }

    method ExecuteAll(
      windows: seq<Window>, outcome: nat -> Outcome) returns (ok: bool, executed: seq<Window>, stats: Stats)
      modifies this
      ensures ok == Committed(outcome, |windows|)
      ensures ok ==> executed == windows && stats == TotalStats(outcome, |windows|)
      ensures journal == old(journal) + RunRecords(windows, outcome, 0, NO_STATS)
    {
      executed, stats := [], NO_STATS;
      for i := 0 to |windows|
        invariant executed == windows[..i] && Committed(outcome, i) && stats == TotalStats(outcome, i)
        invariant old(journal) + RunRecords(windows, outcome, 0, NO_STATS) ==
          journal + RunRecords(windows, outcome, i, stats)
      {
        ghost var before := journal;
        var updated;
        ok, updated := ExecuteRequestedWindow(windows[i], stats, outcome(i));
        if !ok {
          return;
        }
        Concatenated(before, ChunkRecord(windows[i], stats, outcome(i)), RunRecords(windows, outcome, i + 1, updated));
        executed := executed + [windows[i]];
        stats := updated;
      }
      ok := true;
    }

    /** finance/internal/providers/sync_orchestrator.go:120-200. */
    method Orchestrate(now: Time, windowStart: Option<Time>, windowEnd: Option<Time>, outcome: nat -> Outcome)
      returns (result: RunResult)
      modifies this
      ensures journal == AfterRun(old(journal), now, windowStart, windowEnd, outcome)
      ensures var target := Determine(now, if windowStart.None? then LastState(old(journal)) else None, windowStart,
        windowEnd);
        match target
        case Rejected(error) => result == PlanningFailed(error)
        case Plan(window) =>
          var chunks := Chunks(window);
          if Committed(outcome, |chunks|) then result == Completed(window, chunks, TotalStats(outcome, |chunks|))
          else result == WindowFailed
    {
      var lastState := if windowStart.None? then LastState(journal) else None;
      var determined := Determine(now, lastState, windowStart, windowEnd);
      if determined.Rejected? {
        return PlanningFailed(determined.error);
      }
      var split := Split(determined.value);
      var ok, executed, stats := ExecuteAll(split.value, outcome);
      return if ok then Completed(determined.value, executed, stats) else WindowFailed;
    }
  }

  lemma Concatenated(a: Journal, b: Journal, c: Journal)
    ensures a + (b + c) == (a + b) + c
  {
  }

  /** The journal after one run. */
  ghost function AfterRun(
    journal: Journal, now: Time, windowStart: Option<Time>, windowEnd: Option<Time>, outcome: nat -> Outcome): Journal {
    match Determine(now, if windowStart.None? then LastState(journal) else None, windowStart, windowEnd)
    case Rejected(_) => journal
    case Plan(target) => journal + RunRecords(Chunks(target), outcome, 0, NO_STATS)
  }

  // ---------- Coverage over any sequence of runs ----------

  /** A run without an explicit start: any clock, any explicit end, any outcome of each chunk. */
  datatype Run = Run(now: Time, windowEnd: Option<Time>, outcome: nat -> Outcome)

  ghost function JournalAfter(runs: seq<Run>): Journal {
    if runs == [] then []
    else
      var run := runs[|runs| - 1];
      AfterRun(JournalAfter(runs[..|runs| - 1]), run.now, None, run.windowEnd, run.outcome)
  }

  ghost predicate CoveredAt(journal: Journal, t: Time) {
    exists i :: 0 <= i < |journal| && journal[i].succeeded && journal[i].window.start <= t < journal[i].window.end
  }

  /** Every instant of [from, to) lies in a window that succeeded. */
  ghost predicate Covered(journal: Journal, from: Time, to: Time) { forall t | from <= t < to :: CoveredAt(journal, t) }

  /** Whatever record the next run continues from, nothing before its checkpoint is missing. */
  ghost predicate NoGap(journal: Journal) {
    forall i | 0 <= i < |journal| :: Covered(journal, journal[0].window.start, Checkpoint(journal[i]))
  }

  lemma CoveredGrows(journal: Journal, more: Journal, from: Time, to: Time)
    requires Covered(journal, from, to)
    ensures Covered(journal + more, from, to)
  {
    forall t | from <= t < to ensures CoveredAt(journal + more, t) {
      assert CoveredAt(journal, t);
      var i :| 0 <= i < |journal| && journal[i].succeeded && journal[i].window.start <= t < journal[i].window.end;
      assert (journal + more)[i] == journal[i];
    }
  }

  /** A chunk that starts no later than everything covered so far leaves no gap, whether it succeeds or fails. */
  lemma AppendKeepsNoGap(journal: Journal, record: SyncState)
    requires NoGap(journal)
    requires record.window.start <= record.window.end
    requires journal != [] ==> Covered(journal, journal[0].window.start, record.window.start)
    ensures NoGap(journal + [record])
    ensures record.succeeded ==> Covered(journal + [record], (journal + [record])[0].window.start, record.window.end)
  {
    var next := journal + [record];
    var from := next[0].window.start;
    forall i | 0 <= i < |next| ensures Covered(next, from, Checkpoint(next[i])) {
      if i < |journal| {
        assert journal[i] == next[i] && journal[0] == next[0];
        CoveredGrows(journal, [record], from, Checkpoint(journal[i]));
      } else {
        if journal != [] {
          CoveredGrows(journal, [record], from, record.window.start);
        }
        LastWindowCovers(journal, record, from);
      }
    }
    if record.succeeded {
      assert Checkpoint(next[|journal|]) == record.window.end;
    }
  }

  lemma LastWindowCovers(journal: Journal, record: SyncState, from: Time)
    requires Covered(journal + [record], from, record.window.start)
    ensures Covered(journal + [record], from, Checkpoint(record))
  {
    var next := journal + [record];
    forall t | from <= t < Checkpoint(record) ensures CoveredAt(next, t) {
      assert next[|journal|] == record;
    }
  }

  lemma {:induction false} RunKeepsNoGap(
    journal: Journal, windows: seq<Window>, outcome: nat -> Outcome, i: nat, aggregate: Stats)
    requires NoGap(journal) && i <= |windows|
    requires forall j | 0 <= j < |windows| :: windows[j].start < windows[j].end
    requires forall j | 0 <= j < |windows| - 1 :: windows[j + 1].start == windows[j].end
    requires i < |windows| && journal != [] ==> Covered(journal, journal[0].window.start, windows[i].start)
    ensures NoGap(journal + RunRecords(windows, outcome, i, aggregate))
    decreases |windows| - i
  {
    if i == |windows| || outcome(i).FailUnrecorded? {
      assert journal + RunRecords(windows, outcome, i, aggregate) == journal;
    } else {
      var record := ChunkRecord(windows[i], aggregate, outcome(i))[0];
      assert record.window == windows[i];
      AppendKeepsNoGap(journal, record);
      if outcome(i).Commit? {
        var merged := MergeStats(aggregate, outcome(i).stats);
        RunKeepsNoGap(journal + [record], windows, outcome, i + 1, merged);
        Concatenated(journal, [record], RunRecords(windows, outcome, i + 1, merged));
      }
    }
  }

  /**
   * No gap, ever: after any sequence of runs, with any clocks, explicit ends, failures and lost failure records, and
   * whichever record the skewed creation times put last, the succeeded windows cover everything from the first
   * journaled window's start up to that record's checkpoint.
   */
  lemma {:induction false} NoGapEver(runs: seq<Run>)
    ensures NoGap(JournalAfter(runs))
    ensures var journal := JournalAfter(runs);
      journal != [] ==>
        LastState(journal).Some? && Covered(journal, journal[0].window.start, Checkpoint(LastState(journal).value))
  {
    if runs != [] {
      var n := |runs| - 1;
      NoGapEver(runs[..n]);
      OneRunKeepsNoGap(JournalAfter(runs[..n]), runs[n]);
    }
    var journal := JournalAfter(runs);
    LastStateIsLatest(journal);
    if journal != [] {
      var i :| 0 <= i < |journal| && journal[i] == LastState(journal).value;
    }
  }

  lemma OneRunKeepsNoGap(journal: Journal, run: Run)
    requires NoGap(journal)
    ensures NoGap(AfterRun(journal, run.now, None, run.windowEnd, run.outcome))
  {
    match Determine(run.now, LastState(journal), None, run.windowEnd) {
      case Rejected(_) =>
      case Plan(target) =>
        LastStateIsLatest(journal);
        if journal != [] {
          DetermineResumes(run.now, LastState(journal).value, run.windowEnd, target);
          var i :| 0 <= i < |journal| && journal[i] == LastState(journal).value;
          assert Covered(journal, journal[0].window.start, Checkpoint(journal[i]));
        }
        RunKeepsNoGap(journal, Chunks(target), run.outcome, 0, NO_STATS);
    }
  }

  // ---------- Progress of a successful run ----------

  lemma LastOfAppended(journal: Journal, record: SyncState)
    ensures LastState(journal + [record]) == Some(record) <==>
      forall s | s in journal :: s.createdAt <= record.createdAt
  {
    assert (journal + [record])[..|journal|] == journal;
    LastStateIsLatest(journal);
  }

  /** A fully successful run ends its journal with a success record for the target's end and all its work counted. */
  lemma {:induction false} SuccessfulRunRecords(windows: seq<Window>, outcome: nat -> Outcome, i: nat)
    requires i < |windows| && Committed(outcome, |windows|)
    ensures var records := RunRecords(windows, outcome, i, TotalStats(outcome, i));
      && |records| == |windows| - i
      && records[|records| - 1].succeeded && records[|records| - 1].window == windows[|windows| - 1]
      && records[|records| - 1].createdAt == outcome(|windows| - 1).createdAt
      && records[|records| - 1].aggregate == TotalStats(outcome, |windows|)
    decreases |windows| - i
  {
    var merged := TotalStats(outcome, i + 1);
    assert RunRecords(windows, outcome, i, TotalStats(outcome, i)) ==
      ChunkRecord(windows[i], TotalStats(outcome, i), outcome(i)) + RunRecords(windows, outcome, i + 1, merged);
    if i + 1 < |windows| {
      SuccessfulRunRecords(windows, outcome, i + 1);
    }
  }

  /** A number of some chunks' statistics, added up. */
  ghost function SumOf(outcome: nat -> Outcome, part: Stats -> int, n: nat): int {
    if n == 0 then 0
    else SumOf(outcome, part, n - 1) + if outcome(n - 1).Commit? then part(outcome(n - 1).stats) else 0
  }

  /** The statistics of a run are those of its chunks, added up number by number. */
  lemma {:induction false} StatsAddUp(outcome: nat -> Outcome, n: nat)
    requires Committed(outcome, n)
    ensures var total := TotalStats(outcome, n);
      && total.observedAccounts == SumOf(outcome, (s: Stats) => s.observedAccounts, n)
      && total.createdAccounts == SumOf(outcome, (s: Stats) => s.createdAccounts, n)
      && total.observedTransactions == SumOf(outcome, (s: Stats) => s.observedTransactions, n)
      && total.createdTransactions == SumOf(outcome, (s: Stats) => s.createdTransactions, n)
      && total.updatedTransactions == SumOf(outcome, (s: Stats) => s.updatedTransactions, n)
      && total.ambiguousCreatedTransactions == SumOf(outcome, (s: Stats) => s.ambiguousCreatedTransactions, n)
  {
    if n > 0 {
      StatsAddUp(outcome, n - 1);
    }
  }

  /** What a record of a run says of its chunk, and that all chunks before it succeeded. */
  ghost predicate RecordTells(windows: seq<Window>, outcome: nat -> Outcome, i: nat, record: SyncState) {
    && i < |windows| && Committed(outcome, i) && record.window == windows[i] && !outcome(i).FailUnrecorded?
    && (record.succeeded <==> outcome(i).Commit?) && record.createdAt == outcome(i).createdAt
    && record.aggregate == TotalStats(outcome, if outcome(i).Commit? then i + 1 else i)
  }

  /** The first record and the others. */
  lemma RecordsSplit(windows: seq<Window>, outcome: nat -> Outcome, i: nat)
    requires i < |windows| && Committed(outcome, i + 1)
    ensures RunRecords(windows, outcome, i, TotalStats(outcome, i)) ==
      [SyncState(windows[i], true, outcome(i).createdAt, TotalStats(outcome, i + 1))]
        + RunRecords(windows, outcome, i + 1, TotalStats(outcome, i + 1))
  {
  }

  /** A run leaves one record for each chunk up to the first that failed, which it may not manage to record. */
  lemma {:induction false} RecordsCounted(windows: seq<Window>, outcome: nat -> Outcome, i: nat, n: nat)
    requires i <= n <= |windows| && Committed(outcome, n) && (n < |windows| ==> !outcome(n).Commit?)
    ensures |RunRecords(windows, outcome, i, TotalStats(outcome, i))| ==
      n - i + if n < |windows| && outcome(n).Fail? then 1 else 0
    decreases n - i
  {
    if i < n {
      RecordsSplit(windows, outcome, i);
      RecordsCounted(windows, outcome, i + 1, n);
    }
  }

  /**
   * The records of a run are its chunks in order: a record succeeded exactly when its chunk was committed, and carries
   * the statistics of all committed chunks so far.
   */
  lemma {:induction false} RecordsTell(windows: seq<Window>, outcome: nat -> Outcome, i: nat)
    requires i <= |windows| && Committed(outcome, i)
    ensures var records := RunRecords(windows, outcome, i, TotalStats(outcome, i));
      forall k: nat | k < |records| :: RecordTells(windows, outcome, i + k, records[k])
    decreases |windows| - i
  {
    if i < |windows| && outcome(i).Commit? {
      RecordsTell(windows, outcome, i + 1);
      var rest := RunRecords(windows, outcome, i + 1, TotalStats(outcome, i + 1));
      var records := RunRecords(windows, outcome, i, TotalStats(outcome, i));
      RecordsSplit(windows, outcome, i);
      forall k: nat | k < |records| ensures RecordTells(windows, outcome, i + k, records[k]) {
        if k > 0 {
          assert RecordTells(windows, outcome, i + 1 + (k - 1), rest[k - 1]);
        }
      }
    }
  }

  /** The windows that succeeded in a fully successful run cover its target. */
  lemma SuccessfulRunCovers(
    journal: Journal, now: Time, windowStart: Option<Time>, windowEnd: Option<Time>, outcome: nat -> Outcome,
    target: Window)
    requires Determine(now, if windowStart.None? then LastState(journal) else None, windowStart, windowEnd) ==
      Plan(target)
    requires Committed(outcome, |Chunks(target)|)
    ensures Covered(AfterRun(journal, now, windowStart, windowEnd, outcome), target.start, target.end)
  {
    var chunks, after := Chunks(target), AfterRun(journal, now, windowStart, windowEnd, outcome);
    var records := RunRecords(chunks, outcome, 0, NO_STATS);
    RecordsTell(chunks, outcome, 0);
    RecordsCounted(chunks, outcome, 0, |chunks|);
    assert after == journal + records;
    forall t | target.start <= t < target.end ensures CoveredAt(after, t) {
      var k := ChunkAt(target, t);
      assert RecordTells(chunks, outcome, 0 + k, records[k]);
      assert after[|journal| + k] == records[k];
    }
  }

  /** The chunk an instant of the target lies in. */
  lemma {:induction false} ChunkAt(target: Window, t: Time) returns (k: nat)
    requires target.start <= t < target.end
    ensures k < |Chunks(target)| && Chunks(target)[k].start <= t < Chunks(target)[k].end
    decreases target.end - target.start
  {
    var end := Min(target.start + CHUNK_DAYS * DAY, target.end);
    if t < end {
      k := 0;
    } else {
      k := ChunkAt(Window(end, target.end), t);
      k := k + 1;
    }
  }

  /** A first run that fully succeeds has covered the three years before its end. */
  lemma FirstRunCoversThreeYears(run: Run, target: Window)
    requires Determine(run.now, None, None, run.windowEnd) == Plan(target)
    requires Committed(run.outcome, |Chunks(target)|)
    ensures var journal := JournalAfter([run]);
      var from, to := Calendar.CivilOf(target.start), Calendar.CivilOf(target.end);
      && Covered(journal, target.start, target.end)
      && target.end == (if run.windowEnd.Some? then run.windowEnd.value else run.now)
      && from == (if to.month % 12 == 1 && to.day == 29 then Calendar.Civil(to.month - 35, 1, to.timeOfDay)
                  else Calendar.Civil(to.month - 36, to.day, to.timeOfDay))
  {
    assert JournalAfter([run][..0]) == [];
    FirstRunGoesBackThreeYears(run.now, run.windowEnd, target);
    SuccessfulRunCovers([], run.now, None, run.windowEnd, run.outcome, target);
  }

  /** The run that wrote the first record of all, over the journal that was empty until then. */
  lemma {:induction false} FirstRecord(runs: seq<Run>) returns (k: nat, target: Window)
    requires JournalAfter(runs) != []
    ensures k < |runs| && JournalAfter(runs[..k]) == []
    ensures Determine(runs[k].now, None, None, runs[k].windowEnd) == Plan(target)
    ensures JournalAfter(runs)[0].window.start == target.start
  {
    var n := |runs| - 1;
    var before := JournalAfter(runs[..n]);
    if before != [] {
      k, target := FirstRecord(runs[..n]);
      assert runs[..n][..k] == runs[..k];
    } else {
      k, target := n, Determine(runs[n].now, None, None, runs[n].windowEnd).value;
      RecordsTell(Chunks(target), runs[n].outcome, 0);
    }
  }

  /**
   * Nothing is ever missing since the backfill: the windows that succeeded in any sequence of runs cover everything
   * from three years before the end of the first recorded run up to the checkpoint the next run continues from.
   */
  lemma NothingMissingSinceBackfill(runs: seq<Run>) returns (k: nat, target: Window)
    requires JournalAfter(runs) != []
    ensures k < |runs| && Determine(runs[k].now, None, None, runs[k].windowEnd) == Plan(target)
    ensures var last := LastState(JournalAfter(runs));
      last.Some? && Covered(JournalAfter(runs), target.start, Checkpoint(last.value))
    ensures var from, to := Calendar.CivilOf(target.start), Calendar.CivilOf(target.end);
      from == if to.month % 12 == 1 && to.day == 29 then Calendar.Civil(to.month - 35, 1, to.timeOfDay)
              else Calendar.Civil(to.month - 36, to.day, to.timeOfDay)
  {
    k, target := FirstRecord(runs);
    FirstRunGoesBackThreeYears(runs[k].now, runs[k].windowEnd, target);
    NoGapEver(runs);
  }

  /**
   * A fully successful run ends with a record whose checkpoint is the target's end. The next run continues from that
   * record exactly when the journal holds no record dated after it.
   */
  lemma SuccessMovesCheckpoint(
    journal: Journal, now: Time, windowStart: Option<Time>, windowEnd: Option<Time>, outcome: nat -> Outcome,
    target: Window)
    requires Determine(now, if windowStart.None? then LastState(journal) else None, windowStart, windowEnd) ==
      Plan(target)
    requires Committed(outcome, |Chunks(target)|)
    ensures var after := AfterRun(journal, now, windowStart, windowEnd, outcome);
      && after != []
      && var last := after[|after| - 1];
      && last.succeeded && Checkpoint(last) == target.end && last.aggregate == TotalStats(outcome, |Chunks(target)|)
      && (LastState(after) == Some(last) <==> forall s | s in after :: s.createdAt <= last.createdAt)
  {
    var chunks := Chunks(target);
    var records := RunRecords(chunks, outcome, 0, NO_STATS);
    assert AfterRun(journal, now, windowStart, windowEnd, outcome) == journal + records;
    LastChunkRecorded(target, outcome);
    LastRecord(journal, records);
  }

  lemma LastChunkRecorded(target: Window, outcome: nat -> Outcome)
    requires target.start < target.end && Committed(outcome, |Chunks(target)|)
    ensures var records := RunRecords(Chunks(target), outcome, 0, NO_STATS);
      && records != []
      && var last := records[|records| - 1];
      && last.succeeded && Checkpoint(last) == target.end && last.aggregate == TotalStats(outcome, |Chunks(target)|)
  {
    var chunks := Chunks(target);
    assert chunks[|chunks| - 1].end == target.end;
    SuccessfulRunRecords(chunks, outcome, 0);
  }

  lemma LastRecord(journal: Journal, records: Journal)
    requires records != []
    ensures var after, last := journal + records, records[|records| - 1];
      && after[|after| - 1] == last
      && (LastState(after) == Some(last) <==> forall s | s in after :: s.createdAt <= last.createdAt)
  {
    var after := journal + records;
    var n := |after| - 1;
    assert after == after[..n] + [after[n]];
    LastOfAppended(after[..n], after[n]);
  }

  /** One run over one chunk leaves one record. */
  lemma OneChunkRun(
    journal: Journal, now: Time, windowStart: Option<Time>, end: Time, outcome: nat -> Outcome, target: Window)
    requires Determine(now, if windowStart.None? then LastState(journal) else None, windowStart, Some(end)) ==
      Plan(target)
    requires target.end <= target.start + CHUNK_DAYS * DAY && !outcome(0).FailUnrecorded?
    ensures AfterRun(journal, now, windowStart, Some(end), outcome) ==
      journal + [SyncState(target, outcome(0).Commit?, outcome(0).createdAt,
                           if outcome(0).Commit? then MergeStats(NO_STATS, outcome(0).stats) else NO_STATS)]
  {
    FirstChunk(target, target.end);
    assert Chunks(target) == [target];
    var record := ChunkRecord(target, NO_STATS, outcome(0));
    assert RunRecords([target], outcome, 0, NO_STATS) == record by {
      if outcome(0).Commit? {
        assert RunRecords([target], outcome, 1, MergeStats(NO_STATS, outcome(0).stats)) == [];
        assert record + [] == record;
      }
    }
  }

  /**
   * With a clock that went back, a successful run leaves an older checkpoint in place: a failed run over the second
   * day, recorded at 100, then a run without an explicit start that succeeds up to the end of the third, recorded at
   * 50.
   */
  lemma SkewedClockExample(now: Time)
    ensures var first := AfterRun([], now, Some(DAY), Some(2 * DAY), (i: nat) => Fail(100));
      var second := AfterRun(first, now, None, Some(3 * DAY), (i: nat) => Commit(50, NO_STATS));
      && |second| == 2 && second[1].succeeded && Checkpoint(second[1]) == 3 * DAY
      && LastState(second) == Some(second[0]) && Checkpoint(second[0]) == DAY
  {
    var first := AfterRun([], now, Some(DAY), Some(2 * DAY), (i: nat) => Fail(100));
    OneChunkRun([], now, Some(DAY), 2 * DAY, (i: nat) => Fail(100), Window(DAY, 2 * DAY));
    var stale := SyncState(Window(DAY, 2 * DAY), false, 100, NO_STATS);
    assert first == [stale];
    assert [stale][..0] == [];
    assert LastState(first) == Some(stale);
    Calendar.AddDays(3 * DAY, -REFRESH_DAYS);
    var target := Window(3 * DAY - REFRESH_DAYS * DAY, 3 * DAY);
    OneChunkRun(first, now, None, 3 * DAY, (i: nat) => Commit(50, NO_STATS), target);
    LastOfAppended(first, SyncState(target, true, 50, MergeStats(NO_STATS, NO_STATS)));
    var recent := SyncState(target, true, 50, MergeStats(NO_STATS, NO_STATS));
    assert [stale, recent][..1] == [stale];
  }
}
