/**
 * What a synchronisation leaves in the tables, field by field: when it goes through, what it creates, what it updates
 * and what it leaves alone.
 */
module ProviderWritten {
  import opened Prelude
  import opened ProviderDiff
  import opened ProviderApply
  import opened ProviderReplan

  // ---------- When it goes through ----------

  /** Every creation among the first k actions has its account mapped once the observed accounts are open. */
  ghost predicate Mapped(db: Tables, window: Window, observed: seq<Opening>, batch: seq<Observation>, k: nat)
    requires k <= |batch|
  {
    forall i | 0 <= i < k && ActionAt(db, window, batch, i).Create? ::
      batch[i].account in OpenAccounts(db.accounts, observed)
  }

  lemma WriteSucceeds(db: Tables, window: Window, batch: seq<Observation>, k: nat, st: Tables)
    requires Plain(db, batch) && k < |batch| && |db.transactions| <= |st.transactions|
    ensures var written := SaveWrite(st, SnapshotMatches(Load(db, window, batch)),
      WriteOf(ActionAt(db, window, batch, k)));
      && (written.Some? <==> (ActionAt(db, window, batch, k).Create? ==> batch[k].account in st.accounts))
      && (written.Some? ==>
            written.value.accounts == st.accounts && |st.transactions| <= |written.value.transactions|)
  {
    ActionShape(db, window, batch, k);
    PlansItsObservation(db, window, batch, k);
  }

  lemma SavedOneMore(db: Tables, window: Window, observed: seq<Opening>, batch: seq<Observation>, k: nat)
    requires k < |batch|
    ensures SavedTo(db, window, observed, batch, k + 1) ==
      match SavedTo(db, window, observed, batch, k)
      case None => None
      case Some(st) => SaveWrite(st, SnapshotMatches(Load(db, window, batch)), WriteOf(ActionAt(db, window, batch, k)))
  {
    var writes := PlannedWrites(Load(db, window, batch), batch);
    assert writes[..k + 1][..k] == writes[..k];
  }

  ghost predicate SavedWith(db: Tables, saved: Option<Tables>, accounts: map<string, int>, succeeds: bool) {
    && (saved.Some? <==> succeeds)
    && (saved.Some? ==> saved.value.accounts == accounts && |db.transactions| <= |saved.value.transactions|)
  }

  lemma SavedSucceeds(db: Tables, window: Window, observed: seq<Opening>, batch: seq<Observation>, k: nat)
    requires Plain(db, batch) && k < |batch|
    requires SavedWith(db, SavedTo(db, window, observed, batch, k), OpenAccounts(db.accounts, observed),
                       Mapped(db, window, observed, batch, k))
    ensures SavedWith(db, SavedTo(db, window, observed, batch, k + 1), OpenAccounts(db.accounts, observed),
                      Mapped(db, window, observed, batch, k + 1))
  {
    SavedOneMore(db, window, observed, batch, k);
    if SavedTo(db, window, observed, batch, k).Some? {
      WriteSucceeds(db, window, batch, k, SavedTo(db, window, observed, batch, k).value);
    }
  }

  lemma {:induction false} SavedSucceedsAll(
    db: Tables, window: Window, observed: seq<Opening>, batch: seq<Observation>, k: nat)
    requires Plain(db, batch) && k <= |batch|
    ensures SavedWith(db, SavedTo(db, window, observed, batch, k), OpenAccounts(db.accounts, observed),
                      Mapped(db, window, observed, batch, k))
  {
    if k == 0 {
      SyncSavesAll(db, window, observed, batch);
    } else {
      SavedSucceedsAll(db, window, observed, batch, k - 1);
      SavedSucceeds(db, window, observed, batch, k - 1);
    }
  }

  /** A synchronisation goes through exactly when every transaction it creates has its account mapped by then. */
  lemma SyncSucceedsIffMapped(db: Tables, window: Window, observed: seq<Opening>, batch: seq<Observation>)
    requires Plain(db, batch)
    ensures Sync(db, window, observed, batch).Some? <==> Mapped(db, window, observed, batch, |batch|)
  {
    SyncSavesAll(db, window, observed, batch);
    SavedSucceedsAll(db, window, observed, batch, |batch|);
  }

  // ---------- One write ----------

  /** The original that a report leaves in a transaction. */
  ghost predicate OriginalIs(original: Option<Original>, o: Observation) {
    original == if o.original.Some? then o.original
      else Some(Original(o.amount, o.currency, o.description, Some(o.effectiveAt)))
  }

  lemma CreateWrites(db: Tables, window: Window, batch: seq<Observation>, k: nat, st: Tables, next: Tables)
    requires Plain(db, batch) && k < |batch| && WrittenAt(db, window, batch, k, st, next)
    requires ActionAt(db, window, batch, k).Create?
    ensures batch[k].account in st.accounts && |next.transactions| == |st.transactions| + 1
    ensures next.transactions[..|st.transactions|] == st.transactions
    ensures var o, x := batch[k], next.transactions[|st.transactions|];
      && x.account == st.accounts[o.account] && x.fromProvider && !x.hidden && x.status == o.status
      && x.amount == o.amount && x.currency == o.currency && x.description == o.description
      && x.effectiveAt == o.effectiveAt && OriginalIs(x.original, o)
    ensures var o := batch[k];
      next.matches == st.matches + [Match(o.account, o.providerId, o.fingerprint, |st.transactions|, o.status)]
  {
    ActionShape(db, window, batch, k);
    PlansItsObservation(db, window, batch, k);
  }

  lemma UpdateWrites(db: Tables, window: Window, batch: seq<Observation>, k: nat, st: Tables, next: Tables)
    requires Plain(db, batch) && k < |batch| && WrittenAt(db, window, batch, k, st, next)
    requires |st.matches| >= |db.matches|
    requires ActionAt(db, window, batch, k).Update?
    ensures var t, reused := TargetAt(db, window, batch, k).value, ReusedAt(db, window, batch, k);
      && t < |db.transactions| && t < |st.transactions| && reused.Some? && reused.value.id < |db.matches|
      && next.transactions == st.transactions[t := MergeTransaction(db.transactions[t], batch[k])]
      && next.matches == st.matches[reused.value.id :=
           Match(batch[k].account, batch[k].providerId, batch[k].fingerprint, t, batch[k].status)]
  {
    ActionShape(db, window, batch, k);
    PlansItsObservation(db, window, batch, k);
  }

  // ---------- Rows that later writes leave alone ----------

  predicate Touches(db: Tables, window: Window, batch: seq<Observation>, j: nat, t: nat, r: nat)
    requires j < |batch|
  {
    || TargetAt(db, window, batch, j) == Some(t)
    || (ReusedAt(db, window, batch, j).Some? && ReusedAt(db, window, batch, j).value.id == r)
  }

  /** Tables that hold a transaction and a match row. */
  predicate Holds(st: Tables, t: nat, x: Transaction, r: nat, m: Match) {
    t < |st.transactions| && st.transactions[t] == x && r < |st.matches| && st.matches[r] == m
  }

  lemma WriteElsewhere(
    db: Tables, window: Window, batch: seq<Observation>, k: nat, st: Tables, next: Tables, t: nat, x: Transaction,
    r: nat, m: Match)
    requires Plain(db, batch) && k < |batch| && WrittenAt(db, window, batch, k, st, next) && Grown(db, st)
    requires Holds(st, t, x, r, m) && !Touches(db, window, batch, k, t, r)
    ensures Holds(next, t, x, r, m)
  {
    if ActionAt(db, window, batch, k).Create? {
      CreateWrites(db, window, batch, k, st, next);
      assert next.transactions[t] == next.transactions[..|st.transactions|][t];
    } else {
      UpdateWrites(db, window, batch, k, st, next);
    }
  }

  /** The tables after the first k writes hold them. */
  ghost predicate HoldsAfter(
    db: Tables, window: Window, observed: seq<Opening>, batch: seq<Observation>, k: nat, t: nat, x: Transaction, r: nat,
    m: Match)
    requires k <= |batch|
  {
    var st := SavedTo(db, window, observed, batch, k); st.Some? ==> Holds(st.value, t, x, r, m)
  }

  ghost predicate HoldsOnAt(
    db: Tables, window: Window, observed: seq<Opening>, batch: seq<Observation>, k: nat, t: nat, x: Transaction, r: nat,
    m: Match)
    requires k < |batch|
  {
    HoldsAfter(db, window, observed, batch, k, t, x, r, m) ==>
      HoldsAfter(db, window, observed, batch, k + 1, t, x, r, m)
  }

  lemma HoldsOn(
    db: Tables, window: Window, observed: seq<Opening>, batch: seq<Observation>, k: nat, t: nat, x: Transaction, r: nat,
    m: Match)
    requires Plain(db, batch) && k < |batch| && !Touches(db, window, batch, k, t, r)
    ensures HoldsOnAt(db, window, observed, batch, k, t, x, r, m)
  {
    var st, next := SavedTo(db, window, observed, batch, k), SavedTo(db, window, observed, batch, k + 1);
    SavedStep(db, window, observed, batch, k);
    if next.Some? && Holds(st.value, t, x, r, m) {
      PointsAll(db, window, observed, batch, k, 0);
      WriteElsewhere(db, window, batch, k, st.value, next.value, t, x, r, m);
    }
  }

  lemma {:induction false} WritesElsewhere(
    db: Tables, window: Window, observed: seq<Opening>, batch: seq<Observation>, i: nat, k: nat, t: nat,
    x: Transaction, r: nat, m: Match)
    requires i <= k <= |batch| && HoldsAfter(db, window, observed, batch, i, t, x, r, m)
    requires forall j: nat | i <= j < |batch| :: HoldsOnAt(db, window, observed, batch, j, t, x, r, m)
    ensures HoldsAfter(db, window, observed, batch, k, t, x, r, m)
    decreases k - i
  {
    if i < k {
      WritesElsewhere(db, window, observed, batch, i, k - 1, t, x, r, m);
      assert HoldsOnAt(db, window, observed, batch, k - 1, t, x, r, m);
    }
  }

  lemma {:induction false} SavedBefore(
    db: Tables, window: Window, observed: seq<Opening>, batch: seq<Observation>, i: nat, k: nat)
    requires i <= k <= |batch| && SavedTo(db, window, observed, batch, k).Some?
    ensures SavedTo(db, window, observed, batch, i).Some?
    decreases k - i
  {
    if i < k {
      SavedStep(db, window, observed, batch, k - 1);
      SavedBefore(db, window, observed, batch, i, k - 1);
    }
  }

  /** The tables before and after the write of an observation. */
  lemma AroundWrite(db: Tables, window: Window, observed: seq<Opening>, batch: seq<Observation>, i: nat)
    returns (st: Tables, next: Tables)
    requires Plain(db, batch) && i < |batch| && Sync(db, window, observed, batch).Some?
    ensures SavedTo(db, window, observed, batch, i) == Some(st)
      && SavedTo(db, window, observed, batch, i + 1) == Some(next)
    ensures WrittenAt(db, window, batch, i, st, next) && Grown(db, st)
    ensures st.accounts == OpenAccounts(db.accounts, observed)
  {
    SyncSavesAll(db, window, observed, batch);
    SavedBefore(db, window, observed, batch, i + 1, |batch|);
    SavedStep(db, window, observed, batch, i);
    SavedSucceedsAll(db, window, observed, batch, i);
    PointsAll(db, window, observed, batch, i, 0);
    st, next := SavedTo(db, window, observed, batch, i).value, SavedTo(db, window, observed, batch, i + 1).value;
  }

  // ---------- What is created ----------

  /**
   * Every creation of a synchronisation that went through is a new transaction on the account of the observation, from
   * a provider and visible, that shows the observation field by field, and a new match row of the observation's
   * identity that points to it.
   */
  lemma CreatedIsShown(db: Tables, window: Window, observed: seq<Opening>, batch: seq<Observation>, i: nat)
    returns (t: nat, r: nat)
    requires Plain(db, batch) && i < |batch| && Sync(db, window, observed, batch).Some?
    requires ActionAt(db, window, batch, i).Create?
    ensures var st, accounts, o :=
      Sync(db, window, observed, batch).value, OpenAccounts(db.accounts, observed), batch[i];
      && |db.transactions| <= t < |st.transactions| && |db.matches| <= r < |st.matches| && o.account in accounts
    ensures var x, o := Sync(db, window, observed, batch).value.transactions[t], batch[i];
      && x.account == OpenAccounts(db.accounts, observed)[o.account] && x.fromProvider && !x.hidden
      && x.status == o.status && x.amount == o.amount && x.currency == o.currency && x.description == o.description
      && x.effectiveAt == o.effectiveAt
      && x.original == if o.original.Some? then o.original
           else Some(Original(o.amount, o.currency, o.description, Some(o.effectiveAt)))
    ensures var m, o := Sync(db, window, observed, batch).value.matches[r], batch[i];
      && m.account == o.account && m.providerId == o.providerId && m.fingerprint == o.fingerprint
      && m.transaction == t && m.status == o.status
  {
    var st, next := AroundWrite(db, window, observed, batch, i);
    CreateWrites(db, window, batch, i, st, next);
    t, r := |st.transactions|, |st.matches|;
    var x, m := next.transactions[t], next.matches[r];
    forall j: nat | i + 1 <= j < |batch| ensures HoldsOnAt(db, window, observed, batch, j, t, x, r, m) {
      ActionShape(db, window, batch, j);
      HoldsOn(db, window, observed, batch, j, t, x, r, m);
    }
    SyncSavesAll(db, window, observed, batch);
    WritesElsewhere(db, window, observed, batch, i + 1, |batch|, t, x, r, m);
  }

  /** A transaction that shows an observation as its original follows the next report in every field. */
  lemma CreatedFollows(x: Transaction, o: Observation, p: Observation)
    requires Consistent(o) && x.amount == o.amount && x.currency == o.currency && x.description == o.description
    requires x.effectiveAt == o.effectiveAt
    requires x.original == if o.original.Some? then o.original
      else Some(Original(o.amount, o.currency, o.description, Some(o.effectiveAt)))
    ensures var y := MergeTransaction(x, p);
      && y.status == p.status && y.amount == p.amount && y.currency == p.currency && y.description == p.description
      && (o.original.None? || o.original.value.effectiveAt.Some? ==> y.effectiveAt == p.effectiveAt)
      && (o.original.Some? && o.original.value.effectiveAt.None? ==> y.effectiveAt == o.effectiveAt)
      && y.account == x.account && y.fromProvider == x.fromProvider && y.hidden == x.hidden
  {
  }

  // ---------- What is updated ----------

  /** The fields of a transaction after a merge, each by whether it still showed its original. */
  ghost predicate MergedFrom(was: Transaction, o: Observation, x: Transaction) {
    && x.account == was.account && x.fromProvider == was.fromProvider && x.hidden == was.hidden
    && x.status == o.status && OriginalIs(x.original, o)
    && x.amount ==
         (if was.original.Some? && was.original.value.amount == was.amount then o.amount else was.amount)
    && x.currency ==
         (if was.original.Some? && was.original.value.currency == was.currency then o.currency else was.currency)
    && x.description ==
         (if was.original.Some? && was.original.value.description == was.description then o.description
          else was.description)
    && x.effectiveAt ==
         (if was.original.Some? && was.original.value.effectiveAt == Some(was.effectiveAt) then o.effectiveAt
          else was.effectiveAt)
  }

  lemma MergeMerges(was: Transaction, o: Observation)
    ensures MergedFrom(was, o, MergeTransaction(was, o))
  {
  }

  /** No later observation of the batch updates the same transaction. */
  predicate UpdatesLast(db: Tables, window: Window, batch: seq<Observation>, i: nat)
    requires i < |batch|
  {
    forall j | i < j < |batch| :: !SameTarget(db, window, batch, i, j)
  }

  lemma LastUpdateUntouched(db: Tables, window: Window, batch: seq<Observation>, i: nat, j: nat)
    requires Plain(db, batch) && i < j < |batch| && TargetAt(db, window, batch, i).Some?
    requires ReusedAt(db, window, batch, i).Some? && UpdatesLast(db, window, batch, i)
    ensures !Touches(
      db, window, batch, j, TargetAt(db, window, batch, i).value, ReusedAt(db, window, batch, i).value.id)
  {
    ActionShape(db, window, batch, i);
    ActionShape(db, window, batch, j);
    assert !SameTarget(db, window, batch, i, j);
    if ReusedAt(db, window, batch, j) == ReusedAt(db, window, batch, i) {
      SameRowSameTarget(db, window, batch, i, j);
    }
  }

  /**
   * The last update of a transaction in a batch takes the status and the original, and each field exactly when the
   * transaction still showed its original there; the match row it goes on with has the observation's identity and
   * points to the transaction.
   */
  lemma UpdatedIsMerged(db: Tables, window: Window, observed: seq<Opening>, batch: seq<Observation>, i: nat)
    returns (t: nat, r: nat)
    requires Plain(db, batch) && i < |batch| && Sync(db, window, observed, batch).Some?
    requires TargetAt(db, window, batch, i).Some? && UpdatesLast(db, window, batch, i)
    ensures TargetAt(db, window, batch, i) == Some(t)
    ensures ReusedAt(db, window, batch, i).Some? && ReusedAt(db, window, batch, i).value.id == r
    ensures var st, o := Sync(db, window, observed, batch).value, batch[i];
      && t < |db.transactions| && t < |st.transactions| && MergedFrom(db.transactions[t], o, st.transactions[t])
      && r < |db.matches| && r < |st.matches|
      && st.matches[r] == Match(o.account, o.providerId, o.fingerprint, t, o.status)
  {
    var st, next := AroundWrite(db, window, observed, batch, i);
    UpdateWrites(db, window, batch, i, st, next);
    t, r := TargetAt(db, window, batch, i).value, ReusedAt(db, window, batch, i).value.id;
    MergeMerges(db.transactions[t], batch[i]);
    var x, m := next.transactions[t], next.matches[r];
    forall j: nat | i + 1 <= j < |batch| ensures HoldsOnAt(db, window, observed, batch, j, t, x, r, m) {
      LastUpdateUntouched(db, window, batch, i, j);
      HoldsOn(db, window, observed, batch, j, t, x, r, m);
    }
    SyncSavesAll(db, window, observed, batch);
    WritesElsewhere(db, window, observed, batch, i + 1, |batch|, t, x, r, m);
  }

  // ---------- What is left alone ----------

  function CountCreates(db: Tables, window: Window, batch: seq<Observation>, k: nat): nat
    requires k <= |batch|
  {
    if k == 0 then 0
    else CountCreates(db, window, batch, k - 1) + if ActionAt(db, window, batch, k - 1).Create? then 1 else 0
  }

  ghost predicate LeavesOthers(db: Tables, st: Tables, window: Window, batch: seq<Observation>, k: nat)
    requires k <= |batch|
  {
    && |st.transactions| == |db.transactions| + CountCreates(db, window, batch, k)
    && |st.matches| == |db.matches| + CountCreates(db, window, batch, k)
    && (forall t: nat | t < |db.transactions| && (forall j | 0 <= j < k :: TargetAt(db, window, batch, j) != Some(t)) ::
          st.transactions[t] == db.transactions[t])
    && (forall r: nat | r < |db.matches|
          && (forall j | 0 <= j < k :: ReusedAt(db, window, batch, j) != Some(Row(r, db.matches[r]))) ::
          st.matches[r] == db.matches[r])
  }

  lemma LeavesOthersNext(db: Tables, window: Window, batch: seq<Observation>, k: nat, st: Tables, next: Tables)
    requires Plain(db, batch) && k < |batch| && WrittenAt(db, window, batch, k, st, next)
    requires LeavesOthers(db, st, window, batch, k)
    ensures LeavesOthers(db, next, window, batch, k + 1)
  {
    ActionShape(db, window, batch, k);
    if ActionAt(db, window, batch, k).Create? {
      CreateWrites(db, window, batch, k, st, next);
      forall t: nat | t < |db.transactions| ensures next.transactions[t] == st.transactions[t] {
        assert next.transactions[t] == next.transactions[..|st.transactions|][t];
      }
    } else {
      UpdateWrites(db, window, batch, k, st, next);
    }
  }

  lemma {:induction false} LeavesOthersUpTo(
    db: Tables, window: Window, observed: seq<Opening>, batch: seq<Observation>, k: nat)
    requires Plain(db, batch) && k <= |batch| && SavedTo(db, window, observed, batch, k).Some?
    ensures LeavesOthers(db, SavedTo(db, window, observed, batch, k).value, window, batch, k)
  {
    if k == 0 {
      SyncSavesAll(db, window, observed, batch);
    } else {
      SavedStep(db, window, observed, batch, k - 1);
      LeavesOthersUpTo(db, window, observed, batch, k - 1);
      LeavesOthersNext(db, window, batch, k - 1, SavedTo(db, window, observed, batch, k - 1).value,
                       SavedTo(db, window, observed, batch, k).value);
    }
  }

  /**
   * A synchronisation adds one transaction and one match row for each creation, and leaves every transaction that is no
   * update's target and every match row that no update goes on with as they were.
   */
  lemma OthersAreLeft(db: Tables, window: Window, observed: seq<Opening>, batch: seq<Observation>)
    requires Plain(db, batch) && Sync(db, window, observed, batch).Some?
    ensures var st := Sync(db, window, observed, batch).value;
      && |st.transactions| == |db.transactions| + CountCreates(db, window, batch, |batch|)
      && |st.matches| == |db.matches| + CountCreates(db, window, batch, |batch|)
      && (forall t: nat | t < |db.transactions|
            && (forall j | 0 <= j < |batch| :: TargetAt(db, window, batch, j) != Some(t)) ::
            st.transactions[t] == db.transactions[t])
      && (forall r: nat | r < |db.matches|
            && (forall j | 0 <= j < |batch| :: ReusedAt(db, window, batch, j) != Some(Row(r, db.matches[r]))) ::
            st.matches[r] == db.matches[r])
  {
    SyncSavesAll(db, window, observed, batch);
    LeavesOthersUpTo(db, window, observed, batch, |batch|);
  }

  /** A mapped account keeps its finance account, and a new one gets that of its first opening. */
  lemma {:induction false} OpenedAsFirst(accounts: map<string, int>, observed: seq<Opening>, i: nat)
    requires i < |observed| && forall j | 0 <= j < i :: observed[j].account != observed[i].account
    ensures var mapped := OpenAccounts(accounts, observed);
      && observed[i].account in mapped
      && mapped[observed[i].account] ==
         if observed[i].account in accounts then accounts[observed[i].account] else observed[i].financeAccount
  {
    var n := |observed| - 1;
    if i < n {
      OpenedAsFirst(accounts, observed[..n], i);
    } else {
      var before := OpenAccounts(accounts, observed[..n]);
      assert observed[i].account in before <==> observed[i].account in accounts;
    }
  }
}
