/** Laws of whole runs: what handlers remember about an order stays true, and what the log of committed
    statements says about it adds up. */
module RunInvariants {
  import opened Wrappers
  import opened Orders
  import opened Channels
  import opened Interleaving

  ghost predicate TxnFits(s: Sys, p: nat) {
    var proc := ProcOf(s, p);
    proc.txn.NoTxn? || MayIssue(s.channels, proc.job, proc.txn.op)
  }

  /** Every active transaction, and every committed one, runs a statement that its handler may issue. */
  ghost predicate FitsOk(s: Sys) {
    && (forall p :: TxnFits(s, p))
    && (forall e | e in s.log :: MayIssue(s.channels, e.job, e.op))
  }

  lemma StepKeepsFits(s: Sys, step: Step)
    requires FitsOk(s)
    ensures FitsOk(Fire(s, step)) && Fire(s, step).channels == s.channels
    ensures forall e | e in s.log :: e in Fire(s, step).log
  {
    forall q ensures TxnFits(Fire(s, step), q) {
      assert TxnFits(s, q);
    }
    if Enabled(s, step) && step.Commit? {
      assert TxnFits(s, step.pid);
    }
  }

  lemma {:induction false} RunFits(init: Sys, steps: seq<Step>)
    requires Initial(init)
    ensures FitsOk(Exec(init, steps)) && Exec(init, steps).channels == init.channels
  {
    if steps != [] {
      RunFits(init, steps[..|steps| - 1]);
      StepKeepsFits(Exec(init, steps[..|steps| - 1]), steps[|steps| - 1]);
    }
  }

  // ---- amounts ----

  /** Either no channel was chosen yet, or the amounts are the submitted one and suit the channel. */
  ghost predicate RowOk(channels: seq<Channel>, row: Row) {
    || (row.channel == 0 && row.typeId == 0 && row.realmoney == None && row.getmoney == None)
    || (row.realmoney == row.getmoney == Some(row.Money())
        && IsChannelFor(channels, row.typeId, row.channel, row.Money()))
  }

  ghost predicate RowsOk(channels: seq<Channel>, rows: Rows) {
    forall t | t in rows :: RowOk(channels, rows[t])
  }

  ghost predicate HasMoney(rows: Rows, t: string, amount: Amount) {
    t in rows && rows[t].Money() == amount
  }

  /** What a handler remembers of an order is still true of the stored order. */
  ghost predicate JobOk(rows: Rows, job: Job) {
    match job
    case Idle => true
    case Creating(_, _, _, _) => true
    case Submitting(t, amount, _) => HasMoney(rows, t, amount)
    case Paying(t, evidence) => t in rows && Names(evidence, rows[t].Money())
    case Notifying(t) => t in rows
    case Refunding(t, amount, _) => HasMoney(rows, t, amount)
    case Returned(t, amount, _) => HasMoney(rows, t, amount)
    case Retrying(queue) => forall t | t in queue :: t in rows
  }

  /** A recorded refund returns the order's money, and a checked callback that won named it. */
  ghost predicate EntryOk(e: Entry) {
    && (e.op.SetRefunded? && e.answer == Flag(true) ==> e.seen.Some? && e.op.amount == e.seen.value.Money())
    && (e.op.MarkPaid? && e.answer == Flag(true) ==>
          e.job.Paying? && e.seen.Some? && Names(e.job.evidence, e.seen.value.Money()))
  }

  ghost predicate AmountsOk(s: Sys) {
    && RowsOk(s.channels, s.rows)
    && (forall p :: JobOk(s.rows, ProcOf(s, p).job))
    && (forall e | e in s.log :: EntryOk(e))
  }

  ghost predicate NoDeletes(log: seq<Entry>) {
    forall e | e in log :: !e.op.Delete?
  }

  lemma StatementKeepsMoney(rows: Rows, op: Op, t: string)
    requires t in rows && !op.Delete?
    ensures HasMoney(Apply(rows, op), t, rows[t].Money())
  {
    ApplyAt(rows, op, t);
  }

  lemma StatementKeepsJob(rows: Rows, op: Op, job: Job)
    requires !op.Delete? && JobOk(rows, job)
    ensures JobOk(Apply(rows, op), job)
  {
    match job
    case Idle =>
    case Creating(_, _, _, _) =>
    case Submitting(t, _, _) => StatementKeepsMoney(rows, op, t);
    case Paying(t, _) => StatementKeepsMoney(rows, op, t);
    case Notifying(t) => StatementKeepsMoney(rows, op, t);
    case Refunding(t, _, _) => StatementKeepsMoney(rows, op, t);
    case Returned(t, _, _) => StatementKeepsMoney(rows, op, t);
    case Retrying(queue) =>
      forall t | t in queue ensures t in Apply(rows, op) { StatementKeepsMoney(rows, op, t); }
  }

  lemma StatementKeepsRows(channels: seq<Channel>, rows: Rows, job: Job, op: Op)
    requires RowsOk(channels, rows) && JobOk(rows, job) && MayIssue(channels, job, op)
    ensures RowsOk(channels, Apply(rows, op))
  {
    forall t | t in Apply(rows, op) ensures RowOk(channels, Apply(rows, op)[t]) {
      ApplyAt(rows, op, t);
    }
  }

  lemma AnswerKeepsJob(rows: Rows, job: Job, op: Op, at: nat)
    requires JobOk(rows, job) && !op.Delete?
    ensures JobOk(Apply(rows, op), AfterAnswer(job, op, AnswerTo(rows, op), at))
    ensures JobOk(rows, AfterFailure(job))
  {
    StatementKeepsJob(rows, op, AfterFailure(job));
    if op.MarkPaid? || op.Insert? {
      ApplyAt(rows, op, op.tradeNo);
    }
  }

  lemma CommitKeepsAmounts(s: Sys, p: nat)
    requires LocksOk(s) && FitsOk(s) && AmountsOk(s) && Enabled(s, Commit(p)) && !ProcOf(s, p).txn.op.Delete?
    ensures AmountsOk(Fire(s, Commit(p)))
  {
    var s' := Fire(s, Commit(p));
    var job, op := ProcOf(s, p).job, ProcOf(s, p).txn.op;
    assert JobOk(s.rows, job) && TxnFits(s, p);
    CommitIsAtomic(s, p);
    assert s'.rows == Apply(s.rows, op);
    StatementKeepsRows(s.channels, s.rows, job, op);
    forall q ensures JobOk(s'.rows, ProcOf(s', q).job) {
      assert JobOk(s.rows, ProcOf(s, q).job);
      if q == p {
        AnswerKeepsJob(s.rows, job, op, |s.log|);
      } else {
        StatementKeepsJob(s.rows, op, ProcOf(s, q).job);
      }
    }
  }

  lemma OtherStepsKeepAmounts(s: Sys, step: Step)
    requires AmountsOk(s) && !step.Commit?
    ensures AmountsOk(Fire(s, step))
  {
    var s' := Fire(s, step);
    forall q ensures JobOk(s'.rows, ProcOf(s', q).job) {
      assert JobOk(s.rows, ProcOf(s, q).job);
      if Enabled(s, step) && step.Verify? { SupportsOwnMoney(s, step); }
    }
  }

  lemma StepKeepsAmounts(s: Sys, step: Step)
    requires LocksOk(s) && FitsOk(s) && AmountsOk(s) && NoDeletes(Fire(s, step).log)
    ensures AmountsOk(Fire(s, step))
  {
    if !step.Commit? {
      OtherStepsKeepAmounts(s, step);
    } else if Enabled(s, step) {
      var s' := Fire(s, step);
      assert s'.log[|s'.log| - 1].op == ProcOf(s, step.pid).txn.op;
      CommitKeepsAmounts(s, step.pid);
    }
  }

  lemma SupportsOwnMoney(s: Sys, step: Step)
    requires AmountsOk(s) && step.Verify? && Enabled(s, step)
    ensures Names(step.evidence, s.rows[step.tradeNo].Money())
  {
    SupportsNamesExpected(s.rows[step.tradeNo], step.evidence);
  }

  /** In every interleaved run without deletions: amounts stay within the channel's limits and equal to the
      submitted one, recorded refunds return exactly the order's money, and a checked callback marks an order
      paid only if its amount names exactly that money. */
  lemma {:induction false} AmountsHold(init: Sys, steps: seq<Step>)
    requires Initial(init) && RowsOk(init.channels, init.rows)
    requires NoDeletes(Exec(init, steps).log)
    ensures AmountsOk(Exec(init, steps))
  {
    if steps != [] {
      var before := Exec(init, steps[..|steps| - 1]);
      RunFits(init, steps[..|steps| - 1]);
      StepKeepsFits(before, steps[|steps| - 1]);
      AmountsHold(init, steps[..|steps| - 1]);
      Serialisable(init, steps[..|steps| - 1]);
      StepKeepsAmounts(before, steps[|steps| - 1]);
    }
  }
}

/** What the amounts of a run mean for the texts of the limits. */
module LimitLaws {
  import opened Wrappers
  import opened Orders
  import opened Channels
  import opened Interleaving
  import opened RunInvariants

  /** The order has no channel yet, or it carries its own money, and a channel of its type keeps its limits with it. */
  ghost predicate IsDispatched(channels: seq<Channel>, row: Row) {
    || (row.channel == 0 && row.typeId == 0 && row.realmoney == None && row.getmoney == None)
    || (row.realmoney == Some(row.draft.money) && row.getmoney == Some(row.draft.money)
        && exists c :: c in channels && c.id == row.channel && c.typeId == row.typeId && KeepsLimits(c, row.draft.money))
  }

  lemma DispatchedIsOk(channels: seq<Channel>, row: Row)
    ensures RowOk(channels, row) <==> IsDispatched(channels, row)
  {
    forall c ensures WithinLimits(c, row.Money()) <==> KeepsLimits(c, row.draft.money) {
      LimitsAreKept(c, row.Money());
    }
  }

  /** In every interleaved run without deletions, every order either has no channel and no amounts, or its amounts are
      the submitted money, and a channel with its id and type has no limit, as it is written, that the money breaks. */
  lemma LimitsHold(init: Sys, steps: seq<Step>, t: string)
    requires Initial(init) && NoDeletes(Exec(init, steps).log)
    requires forall u | u in init.rows :: IsDispatched(init.channels, init.rows[u])
    requires t in Exec(init, steps).rows
    ensures IsDispatched(init.channels, Exec(init, steps).rows[t])
  {
    forall u | u in init.rows ensures RowOk(init.channels, init.rows[u]) {
      DispatchedIsOk(init.channels, init.rows[u]);
    }
    AmountsHold(init, steps);
    RunFits(init, steps);
    DispatchedIsOk(init.channels, Exec(init, steps).rows[t]);
  }
}

/** Counting and conservation: the log of committed statements explains who is paid and how much. */
module Accounting {
  import opened Wrappers
  import opened Orders
  import opened Interleaving
  import opened RunInvariants

  ghost function Tally(log: seq<Entry>, t: string, what: (Entry, string) -> bool): nat {
    if log == [] then 0
    else Tally(log[..|log| - 1], t, what) + if what(log[|log| - 1], t) then 1 else 0
  }

  predicate IsWin(e: Entry, t: string) {
    e.op.MarkPaid? && e.op.tradeNo == t && e.answer == Flag(true)
  }

  predicate IsRefund(e: Entry, t: string) {
    e.op.SetRefunded? && e.op.tradeNo == t && e.answer == Flag(true)
  }

  /** A `mark_paid` call that found its order, whatever it answered. */
  predicate IsPaymentCall(e: Entry, t: string) {
    e.op.MarkPaid? && e.op.tradeNo == t && e.seen.Some?
  }

  /** A direct status edit or a deletion by an administrator. */
  predicate IsAdminEdit(e: Entry, t: string) {
    (e.op.UpdateStatus? || e.op.Delete?) && e.op.tradeNo == t
  }

  ghost predicate NoAdminEdits(log: seq<Entry>, t: string) {
    forall e | e in log :: !IsAdminEdit(e, t)
  }

  function PaidFlag(row: Option<Row>): int {
    if row.Some? && row.value.status == PAID then 1 else 0
  }

  lemma SerialPrefix(init: Rows, log: seq<Entry>)
    requires log != [] && Serial(init, log)
    ensures Serial(init, log[..|log| - 1])
    ensures AnsweredAlone(Replay(init, log[..|log| - 1]), log[|log| - 1])
  {
    var shorter := log[..|log| - 1];
    forall i | 0 <= i < |shorter| ensures AnsweredAlone(Replay(init, shorter[..i]), shorter[i]) {
      assert shorter[..i] == log[..i];
    }
  }

  lemma StatementCounts(rows: Rows, e: Entry, t: string)
    requires AnsweredAlone(rows, e) && !IsAdminEdit(e, t)
    ensures PaidFlag(At(Apply(rows, e.op), t))
         == PaidFlag(At(rows, t)) + (if IsWin(e, t) then 1 else 0) - (if IsRefund(e, t) then 1 else 0)
  {
    ApplyAt(rows, e.op, t);
  }

  lemma {:induction false} CountingOnLog(init: Rows, log: seq<Entry>, t: string)
    requires Serial(init, log) && NoAdminEdits(log, t)
    ensures Tally(log, t, IsWin) - Tally(log, t, IsRefund)
         == PaidFlag(At(Replay(init, log), t)) - PaidFlag(At(init, t))
  {
    if log != [] {
      var shorter, e := log[..|log| - 1], log[|log| - 1];
      SerialPrefix(init, log);
      CountingOnLog(init, shorter, t);
      StatementCounts(Replay(init, shorter), e, t);
    }
  }

  /** Counting law: for every order, across all interleavings of callbacks, expiry and refunds, the winning
      `mark_paid` calls minus the recorded refunds is the change of its paid flag. */
  lemma CountingLaw(init: Sys, steps: seq<Step>, t: string)
    requires Initial(init) && NoAdminEdits(Exec(init, steps).log, t)
    ensures var s := Exec(init, steps);
            Tally(s.log, t, IsWin) - Tally(s.log, t, IsRefund) == PaidFlag(At(s.rows, t)) - PaidFlag(At(init.rows, t))
  {
    Serialisable(init, steps);
    CountingOnLog(init.rows, Exec(init, steps).log, t);
  }

  lemma StatementSticks(rows: Rows, e: Entry, t: string)
    requires AnsweredAlone(rows, e) && !IsAdminEdit(e, t) && !IsRefund(e, t)
    ensures PaidFlag(At(rows, t)) == 1 || IsPaymentCall(e, t) ==> PaidFlag(At(Apply(rows, e.op), t)) == 1
  {
    ApplyAt(rows, e.op, t);
  }

  /** A committed payment sticks: without refunds and admin edits the order stays paid, whatever expiry does. */
  lemma {:induction false} PaymentSticks(init: Rows, log: seq<Entry>, t: string)
    requires Serial(init, log) && NoAdminEdits(log, t) && Tally(log, t, IsRefund) == 0
    requires Tally(log, t, IsPaymentCall) > 0 || PaidFlag(At(init, t)) == 1
    ensures PaidFlag(At(Replay(init, log), t)) == 1
  {
    if log != [] {
      var shorter, e := log[..|log| - 1], log[|log| - 1];
      SerialPrefix(init, log);
      StatementSticks(Replay(init, shorter), e, t);
      if !IsPaymentCall(e, t) {
        PaymentSticks(init, shorter, t);
      }
    }
  }

  /** Of any number of concurrent `mark_paid` calls on an order that is not paid, exactly one answers true,
      when no refund or admin edit intervenes; and expiry never closes it afterwards. */
  lemma ExactlyOneWins(init: Sys, steps: seq<Step>, t: string)
    requires Initial(init) && PaidFlag(At(init.rows, t)) == 0
    requires var log := Exec(init, steps).log; NoAdminEdits(log, t) && Tally(log, t, IsRefund) == 0
    requires Tally(Exec(init, steps).log, t, IsPaymentCall) > 0
    ensures Tally(Exec(init, steps).log, t, IsWin) == 1
    ensures PaidFlag(At(Exec(init, steps).rows, t)) == 1
  {
    Serialisable(init, steps);
    CountingOnLog(init.rows, Exec(init, steps).log, t);
    PaymentSticks(init.rows, Exec(init, steps).log, t);
  }

  // ---- money ----

  /** What a committed statement adds to the takings: a win brings the order's money, a refund takes its amount. */
  function Flow(e: Entry): int {
    if e.op.MarkPaid? && e.answer == Flag(true) && e.seen.Some? then e.seen.value.Money()
    else if e.op.SetRefunded? && e.answer == Flag(true) then -(e.op.amount as int)
    else 0
  }

  ghost function Takings(log: seq<Entry>): int {
    if log == [] then 0 else Takings(log[..|log| - 1]) + Flow(log[|log| - 1])
  }

  ghost predicate NoEdits(log: seq<Entry>) {
    forall e | e in log :: !e.op.UpdateStatus? && !e.op.Delete?
  }

  lemma StatementFlow(rows: Rows, e: Entry)
    requires AnsweredAlone(rows, e) && EntryOk(e) && !e.op.UpdateStatus? && !e.op.Delete?
    ensures PaidAmount(Apply(rows, e.op)) == PaidAmount(rows) + Flow(e)
  {
    if e.op.Expire? {
      SumPointwise(rows, Apply(rows, e.op), PaidPart);
    } else {
      SumPut(rows, PaidPart, e.op.tradeNo, Effect(e.op, At(rows, e.op.tradeNo)));
    }
  }

  lemma {:induction false} ConservationOnLog(init: Rows, log: seq<Entry>)
    requires Serial(init, log) && NoEdits(log) && forall e | e in log :: EntryOk(e)
    ensures PaidAmount(Replay(init, log)) == PaidAmount(init) + Takings(log)
  {
    if log != [] {
      var shorter, e := log[..|log| - 1], log[|log| - 1];
      SerialPrefix(init, log);
      ConservationOnLog(init, shorter);
      StatementFlow(Replay(init, shorter), e);
    }
  }

  /** Money conservation: in every interleaved run without admin edits, the paid amount that the statistics
      report changes by exactly the money of the winning payments minus the recorded refunds. */
  lemma MoneyConservation(init: Sys, steps: seq<Step>)
    requires Initial(init) && RowsOk(init.channels, init.rows)
    requires NoEdits(Exec(init, steps).log)
    ensures var s := Exec(init, steps); PaidAmount(s.rows) == PaidAmount(init.rows) + Takings(s.log)
  {
    Serialisable(init, steps);
    AmountsHold(init, steps);
    ConservationOnLog(init.rows, Exec(init, steps).log);
  }
}

/** Bounded delivery: how often a merchant is notified of an order. */
module Delivery {
  import opened Wrappers
  import opened Orders
  import opened Channels
  import opened Interleaving
  import opened RunInvariants
  import opened Accounting

  predicate IsAttempt(e: Entry, t: string) {
    e.op.RecordAttempt? && e.op.tradeNo == t && e.seen.Some?
  }

  predicate IsFailure(e: Entry, t: string) {
    IsAttempt(e, t) && !e.op.success
  }

  predicate IsSuccess(e: Entry, t: string) {
    IsAttempt(e, t) && e.op.success
  }

  predicate IsRetryAttempt(e: Entry, t: string) {
    IsAttempt(e, t) && e.job.Retrying?
  }

  predicate IsCallbackAttempt(e: Entry, t: string) {
    IsAttempt(e, t) && e.job.Notifying?
  }

  /** The edits that restart notification: setting status 1 by hand, and deletion. */
  predicate IsRestart(e: Entry, t: string) {
    ((e.op.UpdateStatus? && e.op.status == PAID) || e.op.Delete?) && e.op.tradeNo == t
  }

  ghost predicate NoRestarts(log: seq<Entry>, t: string) {
    forall e | e in log :: !IsRestart(e, t)
  }

  function NotifyOf(row: Option<Row>): int {
    if row.Some? then row.value.notify else 0
  }

  lemma StatementNotifies(rows: Rows, e: Entry, t: string)
    requires AnsweredAlone(rows, e) && !IsRestart(e, t)
    ensures var before, after := NotifyOf(At(rows, t)), NotifyOf(At(Apply(rows, e.op), t));
            if IsSuccess(e, t) then after == DELIVERED
            else if IsFailure(e, t) then after == before + 1
            else after == before
  {
    ApplyAt(rows, e.op, t);
  }

  lemma {:induction false} NotifyOnLog(init: Rows, log: seq<Entry>, t: string)
    requires Serial(init, log) && NoRestarts(log, t)
    ensures var notify := NotifyOf(At(Replay(init, log), t));
            if Tally(log, t, IsSuccess) == 0 then notify == NotifyOf(At(init, t)) + Tally(log, t, IsFailure)
            else notify >= DELIVERED
  {
    if log != [] {
      var shorter, e := log[..|log| - 1], log[|log| - 1];
      SerialPrefix(init, log);
      NotifyOnLog(init, shorter, t);
      StatementNotifies(Replay(init, shorter), e, t);
    }
  }

  /** The notify counter of an order counts its recorded failures until the first recorded success, and from
      then on the order is never selected for a retry again. */
  lemma NotifyCounts(init: Sys, steps: seq<Step>, t: string)
    requires Initial(init) && NoRestarts(Exec(init, steps).log, t)
    ensures var s := Exec(init, steps);
            && (Tally(s.log, t, IsSuccess) == 0 ==>
                  NotifyOf(At(s.rows, t)) == NotifyOf(At(init.rows, t)) + Tally(s.log, t, IsFailure))
            && (Tally(s.log, t, IsSuccess) > 0 ==>
                  NotifyOf(At(s.rows, t)) >= 99 && forall now :: t in s.rows ==> !Pending(s.rows[t], now))
  {
    Serialisable(init, steps);
    NotifyOnLog(init.rows, Exec(init, steps).log, t);
  }

  lemma {:induction false} AttemptsSplit(log: seq<Entry>, t: string)
    ensures Tally(log, t, IsRetryAttempt) <= Tally(log, t, IsAttempt)
    ensures Tally(log, t, IsAttempt) == Tally(log, t, IsFailure) + Tally(log, t, IsSuccess)
  {
    if log != [] { AttemptsSplit(log[..|log| - 1], t); }
  }

  lemma {:induction false} AttemptsByJob(log: seq<Entry>, t: string)
    requires forall e | e in log :: IsAttempt(e, t) ==> e.job.Retrying? || e.job.Notifying?
    ensures Tally(log, t, IsAttempt) == Tally(log, t, IsRetryAttempt) + Tally(log, t, IsCallbackAttempt)
  {
    if log != [] { AttemptsByJob(log[..|log| - 1], t); }
  }

  // ---- the retry task ----

  ghost predicate RetryJobOk(s: Sys, p: nat) {
    ProcOf(s, p).job.Retrying? ==> p == RETRY_TASK && NoRepeats(ProcOf(s, p).job.queue)
  }

  ghost predicate Queued(s: Sys, t: string) {
    ProcOf(s, RETRY_TASK).job.Retrying? && t in ProcOf(s, RETRY_TASK).job.queue
  }

  /** An order that waits in the retry queue still has an attempt left. */
  ghost predicate RetriesOk(s: Sys, t: string) {
    && (forall p :: RetryJobOk(s, p))
    && Tally(s.log, t, IsRetryAttempt) <= MAX_ATTEMPTS
    && (Queued(s, t) ==> Tally(s.log, t, IsRetryAttempt) < MAX_ATTEMPTS)
  }

  lemma SelectedHasAttemptLeft(init: Sys, s: Sys, t: string)
    requires s.rows == Replay(init.rows, s.log) && Serial(init.rows, s.log) && NoRestarts(s.log, t)
    requires NotifyOf(At(init.rows, t)) >= 0
    requires t in s.rows && s.rows[t].notify < MAX_ATTEMPTS
    ensures Tally(s.log, t, IsRetryAttempt) < MAX_ATTEMPTS
  {
    NotifyOnLog(init.rows, s.log, t);
    AttemptsSplit(s.log, t);
  }

  lemma TallySnoc(log: seq<Entry>, e: Entry, t: string, what: (Entry, string) -> bool)
    ensures Tally(log + [e], t, what) == Tally(log, t, what) + if what(e, t) then 1 else 0
  {
    assert (log + [e])[..|log|] == log;
  }

  lemma StepKeepsRetryJobs(s: Sys, step: Step)
    requires forall p :: RetryJobOk(s, p)
    ensures forall p :: RetryJobOk(Fire(s, step), p)
  {
    forall p ensures RetryJobOk(Fire(s, step), p) {
      assert RetryJobOk(s, p);
    }
  }

  lemma JobAfterCommit(s: Sys, p: nat)
    requires FitsOk(s) && Enabled(s, Commit(p))
    ensures var s' := Fire(s, Commit(p)); var e := s'.log[|s.log|];
            && s'.log == s.log + [e] && s'.procs == s.procs[p := Proc(AfterAnswer(e.job, e.op, e.answer, |s.log|), NoTxn)]
            && e.job == ProcOf(s, p).job && MayIssue(s.channels, e.job, e.op)
  {
    assert TxnFits(s, p);
  }

  /** A recorded retry attempt takes the order out of the queue. */
  lemma RetryAfterEntry(s: Sys, s': Sys, p: nat, e: Entry, t: string)
    requires RetriesOk(s, t) && s'.log == s.log + [e]
    requires s'.procs == s.procs[p := Proc(AfterAnswer(e.job, e.op, e.answer, |s.log|), NoTxn)]
    requires e.job == ProcOf(s, p).job && MayIssue(s.channels, e.job, e.op)
    ensures Tally(s'.log, t, IsRetryAttempt) <= MAX_ATTEMPTS
    ensures Queued(s', t) ==> Tally(s'.log, t, IsRetryAttempt) < MAX_ATTEMPTS
  {
    TallySnoc(s.log, e, t, IsRetryAttempt);
    assert RetryJobOk(s, p) && RetryJobOk(s, RETRY_TASK);
    if IsRetryAttempt(e, t) {
      assert p == RETRY_TASK && t == ProcOf(s, p).job.queue[0];
    }
  }

  lemma CommitKeepsRetries(s: Sys, p: nat, t: string)
    requires FitsOk(s) && RetriesOk(s, t) && Enabled(s, Commit(p))
    ensures var s' := Fire(s, Commit(p));
            && Tally(s'.log, t, IsRetryAttempt) <= MAX_ATTEMPTS
            && (Queued(s', t) ==> Tally(s'.log, t, IsRetryAttempt) < MAX_ATTEMPTS)
  {
    var s' := Fire(s, Commit(p));
    JobAfterCommit(s, p);
    RetryAfterEntry(s, s', p, s'.log[|s.log|], t);
  }

  /** No other step queues an order, but for the selection. */
  lemma QueueOnlyBySelect(s: Sys, step: Step, t: string)
    requires !step.Commit? && !(step.Select? && t in step.tradeNos)
    ensures Fire(s, step).log == s.log && (Queued(Fire(s, step), t) ==> Queued(s, t))
  {
  }

  lemma SelectKeepsRetries(init: Sys, s: Sys, step: Step, t: string)
    requires s.rows == Replay(init.rows, s.log) && Serial(init.rows, s.log) && NoRestarts(s.log, t)
    requires NotifyOf(At(init.rows, t)) >= 0 && step.Select? && t in step.tradeNos && Enabled(s, step)
    ensures Fire(s, step).log == s.log && Tally(s.log, t, IsRetryAttempt) < MAX_ATTEMPTS
  {
    SelectedHasAttemptLeft(init, s, t);
  }

  lemma StepKeepsRetries(init: Sys, s: Sys, step: Step, t: string)
    requires s.rows == Replay(init.rows, s.log) && Serial(init.rows, s.log) && NoRestarts(s.log, t)
    requires NotifyOf(At(init.rows, t)) >= 0
    requires FitsOk(s) && RetriesOk(s, t)
    ensures RetriesOk(Fire(s, step), t)
  {
    StepKeepsRetryJobs(s, step);
    if Enabled(s, step) {
      if step.Commit? {
        CommitKeepsRetries(s, step.pid, t);
      } else if step.Select? && t in step.tradeNos {
        SelectKeepsRetries(init, s, step, t);
      } else {
        QueueOnlyBySelect(s, step, t);
      }
    }
  }

  /** With its single retry task the gateway records at most five retry attempts per order, in every run
      without an admin edit that restarts notification. */
  lemma {:induction false} RetriesAreBounded(init: Sys, steps: seq<Step>, t: string)
    requires Initial(init) && NoRestarts(Exec(init, steps).log, t) && NotifyOf(At(init.rows, t)) >= 0
    ensures RetriesOk(Exec(init, steps), t)
  {
    if steps != [] {
      var before := Exec(init, steps[..|steps| - 1]);
      RunFits(init, steps[..|steps| - 1]);
      StepKeepsFits(before, steps[|steps| - 1]);
      RetriesAreBounded(init, steps[..|steps| - 1], t);
      Serialisable(init, steps[..|steps| - 1]);
      StepKeepsRetries(init, before, steps[|steps| - 1], t);
    }
  }

  // ---- the callback handlers ----

  /** The handlers that won an order and have not recorded its notification yet. */
  ghost function Notifiers(s: Sys, t: string): set<nat> {
    set p | p in s.procs && s.procs[p].job == Notifying(t)
  }

  ghost predicate CallbacksOk(s: Sys, t: string) {
    Tally(s.log, t, IsCallbackAttempt) + |Notifiers(s, t)| <= Tally(s.log, t, IsWin)
  }

  /** Only a commit can make a handler a notifier. */
  lemma OtherStepsKeepCallbacks(s: Sys, step: Step, t: string)
    requires !step.Commit? && CallbacksOk(s, t)
    ensures CallbacksOk(Fire(s, step), t)
  {
    var s' := Fire(s, step);
    forall p | p in Notifiers(s', t) ensures p in Notifiers(s, t) {
      assert ProcOf(s', p).job == Notifying(t);
    }
    SubsetSize(Notifiers(s', t), Notifiers(s, t));
  }

  /** A win adds one notifier; recording an attempt takes one away. */
  lemma NotifiersAfterCommit(s: Sys, p: nat, t: string)
    requires FitsOk(s) && Enabled(s, Commit(p))
    ensures var s' := Fire(s, Commit(p)); var e := s'.log[|s.log|];
            && s'.log == s.log + [e]
            && Notifiers(s', t) == (Notifiers(s, t) - {p}) + (if IsWin(e, t) then {p} else {})
            && (IsCallbackAttempt(e, t) ==> p in Notifiers(s, t) && !IsWin(e, t))
  {
    var s' := Fire(s, Commit(p));
    var e := s'.log[|s.log|];
    JobAfterCommit(s, p);
    WinnersNotify(s.channels, e, |s.log|, t);
    NotifiersUpdate(s, s', p, AfterAnswer(e.job, e.op, e.answer, |s.log|), t);
  }

  /** A handler becomes a notifier of `t` exactly when it has just won it. */
  lemma WinnersNotify(channels: seq<Channel>, e: Entry, at: nat, t: string)
    requires MayIssue(channels, e.job, e.op)
    ensures AfterAnswer(e.job, e.op, e.answer, at) == Notifying(t) <==> IsWin(e, t)
    ensures IsCallbackAttempt(e, t) ==> e.job == Notifying(t) && !IsWin(e, t)
  {
  }

  lemma NotifiersUpdate(s: Sys, s': Sys, p: nat, job: Job, t: string)
    requires s'.procs == s.procs[p := Proc(job, NoTxn)]
    ensures Notifiers(s', t) == (Notifiers(s, t) - {p}) + (if job == Notifying(t) then {p} else {})
  {
  }

  lemma CallbacksAfterEntry(s: Sys, s': Sys, p: nat, e: Entry, t: string)
    requires CallbacksOk(s, t) && s'.log == s.log + [e]
    requires Notifiers(s', t) == (Notifiers(s, t) - {p}) + (if IsWin(e, t) then {p} else {})
    requires IsCallbackAttempt(e, t) ==> p in Notifiers(s, t) && !IsWin(e, t)
    ensures CallbacksOk(s', t)
  {
    TallySnoc(s.log, e, t, IsCallbackAttempt);
    TallySnoc(s.log, e, t, IsWin);
    if p !in Notifiers(s, t) {
      assert Notifiers(s, t) - {p} == Notifiers(s, t);
    }
  }

  lemma CommitKeepsCallbacks(s: Sys, p: nat, t: string)
    requires FitsOk(s) && CallbacksOk(s, t) && Enabled(s, Commit(p))
    ensures CallbacksOk(Fire(s, Commit(p)), t)
  {
    var s' := Fire(s, Commit(p));
    NotifiersAfterCommit(s, p, t);
    CallbacksAfterEntry(s, s', p, s'.log[|s.log|], t);
  }

  lemma StepKeepsCallbacks(s: Sys, step: Step, t: string)
    requires FitsOk(s) && CallbacksOk(s, t)
    ensures CallbacksOk(Fire(s, step), t)
  {
    if Enabled(s, step) && step.Commit? {
      CommitKeepsCallbacks(s, step.pid, t);
    } else if !step.Commit? {
      OtherStepsKeepCallbacks(s, step, t);
    }
  }

  lemma {:induction false} CallbackAttemptsFollowWins(init: Sys, steps: seq<Step>, t: string)
    requires Initial(init)
    ensures CallbacksOk(Exec(init, steps), t)
  {
    if steps == [] {
      assert Notifiers(init, t) == {};
    } else {
      RunFits(init, steps[..|steps| - 1]);
      CallbackAttemptsFollowWins(init, steps[..|steps| - 1], t);
      StepKeepsCallbacks(Exec(init, steps[..|steps| - 1]), steps[|steps| - 1], t);
    }
  }

  /** Bounded delivery: at most five recorded attempts of the retry task, and at most five plus the number of
      winning payments in all. */
  lemma BoundedDelivery(init: Sys, steps: seq<Step>, t: string)
    requires Initial(init) && NoRestarts(Exec(init, steps).log, t) && NotifyOf(At(init.rows, t)) >= 0
    ensures var log := Exec(init, steps).log;
            && Tally(log, t, IsRetryAttempt) <= 5
            && Tally(log, t, IsAttempt) <= 5 + Tally(log, t, IsWin)
  {
    var s := Exec(init, steps);
    RetriesAreBounded(init, steps, t);
    CallbackAttemptsFollowWins(init, steps, t);
    RunFits(init, steps);
    AttemptsByJob(s.log, t);
  }
}
