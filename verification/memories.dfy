/** What handlers act on: what they have read was true of the committed table when they read it, and the statements that
    committed since say what became of it. */
module Memories {
  import opened Wrappers
  import opened Orders
  import opened Interleaving
  import opened RunInvariants
  import opened Accounting
  import opened Runs

  predicate IsOpen(row: Option<Row>) {
    row.None? || row.value.status <= UNPAID
  }

  /** The row is paid, and this is the amount to return for it. */
  predicate ReadPaid(row: Option<Row>, amount: Amount) {
    && row.Some? && row.value.status == 1
    && amount == if row.value.realmoney.Some? then row.value.realmoney.value else row.value.draft.money
  }

  /** The handler searched or read its order when `foundAt` or `readAt` transactions had committed. */
  ghost predicate Remembers(init: Rows, log: seq<Entry>, job: Job) {
    match job
    case Creating(uid, outTradeNo, _, k) => k <= |log| && !HasPair(Replay(init, log[..k]), uid, outTradeNo)
    case Submitting(t, _, k) => k <= |log| && IsOpen(At(Replay(init, log[..k]), t))
    case Refunding(t, amount, k) => k <= |log| && ReadPaid(At(Replay(init, log[..k]), t), amount)
    case Returned(t, amount, k) => k <= |log| && ReadPaid(At(Replay(init, log[..k]), t), amount)
    case _ => true
  }

  ghost predicate MemoriesOk(init: Rows, s: Sys) {
    && (forall p :: Remembers(init, s.log, ProcOf(s, p).job))
    && (forall j | 0 <= j < |s.log| :: Remembers(init, s.log[..j], s.log[j].job))
  }

  /** Up to when a job remembers the log. */
  function ReadAt(job: Job): nat {
    match job
    case Creating(_, _, _, k) => k
    case Submitting(_, _, k) => k
    case Refunding(_, _, k) => k
    case Returned(_, _, k) => k
    case _ => 0
  }

  lemma RemembersLater(init: Rows, log: seq<Entry>, e: Entry, job: Job)
    requires Remembers(init, log, job)
    ensures Remembers(init, log + [e], job)
  {
    if ReadAt(job) <= |log| { assert (log + [e])[..ReadAt(job)] == log[..ReadAt(job)]; }
  }

  /** A statement that was answered leaves its handler with a true memory. */
  lemma AnswerRemembers(init: Rows, log: seq<Entry>, e: Entry)
    requires Remembers(init, log, e.job) && AnsweredAlone(Replay(init, log), e)
    ensures Remembers(init, log + [e], AfterAnswer(e.job, e.op, e.answer, |log|))
  {
    assert (log + [e])[..|log|] == log;
    RemembersLater(init, log, e, e.job);
  }

  lemma LogRemembers(init: Rows, log: seq<Entry>, e: Entry)
    requires forall j | 0 <= j < |log| :: Remembers(init, log[..j], log[j].job)
    requires Remembers(init, log, e.job)
    ensures forall j | 0 <= j < |log + [e]| :: Remembers(init, (log + [e])[..j], (log + [e])[j].job)
  {
    forall j | 0 <= j < |log + [e]| ensures Remembers(init, (log + [e])[..j], (log + [e])[j].job) {
      assert (log + [e])[..j] == log[..j];
      assert log[..|log|] == log;
    }
  }

  /** The state after a commit, as far as handlers and log go. */
  ghost predicate Follows(s: Sys, s': Sys, p: nat, e: Entry) {
    && s'.log == s.log + [e] && e.job == ProcOf(s, p).job
    && s'.procs == s.procs[p := Proc(AfterAnswer(e.job, e.op, e.answer, |s.log|), NoTxn)]
  }

  lemma CommitFollows(s: Sys, p: nat)
    requires Enabled(s, Commit(p))
    ensures var s' := Fire(s, Commit(p)); |s'.log| == |s.log| + 1 && Follows(s, s', p, s'.log[|s.log|])
  {
  }

  lemma EntryKeepsMemories(init: Rows, s: Sys, s': Sys, p: nat, e: Entry)
    requires MemoriesOk(init, s) && Follows(s, s', p, e) && AnsweredAlone(Replay(init, s.log), e)
    ensures MemoriesOk(init, s')
  {
    assert Remembers(init, s.log, ProcOf(s, p).job);
    LogRemembers(init, s.log, e);
    forall q ensures Remembers(init, s'.log, ProcOf(s', q).job) {
      if q == p {
        AnswerRemembers(init, s.log, e);
      } else {
        RemembersLater(init, s.log, e, ProcOf(s, q).job);
      }
    }
  }

  lemma OtherStepsKeepMemories(init: Rows, s: Sys, step: Step)
    requires MemoriesOk(init, s) && s.rows == Replay(init, s.log) && !step.Commit?
    ensures MemoriesOk(init, Fire(s, step))
  {
    var s' := Fire(s, step);
    assert s.log[..|s.log|] == s.log;
    forall q ensures Remembers(init, s'.log, ProcOf(s', q).job) {
      assert Remembers(init, s.log, ProcOf(s, q).job);
    }
  }

  lemma LastIsAnswered(init: Rows, log: seq<Entry>, e: Entry)
    requires Serial(init, log + [e])
    ensures AnsweredAlone(Replay(init, log), e)
  {
    assert (log + [e])[..|log|] == log && (log + [e])[|log|] == e;
  }

  lemma StepKeepsMemories(init: Rows, s: Sys, step: Step)
    requires MemoriesOk(init, s) && s.rows == Replay(init, s.log) && Serial(init, Fire(s, step).log)
    ensures MemoriesOk(init, Fire(s, step))
  {
    if !step.Commit? {
      OtherStepsKeepMemories(init, s, step);
    } else if Enabled(s, step) {
      var s' := Fire(s, step);
      CommitFollows(s, step.pid);
      var e := s'.log[|s.log|];
      LastIsAnswered(init, s.log, e);
      EntryKeepsMemories(init, s, s', step.pid, e);
    }
  }

  /** In every run: whoever is about to create an order searched a committed table without one of its pair, whoever is
      about to set a channel read its order unpaid, or created it, and whoever refunds read its order paid. */
  lemma {:induction false} MemoriesHold(init: Sys, steps: seq<Step>)
    requires Initial(init)
    ensures MemoriesOk(init.rows, Exec(init, steps))
  {
    if steps != [] {
      var before, step := Exec(init, steps[..|steps| - 1]), steps[|steps| - 1];
      MemoriesHold(init, steps[..|steps| - 1]);
      Serialisable(init, steps[..|steps| - 1]);
      Serialisable(init, steps);
      StepKeepsMemories(init.rows, before, step);
    }
  }

  // ---- what became of a paid order ----

  /** The statement leaves the order not paid: a recorded refund, an edit to another status, a deletion. */
  predicate Unpays(e: Entry, t: string) {
    IsRefund(e, t) || ((e.op.Delete? || (e.op.UpdateStatus? && e.op.status != PAID)) && e.op.tradeNo == t)
  }

  /** The statement leaves the order paid: a win, or an edit to status 1 that finds it. */
  predicate Repays(e: Entry, t: string) {
    IsWin(e, t) || (e.op.UpdateStatus? && e.op.tradeNo == t && e.op.status == PAID && e.seen.Some?)
  }

  /** Something unpaid the order from the `k`-th statement on, and nothing paid it again before the `n`-th. */
  ghost predicate LostSince(log: seq<Entry>, k: nat, n: nat, t: string)
    requires n <= |log|
  {
    exists i :: k <= i < n && Unpays(log[i], t) && forall m | i < m < n :: !Repays(log[m], t)
  }

  /** The paid flag after a statement. */
  function NextFlag(e: Entry, t: string, flag: int): int {
    if Unpays(e, t) then 0 else if Repays(e, t) then 1 else flag
  }

  lemma PaidStep(rows: Rows, e: Entry, t: string)
    requires AnsweredAlone(rows, e)
    ensures PaidFlag(At(Apply(rows, e.op), t)) == NextFlag(e, t, PaidFlag(At(rows, t)))
  {
    ApplyAt(rows, e.op, t);
  }

  lemma LostStep(log: seq<Entry>, k: nat, n: nat, t: string)
    requires k <= n < |log|
    ensures LostSince(log, k, n + 1, t)
         == if Unpays(log[n], t) then true else if Repays(log[n], t) then false else LostSince(log, k, n, t)
  {
    if Unpays(log[n], t) {
      assert LostSince(log, k, n + 1, t);
    } else if LostSince(log, k, n, t) && !Repays(log[n], t) {
      var i :| k <= i < n && Unpays(log[i], t) && forall m | i < m < n :: !Repays(log[m], t);
      assert LostSince(log, k, n + 1, t);
    }
  }

  /** The paid flags of an order, before and after each statement. */
  ghost predicate AreFlags(flags: seq<int>, log: seq<Entry>, t: string) {
    |flags| == |log| + 1 && forall n | 0 <= n < |log| :: flags[n + 1] == NextFlag(log[n], t, flags[n])
  }

  lemma {:induction false} FlagUnlessLost(flags: seq<int>, log: seq<Entry>, k: nat, n: nat, t: string)
    requires AreFlags(flags, log, t) && k <= n <= |log| && flags[k] == 1
    ensures flags[n] == if LostSince(log, k, n, t) then 0 else 1
    decreases n
  {
    if k < n {
      FlagUnlessLost(flags, log, k, n - 1, t);
      LostStep(log, k, n - 1, t);
      assert flags[n - 1 + 1] == NextFlag(log[n - 1], t, flags[n - 1]);
    }
  }

  ghost function FlagAt(init: Rows, log: seq<Entry>, n: nat, t: string): int
    requires n <= |log|
  {
    PaidFlag(At(Replay(init, log[..n]), t))
  }

  lemma FlagNext(init: Rows, log: seq<Entry>, n: nat, t: string)
    requires Serial(init, log) && n < |log|
    ensures FlagAt(init, log, n + 1, t) == NextFlag(log[n], t, FlagAt(init, log, n, t))
  {
    assert AnsweredAlone(Replay(init, log[..n]), log[n]);
    ReplayNext(init, log, n);
    PaidStep(Replay(init, log[..n]), log[n], t);
  }

  lemma FlagsOf(init: Rows, log: seq<Entry>, t: string) returns (flags: seq<int>)
    requires Serial(init, log)
    ensures AreFlags(flags, log, t) && forall n | 0 <= n <= |log| :: flags[n] == FlagAt(init, log, n, t)
  {
    flags := seq(|log| + 1, n requires 0 <= n <= |log| => FlagAt(init, log, n, t));
    forall n | 0 <= n < |log| ensures flags[n + 1] == NextFlag(log[n], t, flags[n]) {
      FlagNext(init, log, n, t);
    }
  }

  /** An order that was paid is paid later exactly unless it was lost in between. */
  lemma PaidUnlessLost(init: Rows, log: seq<Entry>, k: nat, n: nat, t: string)
    requires Serial(init, log) && k <= n <= |log| && FlagAt(init, log, k, t) == 1
    ensures FlagAt(init, log, n, t) == if LostSince(log, k, n, t) then 0 else 1
  {
    var flags := FlagsOf(init, log, t);
    FlagUnlessLost(flags, log, k, n, t);
  }

  /** What a run says of one of its entries: it was answered alone, its handler was allowed to issue it, and what the
      handler remembered was true. */
  lemma EntryFacts(init: Sys, steps: seq<Step>, j: nat)
    requires Initial(init) && j < |Exec(init, steps).log|
    ensures var log := Exec(init, steps).log;
            && Serial(init.rows, log) && Remembers(init.rows, log[..j], log[j].job)
            && MayIssue(init.channels, log[j].job, log[j].op)
  {
    Serialisable(init, steps);
    RunFits(init, steps);
    MemoriesHold(init, steps);
    assert Exec(init, steps).log[j] in Exec(init, steps).log;
  }
}

/** Which channel a refund goes to: `set_channel` runs without looking at the status (src/store.rs), so a submission that
    read its order unpaid can move the channel after the payment. */
module ChannelDrift {
  import opened Wrappers
  import opened Orders
  import opened Channels
  import opened Interleaving
  import opened Accounting
  import opened Runs
  import opened Progress
  import opened Memories

  predicate SetsChannel(e: Entry, t: string) {
    e.op.SetChannel? && e.op.tradeNo == t
  }

  predicate Touches(e: Entry, t: string) {
    (e.op.UpdateStatus? || e.op.Delete?) && e.op.tradeNo == t
  }

  ghost predicate Untouched(log: seq<Entry>, t: string) {
    forall i | 0 <= i < |log| :: !Touches(log[i], t)
  }

  /** The channel that the statements leave the order with. */
  function LastChannel(log: seq<Entry>, t: string, channel: nat): nat {
    if log == [] then channel
    else if SetsChannel(log[|log| - 1], t) then log[|log| - 1].op.channelId
    else LastChannel(log[..|log| - 1], t, channel)
  }

  lemma ChannelStep(rows: Rows, e: Entry, t: string)
    requires t in rows && !(e.op.Delete? && e.op.tradeNo == t)
    ensures t in Apply(rows, e.op)
    ensures Apply(rows, e.op)[t].channel == if SetsChannel(e, t) then e.op.channelId else rows[t].channel
  {
    ApplyAt(rows, e.op, t);
  }

  lemma {:induction false} ChannelOnLog(rows: Rows, log: seq<Entry>, t: string)
    requires t in rows && Untouched(log, t)
    ensures t in Replay(rows, log) && Replay(rows, log)[t].channel == LastChannel(log, t, rows[t].channel)
  {
    if log != [] {
      var front, e := log[..|log| - 1], log[|log| - 1];
      assert forall k | 0 <= k < |front| :: front[k] == log[k];
      ChannelOnLog(rows, front, t);
      ChannelStep(Replay(rows, front), e, t);
    }
  }

  // ---- only early readers move the channel of a paid order ----

  /** Paid or refunded: statuses that only an edit takes away. */
  predicate IsSettled(row: Option<Row>) {
    row.Some? && (row.value.status == PAID || row.value.status == REFUNDED)
  }

  lemma SettledStep(rows: Rows, e: Entry, t: string)
    requires AnsweredAlone(rows, e) && !Touches(e, t) && (IsSettled(At(rows, t)) || IsWin(e, t))
    ensures IsSettled(At(Apply(rows, e.op), t))
  {
    ApplyAt(rows, e.op, t);
  }

  ghost predicate SettledAt(init: Rows, log: seq<Entry>, n: nat, t: string)
    requires n <= |log|
  {
    IsSettled(At(Replay(init, log[..n]), t))
  }

  lemma SettledNext(init: Rows, log: seq<Entry>, n: nat, t: string)
    requires Serial(init, log) && n < |log| && !Touches(log[n], t)
    requires SettledAt(init, log, n, t) || IsWin(log[n], t)
    ensures SettledAt(init, log, n + 1, t)
  {
    assert AnsweredAlone(Replay(init, log[..n]), log[n]);
    ReplayNext(init, log, n);
    SettledStep(Replay(init, log[..n]), log[n], t);
  }

  /** Whether the order is settled, before and after each statement. */
  ghost predicate AreSettled(settled: seq<bool>, log: seq<Entry>, t: string) {
    && |settled| == |log| + 1
    && forall n | 0 <= n < |log| && (settled[n] || IsWin(log[n], t)) :: settled[n + 1]
  }

  lemma {:induction false} SettledStays(settled: seq<bool>, log: seq<Entry>, i: nat, n: nat, t: string)
    requires AreSettled(settled, log, t) && i < n <= |log| && IsWin(log[i], t)
    ensures settled[n]
    decreases n
  {
    if i < n - 1 { SettledStays(settled, log, i, n - 1, t); }
    assert settled[n - 1 + 1];
  }

  lemma SettledOf(init: Rows, log: seq<Entry>, t: string) returns (settled: seq<bool>)
    requires Serial(init, log) && Untouched(log, t)
    ensures AreSettled(settled, log, t) && forall n | 0 <= n <= |log| :: settled[n] == SettledAt(init, log, n, t)
  {
    settled := seq(|log| + 1, n requires 0 <= n <= |log| => SettledAt(init, log, n, t));
    forall n | 0 <= n < |log| && (settled[n] || IsWin(log[n], t)) ensures settled[n + 1] {
      SettledNext(init, log, n, t);
    }
  }

  /** Once won, an order stays paid or refunded. */
  lemma WonStays(init: Rows, log: seq<Entry>, i: nat, n: nat, t: string)
    requires Serial(init, log) && i < n <= |log| && IsWin(log[i], t) && Untouched(log, t)
    ensures SettledAt(init, log, n, t)
  {
    var settled := SettledOf(init, log, t);
    SettledStays(settled, log, i, n, t);
  }

  lemma ReaderIsSubmission(channels: seq<Channel>, e: Entry)
    requires MayIssue(channels, e.job, e.op) && e.op.SetChannel?
    ensures e.job.Submitting? && e.job.tradeNo == e.op.tradeNo
  {
  }

  lemma ReadBeforeWin(init: Rows, log: seq<Entry>, t: string, i: nat, j: nat)
    requires Serial(init, log) && Untouched(log, t) && i < j < |log| && IsWin(log[i], t)
    requires log[j].job.Submitting? && log[j].job.tradeNo == t && Remembers(init, log[..j], log[j].job)
    ensures log[j].job.readAt <= i
  {
    var k := log[j].job.readAt;
    assert log[..j][..k] == log[..k];
    if k > i { WonStays(init, log, i, k, t); }
  }

  /** Whoever sets the channel after the win had read the order, or created it, before the win. */
  lemma LateChannelWasReadEarly(init: Sys, steps: seq<Step>, t: string, i: nat, j: nat)
    requires Initial(init) && Untouched(Exec(init, steps).log, t)
    requires i < j < |Exec(init, steps).log|
    requires IsWin(Exec(init, steps).log[i], t) && SetsChannel(Exec(init, steps).log[j], t)
    ensures Exec(init, steps).log[j].job.Submitting? && Exec(init, steps).log[j].job.readAt <= i
  {
    var log := Exec(init, steps).log;
    EntryFacts(init, steps, j);
    ReaderIsSubmission(init.channels, log[j]);
    ReadBeforeWin(init.rows, log, t, i, j);
  }

  lemma ChannelBetween(init: Rows, log: seq<Entry>, t: string, i: nat, n: nat)
    requires Serial(init, log) && Untouched(log, t) && i < n <= |log| && IsWin(log[i], t)
    ensures var won, read := At(Replay(init, log[..i + 1]), t), At(Replay(init, log[..n]), t);
            won.Some? && read.Some? && read.value.channel == LastChannel(log[i + 1..n], t, won.value.channel)
  {
    var between := log[i + 1..n];
    WonStays(init, log, i, i + 1, t);
    assert log[..n] == log[..i + 1] + between;
    assert forall k | 0 <= k < |between| :: between[k] == log[i + 1 + k];
    ReplayConcat(init, log[..i + 1], between);
    ChannelOnLog(Replay(init, log[..i + 1]), between, t);
  }

  /** The row of `t` after the first `n` commits of a run. */
  ghost function RowAt(init: Sys, steps: seq<Step>, t: string, n: nat): Option<Row>
    requires n <= |Exec(init, steps).log|
  {
    At(Replay(init.rows, Exec(init, steps).log[..n]), t)
  }

  /** The channel that a refund reads after `n` commits is the one at the win exactly if no statement in between sets it,
      or the last one that does sets the same. */
  lemma RefundChannel(init: Sys, steps: seq<Step>, t: string, i: nat, n: nat)
    requires Initial(init) && Untouched(Exec(init, steps).log, t)
    requires i < n <= |Exec(init, steps).log| && IsWin(Exec(init, steps).log[i], t)
    ensures var won, read := RowAt(init, steps, t, i + 1), RowAt(init, steps, t, n);
            && won.Some? && read.Some?
            && (read.value.channel == won.value.channel
                <==> LastChannel(Exec(init, steps).log[i + 1..n], t, won.value.channel) == won.value.channel)
  {
    Serialisable(init, steps);
    ChannelBetween(init.rows, Exec(init, steps).log, t, i, n);
  }

  // ---- the run in which it moves ----

  ghost predicate ReadyToDrift(s: Sys, p: nat, q: nat, t: string, evidence: Evidence, pay: Op, move: Op) {
    && p != q && ProcOf(s, p) == Proc(Idle, NoTxn) && ProcOf(s, q) == Proc(Idle, NoTxn)
    && s.owner == map[] && s.gaps.None?
    && t in s.rows && s.rows[t].status == UNPAID && Supports(s.rows[t], evidence)
    && pay.MarkPaid? && pay.tradeNo == t && pay.at == s.now
    && move.SetChannel? && move.tradeNo == t && move.amount == s.rows[t].Money()
    && IsChannelFor(s.channels, move.typeId, move.channelId, move.amount)
  }

  lemma SubmissionReads(s: Sys, p: nat, q: nat, t: string)
    requires p != q && ProcOf(s, p) == Proc(Idle, NoTxn) && t in s.rows && s.rows[t].status == UNPAID
    ensures var read := Fire(s, ReadForSubmit(p, t));
            && read.rows == s.rows && read.owner == s.owner && read.gaps == s.gaps && read.now == s.now
            && read.channels == s.channels && ProcOf(read, q) == ProcOf(s, q)
            && ProcOf(read, p) == Proc(Submitting(t, s.rows[t].Money(), |s.log|), NoTxn)
  {
  }

  lemma BothHaveRead(s: Sys, p: nat, q: nat, t: string, evidence: Evidence, pay: Op, move: Op)
    requires ReadyToDrift(s, p, q, t, evidence, pay, move)
    ensures var read := Exec(s, [ReadForSubmit(p, t)] + [Verify(q, t, evidence)]);
            && read.rows == s.rows && CanRun(read, q, pay) && read.channels == s.channels && read.now == s.now
            && ProcOf(read, p) == Proc(Submitting(t, s.rows[t].Money(), |s.log|), NoTxn)
  {
    var submit, verify := ReadForSubmit(p, t), Verify(q, t, evidence);
    ExecOne(s, submit);
    ExecSnoc(s, [submit], verify);
    var one := Exec(s, [submit]);
    SubmissionReads(s, p, q, t);
    VerifyMoves(one, q, t, evidence);
    CanPay(Exec(s, [submit] + [verify]), q, evidence, pay);
  }

  lemma CanPay(s: Sys, q: nat, evidence: Evidence, pay: Op)
    requires pay.MarkPaid? && pay.at == s.now && ProcOf(s, q) == Proc(Paying(pay.tradeNo, evidence), NoTxn)
    requires s.owner == map[] && s.gaps.None?
    ensures CanRun(s, q, pay)
  {
  }

  /** The payment ran; then the submission can still set its channel. */
  lemma StillCanMove(read: Sys, paid: Sys, p: nat, q: nat, job: Job, pay: Op, move: Op)
    requires CanRun(read, q, pay) && Ran(read, paid, q, job, pay) && p != q
    requires ProcOf(read, p).txn.NoTxn? && MayIssue(read.channels, ProcOf(read, p).job, move) && move.SetChannel?
    requires move.tradeNo == pay.tradeNo
    ensures CanRun(paid, p, move)
  {
  }

  lemma MovedRow(rows: Rows, pay: Op, move: Op, t: string)
    requires t in rows && rows[t].status == UNPAID && pay.MarkPaid? && move.SetChannel? && pay.tradeNo == move.tradeNo == t
    ensures var after := Apply(Apply(rows, pay), move);
            t in after && after[t].status == PAID && after[t].channel == move.channelId
  {
  }

  /** A submission reads the unpaid order, a callback gets it paid, and then the submission sets another channel. */
  lemma ChannelMovesAfterWin(s: Sys, p: nat, q: nat, t: string, evidence: Evidence, pay: Op, move: Op)
    requires ReadyToDrift(s, p, q, t, evidence, pay, move)
    ensures var s' := Exec(s, [ReadForSubmit(p, t)] + [Verify(q, t, evidence)] + StatementSteps(q, pay)
                              + StatementSteps(p, move));
            t in s'.rows && s'.rows[t].status == PAID && s'.rows[t].channel == move.channelId
  {
    var front := [ReadForSubmit(p, t)] + [Verify(q, t, evidence)];
    var read := Exec(s, front);
    BothHaveRead(s, p, q, t, evidence, pay, move);
    StatementRuns(read, q, pay);
    var paid := Exec(read, StatementSteps(q, pay));
    StillCanMove(read, paid, p, q, ProcOf(read, q).job, pay, move);
    StatementRuns(paid, p, move);
    ExecConcat(s, front, StatementSteps(q, pay));
    ExecConcat(s, front + StatementSteps(q, pay), StatementSteps(p, move));
    MovedRow(s.rows, pay, move, t);
  }
}
