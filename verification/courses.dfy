/** Whole courses of single handlers as runs of the concurrent gateway: the steps of the machine are those that the
    handlers of src/web.rs and src/admin.rs take, and end where the methods of the model end. */
module Courses {
  import opened Wrappers
  import opened Orders
  import opened Channels
  import opened Interleaving
  import opened RunInvariants
  import opened Runs
  import opened Progress
  import opened Memories
  import opened OrderStore
  import opened Notification
  import opened Callbacks

  // ---- the refund ----

  /** In every run: when the update of an agreed refund commits, the table becomes what `order_refund` makes of the table
      that it read and of the statements that committed meanwhile, and the amount is the one that it read. */
  lemma RefundRefines(init: Sys, steps: seq<Step>, p: nat)
    requires Initial(init) && ProcOf(Exec(init, steps), p).job.Returned? && Enabled(Exec(init, steps), Commit(p))
    ensures var s := Exec(init, steps);
            var t, amount, k := ProcOf(s, p).job.tradeNo, ProcOf(s, p).job.amount, ProcOf(s, p).job.readAt;
            && k <= |s.log| && ReadPaid(At(Replay(init.rows, s.log[..k]), t), amount)
            && Fire(s, Commit(p)).rows
                 == Apply(ApplyAll(Replay(init.rows, s.log[..k]), OpsOf(s.log[k..])), SetRefunded(t, amount))
  {
    var s := Exec(init, steps);
    var k := ProcOf(s, p).job.readAt;
    Serialisable(init, steps);
    ReadBefore(init, steps, p);
    RunFitsHere(init, steps, p);
    CommitApplies(s, p);
    SinceRead(init.rows, s.log, k);
  }

  lemma SinceRead(rows: Rows, log: seq<Entry>, k: nat)
    requires k <= |log|
    ensures Replay(rows, log) == ApplyAll(Replay(rows, log[..k]), OpsOf(log[k..]))
  {
    assert log == log[..k] + log[k..];
    ReplayConcat(rows, log[..k], log[k..]);
    ReplayIsApplyAll(Replay(rows, log[..k]), log[k..]);
  }

  lemma CommitApplies(s: Sys, p: nat)
    requires LocksOk(s) && Enabled(s, Commit(p))
    ensures Fire(s, Commit(p)).rows == Apply(s.rows, ProcOf(s, p).txn.op)
  {
    CommitIsAtomic(s, p);
  }

  lemma ReadBefore(init: Sys, steps: seq<Step>, p: nat)
    requires Initial(init) && ProcOf(Exec(init, steps), p).job.Returned?
    ensures var s := Exec(init, steps);
            var job := ProcOf(s, p).job;
            job.readAt <= |s.log| && ReadPaid(At(Replay(init.rows, s.log[..job.readAt]), job.tradeNo), job.amount)
  {
    var s := Exec(init, steps);
    MemoriesHold(init, steps);
    assert Remembers(init.rows, s.log, ProcOf(s, p).job);
  }

  lemma RunFitsHere(init: Sys, steps: seq<Step>, p: nat)
    requires Initial(init) && ProcOf(Exec(init, steps), p).job.Returned? && Enabled(Exec(init, steps), Commit(p))
    ensures var proc := ProcOf(Exec(init, steps), p);
            proc.txn.op == SetRefunded(proc.job.tradeNo, proc.job.amount)
  {
    RunFits(init, steps);
    assert TxnFits(Exec(init, steps), p);
  }

  /** A refund that the provider refuses ends without a statement. */
  lemma RefusedRefund(s: Sys, p: nat, t: string)
    requires ProcOf(s, p) == Proc(Idle, NoTxn) && t in s.rows && s.rows[t].status == PAID
    ensures var s' := Exec(s, [ReadForRefund(p, t)] + [GiveUp(p)]);
            s'.rows == s.rows && s'.log == s.log && ProcOf(s', p) == Proc(Idle, NoTxn)
  {
    ExecOne(s, ReadForRefund(p, t));
    ExecSnoc(s, [ReadForRefund(p, t)], GiveUp(p));
  }

  // ---- the payment and its notification ----

  ghost predicate ReadyForWin(w: World, s: Sys, p: nat, t: string, evidence: Evidence, pay: Op) {
    && ProcOf(s, p) == Proc(Idle, NoTxn) && t in s.rows && Supports(s.rows[t], evidence)
    && s.owner == map[] && s.gaps.None?
    && pay.MarkPaid? && pay.tradeNo == t && pay.at == s.now
    && s.rows[t].status != 1 && s.rows[t].draft.uid in w.env.merchantKeys
  }

  lemma CanNotify(before: Sys, paid: Sys, p: nat, evidence: Evidence, pay: Op, delivered: bool)
    requires pay.MarkPaid? && pay.tradeNo in before.rows && before.rows[pay.tradeNo].status != 1
    requires before.owner == map[] && Ran(before, paid, p, Paying(pay.tradeNo, evidence), pay)
    ensures CanRun(paid, p, RecordAttempt(pay.tradeNo, delivered, before.now))
    ensures paid.rows == Apply(before.rows, pay)
  {
  }

  lemma CanPay(w: World, s: Sys, p: nat, t: string, evidence: Evidence, pay: Op)
    requires ReadyForWin(w, s, p, t, evidence, pay)
    ensures var verified := SetProc(s, p, Proc(Paying(t, evidence), NoTxn));
            CanRun(verified, p, pay) && ProcOf(verified, p).job == Paying(t, evidence)
  {
  }

  lemma WinRuns(w: World, s: Sys, p: nat, t: string, evidence: Evidence, pay: Op)
    requires ReadyForWin(w, s, p, t, evidence, pay)
    ensures var verified := SetProc(s, p, Proc(Paying(t, evidence), NoTxn));
            Ran(verified, Exec(s, [Verify(p, t, evidence)] + StatementSteps(p, pay)), p, Paying(t, evidence), pay)
  {
    var verified := Fire(s, Verify(p, t, evidence));
    VerifyMoves(s, p, t, evidence);
    ExecOne(s, Verify(p, t, evidence));
    CanPay(w, s, p, t, evidence, pay);
    StatementRuns(verified, p, pay);
    ExecConcat(s, [Verify(p, t, evidence)], StatementSteps(p, pay));
  }

  /** A callback of an unpaid order whose merchant has a key, from its tests to the recorded notification, leaves the
      table as the handlers' methods do. */
  lemma PaymentCourse(w: World, s: Sys, p: nat, t: string, evidence: Evidence, pay: Op, delivered: bool)
    requires ReadyForWin(w, s, p, t, evidence, pay)
    ensures Exec(s, [Verify(p, t, evidence)] + StatementSteps(p, pay)
                    + StatementSteps(p, RecordAttempt(t, delivered, s.now))).rows
         == AfterPayment(w, s.rows, pay, Fate(true, delivered), s.now)
  {
    var attempt := RecordAttempt(t, delivered, s.now);
    var win := [Verify(p, t, evidence)] + StatementSteps(p, pay);
    WinRuns(w, s, p, t, evidence, pay);
    CanNotify(SetProc(s, p, Proc(Paying(t, evidence), NoTxn)), Exec(s, win), p, evidence, pay, delivered);
    StatementRuns(Exec(s, win), p, attempt);
    ExecConcat(s, win, StatementSteps(p, attempt));
    WinApplies(w, s.rows, pay, delivered, s.now);
  }

  lemma WinApplies(w: World, rows: Rows, pay: Op, delivered: bool, at: int)
    requires pay.MarkPaid? && pay.tradeNo in rows && rows[pay.tradeNo].status != 1
    requires rows[pay.tradeNo].draft.uid in w.env.merchantKeys
    ensures AfterPayment(w, rows, pay, Fate(true, delivered), at)
         == Apply(Apply(rows, pay), RecordAttempt(pay.tradeNo, delivered, at))
  {
  }

  // ---- the submission ----

  ghost predicate ReadyToSubmit(s: Sys, p: nat, create: Op, move: Op) {
    && ProcOf(s, p) == Proc(Idle, NoTxn) && s.owner == map[] && s.gaps.None?
    && create.Insert? && create.at == s.now && create.tradeNo !in s.rows
    && !HasPair(s.rows, create.draft.uid, create.draft.outTradeNo)
    && move.SetChannel? && move.tradeNo == create.tradeNo && move.amount == create.draft.money
    && IsChannelFor(s.channels, move.typeId, move.channelId, move.amount)
  }

  lemma SearchMoves(s: Sys, p: nat, uid: nat, outTradeNo: string)
    requires ProcOf(s, p) == Proc(Idle, NoTxn) && !HasPair(s.rows, uid, outTradeNo)
    ensures Fire(s, FindNothing(p, uid, outTradeNo))
         == SetProc(s, p, Proc(Creating(uid, outTradeNo, TRIES, |s.log|), NoTxn))
  {
  }

  lemma CanSetChannel(found: Sys, created: Sys, p: nat, job: Job, create: Op, move: Op)
    requires create.Insert? && create.tradeNo !in found.rows && found.owner == map[] && Ran(found, created, p, job, create)
    requires move.SetChannel? && move.tradeNo == create.tradeNo && move.amount == create.draft.money
    requires IsChannelFor(found.channels, move.typeId, move.channelId, move.amount)
    ensures CanRun(created, p, move)
  {
  }

  /** A submission of a new pair: it looks, creates, and sets a channel, and then the order is there, unpaid, with that
      channel and its own money. */
  lemma SubmitCourse(s: Sys, p: nat, create: Op, move: Op)
    requires ReadyToSubmit(s, p, create, move)
    ensures var s' := Exec(s, [FindNothing(p, create.draft.uid, create.draft.outTradeNo)] + StatementSteps(p, create)
                              + StatementSteps(p, move));
            && create.tradeNo in s'.rows
            && var row := s'.rows[create.tradeNo];
               && row.draft == create.draft && row.status == 0 && row.notify == 0
               && row.typeId == move.typeId && row.channel == move.channelId
               && row.realmoney == Some(create.draft.money) && row.getmoney == Some(create.draft.money)
  {
    var find := FindNothing(p, create.draft.uid, create.draft.outTradeNo);
    var found := Fire(s, find);
    SearchMoves(s, p, create.draft.uid, create.draft.outTradeNo);
    ExecOne(s, find);
    StatementRuns(found, p, create);
    var created := Exec(found, StatementSteps(p, create));
    CanSetChannel(found, created, p, ProcOf(found, p).job, create, move);
    StatementRuns(created, p, move);
    ExecConcat(s, [find], StatementSteps(p, create));
    ExecConcat(s, [find] + StatementSteps(p, create), StatementSteps(p, move));
    CreatedWithChannel(s.rows, create, move);
  }

  lemma CreatedWithChannel(rows: Rows, create: Op, move: Op)
    requires create.Insert? && create.tradeNo !in rows && move.SetChannel? && move.tradeNo == create.tradeNo
    ensures var after := Apply(Apply(rows, create), move);
            && create.tradeNo in after
            && var row := after[create.tradeNo];
               && row.draft == create.draft && row.status == 0 && row.notify == 0
               && row.typeId == move.typeId && row.channel == move.channelId
               && row.realmoney == Some(move.amount) && row.getmoney == Some(move.amount)
  {
  }
}
