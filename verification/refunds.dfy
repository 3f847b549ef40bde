/** The admin refund inside the runs of the gateway: how often the provider returns the money of an order, and how
    often that is recorded (`order_refund` in src/admin.rs). */
module RefundCalls {
  import opened Orders
  import opened Channels
  import opened Interleaving
  import opened RunInvariants
  import opened Accounting
  import opened Delivery
  import opened Runs
  import opened Memories

  ghost predicate IsProviderCall(s: Sys, step: Step, t: string) {
    step.ProviderReturns? && Enabled(s, step) && ProcOf(s, step.pid).job.tradeNo == t
  }

  ghost predicate HoldsReturn(s: Sys, p: nat, t: string) {
    ProcOf(s, p).job.Returned? && ProcOf(s, p).job.tradeNo == t
  }

  /** The handler stops, or its statement fails, after the provider has returned the money. */
  ghost predicate IsDrop(s: Sys, step: Step, t: string) {
    (step.GiveUp? || step.Abort?) && Enabled(s, step) && HoldsReturn(s, step.pid, t)
  }

  /** How often the provider has returned the money of `t` in a run. */
  ghost function ProviderCalls(s: Sys, steps: seq<Step>, t: string): nat {
    if steps == [] then 0
    else
      var front := steps[..|steps| - 1];
      ProviderCalls(s, front, t) + if IsProviderCall(Exec(s, front), steps[|steps| - 1], t) then 1 else 0
  }

  ghost function Dropped(s: Sys, steps: seq<Step>, t: string): nat {
    if steps == [] then 0
    else
      var front := steps[..|steps| - 1];
      Dropped(s, front, t) + if IsDrop(Exec(s, front), steps[|steps| - 1], t) then 1 else 0
  }

  /** The handlers that have the money returned and not recorded it yet. */
  ghost function Holders(s: Sys, t: string): set<nat> {
    set p | p in s.procs && HoldsReturn(s, p, t)
  }

  /** A refund statement that came too late: the order was not paid any more. */
  predicate IsLate(e: Entry, t: string) {
    e.op.SetRefunded? && e.op.tradeNo == t && e.answer != Flag(true)
  }

  lemma HoldersUpdate(s: Sys, s': Sys, p: nat, t: string)
    requires forall q | q != p :: ProcOf(s', q) == ProcOf(s, q)
    ensures Holders(s', t) == (Holders(s, t) - {p}) + (if HoldsReturn(s', p, t) then {p} else {})
  {
    forall q ensures q in Holders(s', t) <==> q in (Holders(s, t) - {p}) + (if HoldsReturn(s', p, t) then {p} else {}) {
      assert q != p ==> ProcOf(s', q) == ProcOf(s, q);
    }
  }

  lemma HoldersSize(s: Sys, s': Sys, p: nat, t: string)
    requires forall q | q != p :: ProcOf(s', q) == ProcOf(s, q)
    ensures |Holders(s', t)| == |Holders(s, t)| - (if HoldsReturn(s, p, t) then 1 else 0)
                              + (if HoldsReturn(s', p, t) then 1 else 0)
  {
    HoldersUpdate(s, s', p, t);
    assert p in Holders(s, t) <==> HoldsReturn(s, p, t);
    if p !in Holders(s, t) { assert Holders(s, t) - {p} == Holders(s, t); }
  }

  /** A refund statement takes its handler out of the holders, whatever it is answered; no other commit does. */
  lemma CommitCounts(s: Sys, p: nat, t: string)
    requires FitsOk(s) && Enabled(s, Commit(p))
    ensures var s' := Fire(s, Commit(p)); var e := s'.log[|s.log|];
            && s'.log == s.log + [e]
            && |Holders(s', t)| + (if IsRefund(e, t) || IsLate(e, t) then 1 else 0) == |Holders(s, t)|
  {
    var s' := Fire(s, Commit(p));
    assert TxnFits(s, p);
    HoldersSize(s, s', p, t);
  }

  /** The books of one order's refunds. */
  ghost predicate Balanced(s: Sys, calls: int, dropped: int, t: string) {
    calls == Tally(s.log, t, IsRefund) + Tally(s.log, t, IsLate) + dropped + |Holders(s, t)|
  }

  function One(b: bool): int {
    if b then 1 else 0
  }

  /** Who moves in a step, if anybody does. */
  function Mover(step: Step): nat {
    if step.Tick? then 0 else step.pid
  }

  lemma StepBalances(s: Sys, step: Step, calls: int, dropped: int, t: string)
    requires FitsOk(s) && Balanced(s, calls, dropped, t)
    ensures Balanced(Fire(s, step), calls + One(IsProviderCall(s, step, t)), dropped + One(IsDrop(s, step, t)), t)
  {
    if Enabled(s, step) {
      var s' := Fire(s, step);
      if step.Commit? {
        CommitCounts(s, step.pid, t);
        var e := s'.log[|s.log|];
        TallySnoc(s.log, e, t, IsRefund);
        TallySnoc(s.log, e, t, IsLate);
      } else {
        HoldersSize(s, s', Mover(step), t);
        StepMovesHolder(s, step, t);
      }
    }
  }

  lemma StepMovesHolder(s: Sys, step: Step, t: string)
    requires Enabled(s, step) && !step.Commit?
    ensures Fire(s, step).log == s.log
    ensures One(HoldsReturn(Fire(s, step), Mover(step), t))
         == One(HoldsReturn(s, Mover(step), t)) + One(IsProviderCall(s, step, t)) - One(IsDrop(s, step, t))
  {
  }

  /** In every run: the provider returned the money of an order once for each recorded refund, for each refund statement
      that came too late, for each one that failed, and for each one that is still to come. */
  lemma {:induction false} RefundBooks(init: Sys, steps: seq<Step>, t: string)
    requires Initial(init)
    ensures Balanced(Exec(init, steps), ProviderCalls(init, steps, t), Dropped(init, steps, t), t)
  {
    if steps == [] {
      assert Holders(init, t) == {};
    } else {
      var front, step := steps[..|steps| - 1], steps[|steps| - 1];
      RefundBooks(init, front, t);
      RunFits(init, front);
      StepBalances(Exec(init, front), step, ProviderCalls(init, front, t), Dropped(init, front, t), t);
    }
  }

  // ---- which refund statements come too late ----

  predicate IsRefundStatement(e: Entry, t: string) {
    e.op.SetRefunded? && e.op.tradeNo == t
  }

  /** Since the handler of the `j`-th statement read the order paid, another refund of it committed, or an edit or a
      deletion took it away, and nothing paid it again. */
  ghost predicate Overtaken(log: seq<Entry>, j: nat, t: string)
    requires j < |log|
  {
    log[j].job.Returned? && LostSince(log, log[j].job.readAt, j, t)
  }

  lemma RefundWasReturned(channels: seq<Channel>, e: Entry, t: string)
    requires MayIssue(channels, e.job, e.op) && IsRefundStatement(e, t)
    ensures e.job.Returned? && e.job.tradeNo == t
  {
  }

  lemma AnswerIsFlag(rows: Rows, e: Entry, t: string)
    requires AnsweredAlone(rows, e) && IsRefundStatement(e, t)
    ensures IsLate(e, t) <==> PaidFlag(At(rows, t)) == 0
  {
  }

  lemma LateOnLog(init: Rows, log: seq<Entry>, t: string, j: nat)
    requires Serial(init, log) && j < |log| && IsRefundStatement(log[j], t)
    requires log[j].job.Returned? && log[j].job.tradeNo == t && Remembers(init, log[..j], log[j].job)
    ensures IsLate(log[j], t) <==> Overtaken(log, j, t)
  {
    var k := log[j].job.readAt;
    assert log[..j][..k] == log[..k];
    PaidUnlessLost(init, log, k, j, t);
    assert AnsweredAlone(Replay(init, log[..j]), log[j]);
    AnswerIsFlag(Replay(init, log[..j]), log[j], t);
  }

  /** A refund statement comes too late exactly if its order was lost since its own read. */
  lemma LateIsOvertaken(init: Sys, steps: seq<Step>, t: string, j: nat)
    requires Initial(init) && j < |Exec(init, steps).log| && IsRefundStatement(Exec(init, steps).log[j], t)
    ensures IsLate(Exec(init, steps).log[j], t) <==> Overtaken(Exec(init, steps).log, j, t)
  {
    var log := Exec(init, steps).log;
    EntryFacts(init, steps, j);
    RefundWasReturned(init.channels, log[j], t);
    LateOnLog(init.rows, log, t, j);
  }

  lemma {:induction false} TallyIsZero(log: seq<Entry>, t: string)
    ensures Tally(log, t, IsLate) == 0 <==> forall j | 0 <= j < |log| :: !IsLate(log[j], t)
  {
    if log != [] {
      TallyIsZero(log[..|log| - 1], t);
      assert forall j | 0 <= j < |log| - 1 :: log[..|log| - 1][j] == log[j];
    }
  }

  /** The money was returned exactly as often as it was recorded if and only if no refund statement committed after its
      order was lost since its own read, none failed, and none is still to come. */
  lemma ReturnedAsRecorded(init: Sys, steps: seq<Step>, t: string)
    requires Initial(init)
    ensures ProviderCalls(init, steps, t) == Tally(Exec(init, steps).log, t, IsRefund)
       <==> && NoneOvertaken(Exec(init, steps).log, t) && Dropped(init, steps, t) == 0
            && Holders(Exec(init, steps), t) == {}
  {
    var log := Exec(init, steps).log;
    RefundBooks(init, steps, t);
    TallyIsZero(log, t);
    forall j | 0 <= j < |log| && IsRefundStatement(log[j], t) ensures IsLate(log[j], t) <==> Overtaken(log, j, t) {
      LateIsOvertaken(init, steps, t, j);
    }
  }

  ghost predicate NoneOvertaken(log: seq<Entry>, t: string) {
    forall j | 0 <= j < |log| && IsRefundStatement(log[j], t) :: !Overtaken(log, j, t)
  }

  lemma OneReads(s: Sys, p: nat, q: nat, t: string)
    requires p != q && ProcOf(s, p) == Proc(Idle, NoTxn) && t in s.rows && s.rows[t].status == PAID
    ensures var read := Fire(s, ReadForRefund(p, t));
            && read.rows == s.rows && read.log == s.log && ProcOf(read, q) == ProcOf(s, q)
            && ProcOf(read, p) == Proc(Refunding(t, s.rows[t].Expected(), |s.log|), NoTxn)
    ensures !IsProviderCall(s, ReadForRefund(p, t), t)
  {
  }

  lemma BothRead(s: Sys, p: nat, q: nat, t: string)
    requires p != q && ProcOf(s, p) == Proc(Idle, NoTxn) && ProcOf(s, q) == Proc(Idle, NoTxn)
    requires t in s.rows && s.rows[t].status == PAID
    ensures var steps := [ReadForRefund(p, t)] + [ReadForRefund(q, t)];
            var read, job := Exec(s, steps), Refunding(t, s.rows[t].Expected(), |s.log|);
            && ProviderCalls(s, steps, t) == 0 && read.rows == s.rows
            && ProcOf(read, p) == Proc(job, NoTxn) && ProcOf(read, q) == Proc(job, NoTxn)
  {
    OneReads(s, p, q, t);
    OneReads(Fire(s, ReadForRefund(p, t)), q, p, t);
    CallsSnoc(s, [], ReadForRefund(p, t), t);
    CallsSnoc(s, [ReadForRefund(p, t)], ReadForRefund(q, t), t);
    assert [] + [ReadForRefund(p, t)] == [ReadForRefund(p, t)];
  }

  lemma OneReturns(s: Sys, p: nat, q: nat, t: string)
    requires p != q && ProcOf(s, p).txn.NoTxn? && ProcOf(s, p).job.Refunding? && ProcOf(s, p).job.tradeNo == t
    ensures var s' := Fire(s, ProviderReturns(p));
            IsProviderCall(s, ProviderReturns(p), t) && s'.rows == s.rows && ProcOf(s', q) == ProcOf(s, q)
  {
  }

  /** Two administrators at once: both read the paid order, and the provider returns its money twice. */
  lemma ReturnedTwice(s: Sys, p: nat, q: nat, t: string)
    requires p != q && ProcOf(s, p) == Proc(Idle, NoTxn) && ProcOf(s, q) == Proc(Idle, NoTxn)
    requires t in s.rows && s.rows[t].status == PAID
    ensures var steps := [ReadForRefund(p, t)] + [ReadForRefund(q, t)] + [ProviderReturns(p)] + [ProviderReturns(q)];
            ProviderCalls(s, steps, t) == 2 && Exec(s, steps).rows == s.rows
  {
    var read := [ReadForRefund(p, t)] + [ReadForRefund(q, t)];
    BothRead(s, p, q, t);
    OneReturns(Exec(s, read), p, q, t);
    CallsSnoc(s, read, ProviderReturns(p), t);
    OneReturns(Exec(s, read + [ProviderReturns(p)]), q, p, t);
    CallsSnoc(s, read + [ProviderReturns(p)], ProviderReturns(q), t);
  }

  lemma CallsSnoc(s: Sys, steps: seq<Step>, step: Step, t: string)
    ensures Exec(s, steps + [step]) == Fire(Exec(s, steps), step)
    ensures ProviderCalls(s, steps + [step], t)
         == ProviderCalls(s, steps, t) + One(IsProviderCall(Exec(s, steps), step, t))
  {
    ExecSnoc(s, steps, step);
    assert (steps + [step])[..|steps|] == steps;
  }
}
