/** Runs of the concurrent gateway in pieces: what comes later never undoes what has committed. */
module Runs {
  import opened Orders
  import opened Interleaving

  lemma {:induction false} ExecConcat(s: Sys, a: seq<Step>, b: seq<Step>)
    ensures Exec(s, a + b) == Exec(Exec(s, a), b)
  {
    if b == [] {
      assert a + b == a;
    } else {
      ExecConcat(s, a, b[..|b| - 1]);
      assert (a + b)[..|a + b| - 1] == a + b[..|b| - 1];
    }
  }

  lemma ExecSnoc(s: Sys, steps: seq<Step>, step: Step)
    ensures Exec(s, steps + [step]) == Fire(Exec(s, steps), step)
  {
    assert (steps + [step])[..|steps|] == steps;
  }

  lemma ExecOne(s: Sys, step: Step)
    ensures Exec(s, [step]) == Fire(s, step)
  {
    ExecSnoc(s, [], step);
    assert [] + [step] == [step];
  }

  /** The log only grows. */
  lemma {:induction false} LogGrows(s: Sys, steps: seq<Step>)
    ensures |s.log| <= |Exec(s, steps).log| && Exec(s, steps).log[..|s.log|] == s.log
  {
    if steps != [] {
      LogGrows(s, steps[..|steps| - 1]);
    }
  }

  lemma LogOfPrefix(init: Sys, steps: seq<Step>, n: nat)
    requires n <= |steps|
    ensures var k := |Exec(init, steps[..n]).log|;
            k <= |Exec(init, steps).log| && Exec(init, steps).log[..k] == Exec(init, steps[..n]).log
  {
    ExecConcat(init, steps[..n], steps[n..]);
    assert steps[..n] + steps[n..] == steps;
    LogGrows(Exec(init, steps[..n]), steps[n..]);
  }

  /** Steps that end or change the work of the handler `p`. */
  predicate Ends(step: Step, p: nat) {
    step == Commit(p) || step == Abort(p) || step == GiveUp(p) || step == ProviderReturns(p)
  }

  /** Whatever the other handlers do meanwhile, a handler that is busy stays at its work until it ends it itself. */
  lemma {:induction false} JobStays(s: Sys, steps: seq<Step>, p: nat)
    requires !ProcOf(s, p).job.Idle? && forall step | step in steps :: !Ends(step, p)
    ensures ProcOf(Exec(s, steps), p).job == ProcOf(s, p).job
  {
    if steps != [] {
      var front, last := steps[..|steps| - 1], steps[|steps| - 1];
      assert last in steps && forall step | step in front :: step in steps;
      JobStays(s, front, p);
    }
  }

  /** Committed statements are single statements of the table, so their effects compose. */
  lemma {:induction false} ReplayConcat(init: Rows, a: seq<Entry>, b: seq<Entry>)
    ensures Replay(init, a + b) == Replay(Replay(init, a), b)
  {
    if b == [] {
      assert a + b == a;
    } else {
      ReplayConcat(init, a, b[..|b| - 1]);
      assert (a + b)[..|a + b| - 1] == a + b[..|b| - 1];
    }
  }

  /** The statements of a log. */
  function OpsOf(log: seq<Entry>): (ops: seq<Op>)
    ensures |ops| == |log| && forall i | 0 <= i < |log| :: ops[i] == log[i].op
  {
    if log == [] then [] else OpsOf(log[..|log| - 1]) + [log[|log| - 1].op]
  }

  lemma {:induction false} ReplayIsApplyAll(rows: Rows, log: seq<Entry>)
    ensures Replay(rows, log) == ApplyAll(rows, OpsOf(log))
  {
    if log != [] {
      var front, e := log[..|log| - 1], log[|log| - 1];
      ReplayIsApplyAll(rows, front);
      assert (OpsOf(front) + [e.op])[..|front|] == OpsOf(front);
    }
  }

  lemma ReplayNext(init: Rows, log: seq<Entry>, n: nat)
    requires n < |log|
    ensures Replay(init, log[..n + 1]) == Apply(Replay(init, log[..n]), log[n].op)
  {
    assert log[..n + 1][..n] == log[..n];
  }

  lemma SerialStart(init: Rows, log: seq<Entry>, n: nat)
    requires Serial(init, log) && n <= |log|
    ensures Serial(init, log[..n])
  {
    forall i | 0 <= i < n ensures AnsweredAlone(Replay(init, log[..n][..i]), log[..n][i]) {
      assert log[..n][..i] == log[..i];
    }
  }

  lemma SerialRest(init: Rows, a: seq<Entry>, b: seq<Entry>)
    requires Serial(init, a + b)
    ensures Serial(Replay(init, a), b) && Replay(init, a + b) == Replay(Replay(init, a), b)
  {
    ReplayConcat(init, a, b);
    forall i | 0 <= i < |b| ensures AnsweredAlone(Replay(Replay(init, a), b[..i]), b[i]) {
      ReplayConcat(init, a, b[..i]);
      assert (a + b)[..|a| + i] == a + b[..i] && (a + b)[|a| + i] == b[i];
    }
  }
}

/** What the concurrent gateway can always still do: a statement whose order is not locked runs to its commit,
    and a genuine callback gets its order paid. */
module Progress {
  import opened Wrappers
  import opened Orders
  import opened Channels
  import opened Interleaving
  import opened Runs

  function StatementSteps(p: nat, op: Op): seq<Step>
    requires !op.Expire?
  {
    [Begin(p, op), Lock(p, op.tradeNo), Write(p), Commit(p)]
  }

  lemma FourSteps(s: Sys, a: Step, b: Step, c: Step, d: Step)
    ensures Exec(s, [a, b, c, d]) == Fire(Fire(Fire(Fire(s, a), b), c), d)
  {
    ExecOne(s, a);
    ExecSnoc(s, [a], b);
    ExecSnoc(s, [a] + [b], c);
    ExecSnoc(s, [a] + [b] + [c], d);
    assert [a] + [b] + [c] + [d] == [a, b, c, d];
  }

  lemma PublishOne(rows: Rows, op: Op)
    requires !op.Expire?
    ensures Publish(rows, Effects(op, map[op.tradeNo := At(rows, op.tradeNo)])) == Apply(rows, op)
  {
  }

  /** The transaction of `p` at work on `op`, which it has locked and read. */
  ghost predicate HasRead(s: Sys, p: nat, job: Job, op: Op, before: Sys)
    requires !op.Expire?
  {
    && s == SetProc(before.(owner := before.owner[op.tradeNo := p]), p, ProcOf(s, p))
    && ProcOf(s, p).job == job && Held(ProcOf(s, p).txn) == map[op.tradeNo := At(before.rows, op.tradeNo)]
  }

  ghost predicate CanRun(s: Sys, p: nat, op: Op) {
    && !op.Expire? && StampedNow(op, s.now)
    && ProcOf(s, p).txn.NoTxn? && MayIssue(s.channels, ProcOf(s, p).job, op)
    && op.tradeNo !in s.owner && s.gaps.None?
  }

  lemma LocksAndReads(s: Sys, p: nat, op: Op)
    requires CanRun(s, p, op)
    ensures var locked := Fire(Fire(s, Begin(p, op)), Lock(p, op.tradeNo));
            HasRead(locked, p, ProcOf(s, p).job, op, s) && ProcOf(locked, p).txn.Locking?
            && ProcOf(locked, p).txn.op == op
  {
    var begun := Fire(s, Begin(p, op));
    assert ProcOf(begun, p) == Proc(ProcOf(s, p).job, Locking(op, map[]));
  }

  lemma Writes(s: Sys, p: nat, job: Job, op: Op, before: Sys)
    requires !op.Expire? && HasRead(s, p, job, op, before) && ProcOf(s, p).txn.Locking? && ProcOf(s, p).txn.op == op
    ensures var written := Fire(s, Write(p));
            HasRead(written, p, job, op, before)
            && ProcOf(written, p).txn == Written(op, Held(ProcOf(s, p).txn), Effects(op, Held(ProcOf(s, p).txn)))
  {
  }

  lemma Commits(s: Sys, p: nat, job: Job, op: Op, before: Sys)
    requires !op.Expire? && HasRead(s, p, job, op, before) && op.tradeNo !in before.owner && before.gaps.None?
    requires ProcOf(s, p).txn == Written(op, Held(ProcOf(s, p).txn), Effects(op, Held(ProcOf(s, p).txn)))
    ensures Ran(before, Fire(s, Commit(p)), p, job, op)
  {
    PublishOne(before.rows, op);
    assert s.owner - Held(ProcOf(s, p).txn).Keys == before.owner;
  }

  /** `p` ran `op` alone between these states, and no lock is left behind. */
  ghost predicate Ran(before: Sys, after: Sys, p: nat, job: Job, op: Op)
    requires !op.Expire?
  {
    var answer := AnswerTo(before.rows, op);
    && after.rows == Apply(before.rows, op) && after.owner == before.owner && after.gaps == None
    && after.log == before.log + [Entry(p, job, op, At(before.rows, op.tradeNo), answer)]
    && ProcOf(after, p) == Proc(AfterAnswer(job, op, answer, |before.log|), NoTxn)
    && after.now == before.now && after.channels == before.channels
    && forall q | q != p :: ProcOf(after, q) == ProcOf(before, q)
  }

  /** A statement that its handler may issue, on an order that nobody has locked, runs through to its commit; the
      table then is what the statement makes of it alone, and no lock is left behind. */
  lemma StatementRuns(s: Sys, p: nat, op: Op)
    requires CanRun(s, p, op)
    ensures Ran(s, Exec(s, StatementSteps(p, op)), p, ProcOf(s, p).job, op)
  {
    var job := ProcOf(s, p).job;
    FourSteps(s, Begin(p, op), Lock(p, op.tradeNo), Write(p), Commit(p));
    LocksAndReads(s, p, op);
    var locked := Fire(Fire(s, Begin(p, op)), Lock(p, op.tradeNo));
    Writes(locked, p, job, op, s);
    Commits(Fire(locked, Write(p)), p, job, op, s);
  }

  lemma VerifyIsEnabled(s: Sys, p: nat, t: string, evidence: Evidence)
    requires ProcOf(s, p) == Proc(Idle, NoTxn) && t in s.rows && Supports(s.rows[t], evidence)
    ensures Enabled(s, Verify(p, t, evidence))
  {
  }

  /** A handler whose callback passes its tests goes on to pay; nothing else changes. */
  lemma VerifyMoves(s: Sys, p: nat, t: string, evidence: Evidence)
    requires ProcOf(s, p) == Proc(Idle, NoTxn) && t in s.rows && Supports(s.rows[t], evidence)
    ensures Fire(s, Verify(p, t, evidence)) == SetProc(s, p, Proc(Paying(t, evidence), NoTxn))
  {
    VerifyIsEnabled(s, p, t, evidence);
  }

  // ---- no handler has to wait for ever ----

  ghost function Active(s: Sys): set<nat> {
    set p | p in s.procs && !ProcOf(s, p).txn.NoTxn?
  }

  /** From `s` on, only `p` has moved, and it is still at the same statement. */
  ghost predicate StillAt(s: Sys, s': Sys, p: nat) {
    && s'.log == s.log && s'.now == s.now && s'.channels == s.channels
    && (forall q | q != p :: ProcOf(s', q) == ProcOf(s, q))
    && p in Active(s) && p in Active(s')
    && ProcOf(s', p).job == ProcOf(s, p).job && ProcOf(s', p).txn.op == ProcOf(s, p).txn.op
  }

  /** From `s` on, only `p` has moved: it has committed the statement that it was at. */
  ghost predicate Finished(s: Sys, s': Sys, p: nat) {
    && LocksOk(s') && s'.now == s.now && s'.channels == s.channels
    && (forall q | q != p :: ProcOf(s', q) == ProcOf(s, q))
    && p in Active(s) && ProcOf(s', p).txn.NoTxn?
    && |s'.log| == |s.log| + 1 && s'.log[..|s.log|] == s.log
    && var e := s'.log[|s.log|]; e.pid == p && e.job == ProcOf(s, p).job && e.op == ProcOf(s, p).txn.op
  }

  lemma ExecCons(s: Sys, step: Step, steps: seq<Step>)
    ensures Exec(s, [step] + steps) == Exec(Fire(s, step), steps)
  {
    ExecConcat(s, [step], steps);
    ExecOne(s, step);
  }

  lemma FinishesAfter(s: Sys, p: nat, step: Step, steps: seq<Step>)
    requires StillAt(s, Fire(s, step), p) && Finished(Fire(s, step), Exec(Fire(s, step), steps), p)
    ensures Finished(s, Exec(s, [step] + steps), p)
  {
    ExecCons(s, step, steps);
  }

  lemma CommitFinishes(s: Sys, s': Sys, p: nat)
    requires Enabled(s, Commit(p)) && s' == Fire(s, Commit(p)) && LocksOk(s')
    ensures Finished(s, s', p)
  {
  }

  lemma WrittenCanCommit(s: Sys, p: nat)
    requires LocksOk(s) && ProcOf(s, p).txn.Written?
    ensures Enabled(s, Commit(p))
  {
    assert TxnOk(s, p);
  }

  lemma CommitsWritten(s: Sys, p: nat)
    requires LocksOk(s) && ProcOf(s, p).txn.Written?
    ensures Finished(s, Exec(s, [Commit(p)]), p)
  {
    WrittenCanCommit(s, p);
    ExecOne(s, Commit(p));
    StepKeepsLocks(s, Commit(p));
    CommitFinishes(s, Fire(s, Commit(p)), p);
  }

  lemma CommitsRead(s: Sys, p: nat)
    requires LocksOk(s) && Enabled(s, Write(p))
    ensures Finished(s, Exec(s, [Write(p)] + [Commit(p)]), p)
  {
    StepKeepsLocks(s, Write(p));
    CommitsWritten(Fire(s, Write(p)), p);
    FinishesAfter(s, p, Write(p), [Commit(p)]);
  }

  lemma CommitsUnlocked(s: Sys, p: nat, t: string)
    requires LocksOk(s) && Enabled(s, Lock(p, t)) && !ProcOf(s, p).txn.op.Expire?
    ensures Finished(s, Exec(s, [Lock(p, t)] + ([Write(p)] + [Commit(p)])), p)
  {
    StepKeepsLocks(s, Lock(p, t));
    CommitsRead(Fire(s, Lock(p, t)), p);
    FinishesAfter(s, p, Lock(p, t), [Write(p)] + [Commit(p)]);
  }

  /** A scan that nobody blocks: it runs, and all locks there are are its own. */
  ghost predicate Unblocked(s: Sys, p: nat) {
    && ProcOf(s, p).txn.Locking? && ProcOf(s, p).txn.op.Expire? && s.gaps == Some(p)
    && forall t | t in s.owner :: s.owner[t] == p
  }

  lemma ScanLocksNext(s: Sys, p: nat, t: string)
    requires LocksOk(s) && Unblocked(s, p) && t in s.rows && t !in ProcOf(s, p).txn.held
    ensures Enabled(s, Lock(p, t)) && StillAt(s, Fire(s, Lock(p, t)), p) && Unblocked(Fire(s, Lock(p, t)), p)
    ensures Fire(s, Lock(p, t)).rows == s.rows
    ensures ProcOf(Fire(s, Lock(p, t)), p).txn.held.Keys == ProcOf(s, p).txn.held.Keys + {t}
  {
  }

  /** The expiry scan can always lock the rows that it still needs, and finish. */
  lemma {:induction false} CommitsScan(s: Sys, p: nat) returns (steps: seq<Step>)
    requires LocksOk(s) && Unblocked(s, p)
    ensures Finished(s, Exec(s, steps), p)
    decreases s.rows.Keys - ProcOf(s, p).txn.held.Keys
  {
    if s.rows.Keys <= ProcOf(s, p).txn.held.Keys {
      CommitsRead(s, p);
      steps := [Write(p)] + [Commit(p)];
    } else {
      var t :| t in s.rows && t !in ProcOf(s, p).txn.held;
      ScanLocksNext(s, p, t);
      StepKeepsLocks(s, Lock(p, t));
      var rest := CommitsScan(Fire(s, Lock(p, t)), p);
      FinishesAfter(s, p, Lock(p, t), rest);
      steps := [Lock(p, t)] + rest;
    }
  }

  lemma CommitsExpiry(s: Sys, p: nat) returns (steps: seq<Step>)
    requires LocksOk(s) && ProcOf(s, p).txn.Locking? && ProcOf(s, p).txn.op.Expire?
    requires s.gaps.None? && s.owner == map[]
    ensures Finished(s, Exec(s, steps), p)
  {
    StepKeepsLocks(s, LockGaps(p));
    var rest := CommitsScan(Fire(s, LockGaps(p)), p);
    FinishesAfter(s, p, LockGaps(p), rest);
    steps := [LockGaps(p)] + rest;
  }

  /** A transaction on one row that has its lock. */
  ghost predicate HasItsLock(s: Sys, p: nat) {
    var txn := ProcOf(s, p).txn;
    !txn.NoTxn? && !txn.op.Expire? && Held(txn) != map[]
  }

  lemma CommitsLocked(s: Sys, p: nat) returns (steps: seq<Step>)
    requires LocksOk(s) && HasItsLock(s, p)
    ensures Finished(s, Exec(s, steps), p)
  {
    assert TxnOk(s, p);
    if ProcOf(s, p).txn.Written? {
      CommitsWritten(s, p);
      steps := [Commit(p)];
    } else {
      var t :| t in ProcOf(s, p).txn.held;
      CommitsRead(s, p);
      steps := [Write(p)] + [Commit(p)];
    }
  }

  /** If no transaction on one row has its lock, then only a running scan holds any. */
  lemma OnlyScanLocks(s: Sys)
    requires LocksOk(s) && forall p :: !HasItsLock(s, p)
    ensures forall t | t in s.owner :: s.gaps == Some(s.owner[t])
  {
    forall t | t in s.owner ensures s.gaps == Some(s.owner[t]) {
      assert TxnOk(s, s.owner[t]) && !HasItsLock(s, s.owner[t]);
    }
  }

  /** Some transaction can always run to its commit: the locks allow no deadlock. */
  lemma SomeoneCommits(s: Sys) returns (p: nat, steps: seq<Step>)
    requires LocksOk(s) && Active(s) != {}
    ensures Finished(s, Exec(s, steps), p)
  {
    if exists q :: HasItsLock(s, q) {
      p :| HasItsLock(s, p);
      steps := CommitsLocked(s, p);
    } else {
      OnlyScanLocks(s);
      if s.gaps.Some? {
        p := s.gaps.value;
        assert TxnOk(s, p);
        if ProcOf(s, p).txn.Written? {
          CommitsWritten(s, p);
          steps := [Commit(p)];
        } else {
          steps := CommitsScan(s, p);
        }
      } else {
        p :| p in Active(s);
        assert TxnOk(s, p) && !HasItsLock(s, p);
        steps := CommitsBlocked(s, p);
      }
    }
  }

  lemma CommitsBlocked(s: Sys, p: nat) returns (steps: seq<Step>)
    requires LocksOk(s) && s.gaps.None? && s.owner == map[] && p in Active(s) && !HasItsLock(s, p)
    ensures Finished(s, Exec(s, steps), p)
  {
    assert TxnOk(s, p);
    var op := ProcOf(s, p).txn.op;
    if op.Expire? {
      steps := CommitsExpiry(s, p);
    } else {
      CommitsUnlocked(s, p, op.tradeNo);
      steps := [Lock(p, op.tradeNo)] + ([Write(p)] + [Commit(p)]);
    }
  }

  /** `p` committed the statement that it was at in `s`. */
  ghost predicate HasCommitted(s: Sys, s': Sys, p: nat) {
    && !ProcOf(s, p).txn.NoTxn?
    && exists i :: |s.log| <= i < |s'.log| && IsOf(s'.log[i], p, ProcOf(s, p).job, ProcOf(s, p).txn.op)
  }

  predicate IsOf(e: Entry, p: nat, job: Job, op: Op) {
    e.pid == p && e.job == job && e.op == op
  }

  /** Every transaction that was active has committed, none is active or holds a lock, and nobody else has moved. */
  ghost predicate AllCommitted(s: Sys, s': Sys) {
    && LocksOk(s') && Active(s') == {} && s'.owner == map[] && s'.gaps.None?
    && s'.now == s.now && s'.channels == s.channels
    && (forall p | p in Active(s) :: HasCommitted(s, s', p))
    && (forall q | q !in Active(s) :: ProcOf(s', q) == ProcOf(s, q))
  }

  lemma LocksAreActive(s: Sys)
    requires LocksOk(s)
    ensures forall t | t in s.owner :: s.owner[t] in Active(s)
    ensures s.gaps.Some? ==> s.gaps.value in Active(s)
  {
    if s.gaps.Some? { assert TxnOk(s, s.gaps.value); }
  }

  lemma NoneActive(s: Sys)
    requires LocksOk(s) && Active(s) == {}
    ensures AllCommitted(s, s)
  {
    LocksAreActive(s);
  }

  lemma FinishedIsActive(s: Sys, mid: Sys, p: nat)
    requires Finished(s, mid, p)
    ensures Active(mid) == Active(s) - {p} && HasCommitted(s, mid, p)
  {
    assert IsOf(mid.log[|s.log|], p, ProcOf(s, p).job, ProcOf(s, p).txn.op);
    forall q ensures q in Active(mid) <==> q in Active(s) - {p} {
      assert q != p ==> ProcOf(mid, q) == ProcOf(s, q);
    }
  }

  lemma CommittedStays(s: Sys, mid: Sys, end: Sys, p: nat)
    requires HasCommitted(s, mid, p) && |mid.log| <= |end.log| && end.log[..|mid.log|] == mid.log
    ensures HasCommitted(s, end, p)
  {
    var i :| |s.log| <= i < |mid.log| && IsOf(mid.log[i], p, ProcOf(s, p).job, ProcOf(s, p).txn.op);
    assert end.log[i] == end.log[..|mid.log|][i];
  }

  lemma CommittedBefore(s: Sys, mid: Sys, end: Sys, q: nat)
    requires HasCommitted(mid, end, q) && |s.log| <= |mid.log| && ProcOf(mid, q) == ProcOf(s, q)
    ensures HasCommitted(s, end, q)
  {
    var i :| |mid.log| <= i < |end.log| && IsOf(end.log[i], q, ProcOf(mid, q).job, ProcOf(mid, q).txn.op);
    assert IsOf(end.log[i], q, ProcOf(s, q).job, ProcOf(s, q).txn.op);
  }

  lemma OneThenAll(s: Sys, mid: Sys, end: Sys, p: nat)
    requires Finished(s, mid, p) && AllCommitted(mid, end)
    requires |mid.log| <= |end.log| && end.log[..|mid.log|] == mid.log
    ensures AllCommitted(s, end)
  {
    FinishedIsActive(s, mid, p);
    forall q | q in Active(s) ensures HasCommitted(s, end, q) {
      if q == p { CommittedStays(s, mid, end, p); } else { CommittedBefore(s, mid, end, q); }
    }
  }

  lemma {:induction false} AllCommit(s: Sys) returns (steps: seq<Step>)
    requires LocksOk(s)
    ensures AllCommitted(s, Exec(s, steps))
    decreases |Active(s)|
  {
    if Active(s) == {} {
      NoneActive(s);
      steps := [];
    } else {
      var p, first := SomeoneCommits(s);
      var mid := Exec(s, first);
      FinishedIsActive(s, mid, p);
      var rest := AllCommit(mid);
      ExecConcat(s, first, rest);
      LogGrows(mid, rest);
      OneThenAll(s, mid, Exec(mid, rest), p);
      steps := first + rest;
    }
  }

  /** No deadlock: every state that any interleaving reaches can be continued so that every active transaction
      commits, the expiry scan too, with no transaction aborted and no other handler moved. */
  lemma EveryTransactionCanCommit(init: Sys, steps: seq<Step>)
    requires Initial(init)
    ensures exists more :: AllCommitted(Exec(init, steps), Exec(init, steps + more))
  {
    var s := Exec(init, steps);
    Serialisable(init, steps);
    var more := AllCommit(s);
    ExecConcat(init, steps, more);
    assert AllCommitted(Exec(init, steps), Exec(init, steps + more));
  }
}

/** The callback handlers inside the runs of the concurrent gateway. */
module CallbackRuns {
  import opened Wrappers
  import opened Orders
  import opened Channels
  import opened Interleaving
  import opened RunInvariants
  import opened Runs
  import opened Progress
  import opened Callbacks

  // ---- which callbacks pay ----

  /** In every state that any interleaving reaches, the Alipay and WeChat v2 handlers pay an order exactly when the
      callback is genuine, reports success and names the fen that the merchant submitted. */
  lemma CallbacksAreExactInRuns(w: World, init: Sys, steps: seq<Step>, body: string)
    requires Initial(init) && init.channels == w.channels && RowsOk(init.channels, init.rows)
    requires NoDeletes(Exec(init, steps).log)
    ensures var rows := Exec(init, steps).rows;
            && (AlipayPays(w, rows, body) <==> AlipayNamesMoney(w, rows, body))
            && (WxpayV2Pays(w, rows, body) <==> WxpayV2NamesMoney(w, rows, body))
  {
    AmountsHold(init, steps);
    RunFits(init, steps);
    AlipayPaysExactly(w, Exec(init, steps).rows, body);
    WxpayV2PaysExactly(w, Exec(init, steps).rows, body);
  }

  /** And so does the WeChat v3 handler, whose scan pays exactly the order of the one channel whose key verified and
      decrypted the notification. */
  lemma V3IsExactInRuns(w: World, init: Sys, steps: seq<Step>, req: V3Request, t: string, x: Option<string>,
                        o: Option<string>)
    requires Initial(init) && init.channels == w.channels && RowsOk(init.channels, init.rows)
    requires NoDeletes(Exec(init, steps).log) && DistinctKeyIds(w, w.channels)
    ensures Scan(w, Exec(init, steps).rows, req, w.channels) == Pay(t, x, o)
       <==> exists c :: c in w.channels && V3NamesMoney(w, Exec(init, steps).rows, req, c, t, x, o)
  {
    AmountsHold(init, steps);
    RunFits(init, steps);
    V3ScanPaysExactly(w, Exec(init, steps).rows, req, t, x, o);
  }

  // ---- what becomes of them ----

  datatype Callback = ByAlipay(body: string) | ByWxpayV2(body: string) | ByWxpayV3(req: V3Request)

  /** The callback passes all tests of its handler: it would pay `t`, and `evidence` is what it says of the amount. */
  ghost predicate Passes(w: World, rows: Rows, callback: Callback, t: string, evidence: Evidence) {
    match callback
    case ByAlipay(body) =>
      && AlipayPays(w, rows, body) && AlipayOrder(w, rows, body).value.0 == t
      && evidence == AlipayText(FieldOr(AlipayOrder(w, rows, body).value.1, "total_amount", ""))
    case ByWxpayV2(body) =>
      && WxpayV2Pays(w, rows, body) && WxpayV2Order(w, rows, body).value.0 == t
      && evidence == WechatFen(TotalFee(WxpayV2Order(w, rows, body).value.1).value)
    case ByWxpayV3(req) =>
      && Scan(w, rows, req, w.channels).Pay? && Scan(w, rows, req, w.channels).tradeNo == t
      && evidence.WechatFen? && t in rows && Supports(rows[t], evidence)
  }

  lemma PassesVerifies(w: World, s: Sys, p: nat, callback: Callback, t: string, evidence: Evidence)
    requires Passes(w, s.rows, callback, t, evidence) && ProcOf(s, p) == Proc(Idle, NoTxn)
    ensures Enabled(s, Verify(p, t, evidence))
  {
  }

  /** The payment statement of the handler `p` commits: the order is paid, its money and all other orders stay, and the
      handler goes on to notify exactly if the row that it had locked was not paid. */
  ghost predicate PaidAtCommit(s: Sys, p: nat, t: string, evidence: Evidence) {
    var s', held := Fire(s, Commit(p)), Held(ProcOf(s, p).txn);
    && t in held && held[t] == At(s.rows, t)
    && (t in s.rows ==>
          && t in s'.rows && s'.rows[t].status == PAID && s'.rows[t].draft == s.rows[t].draft
          && ProcOf(s', p) == Proc(if s.rows[t].status == PAID then Idle else Notifying(t), NoTxn))
    && (t !in s.rows ==> t !in s'.rows) && (forall u | u != t :: At(s'.rows, u) == At(s.rows, u))
    && |s'.log| == |s.log| + 1 && s'.log[..|s.log|] == s.log
    && s'.log[|s.log|].pid == p && s'.log[|s.log|].job == Paying(t, evidence)
    && s'.log[|s.log|].op.MarkPaid? && s'.log[|s.log|].op.tradeNo == t
  }

  lemma PaymentEffectAt(rows: Rows, op: Op, t: string)
    requires op.MarkPaid? && op.tradeNo == t
    ensures t in rows ==> t in Apply(rows, op) && Apply(rows, op)[t].status == PAID
                          && Apply(rows, op)[t].draft == rows[t].draft
    ensures t in rows ==> AnswerTo(rows, op) == Flag(rows[t].status != PAID)
    ensures t !in rows ==> t !in Apply(rows, op)
    ensures forall u | u != t :: At(Apply(rows, op), u) == At(rows, u)
  {
  }

  lemma PaymentCommits(s: Sys, p: nat, t: string, evidence: Evidence)
    requires LocksOk(s) && FitsOk(s) && ProcOf(s, p).job == Paying(t, evidence) && Enabled(s, Commit(p))
    ensures PaidAtCommit(s, p, t, evidence)
  {
    assert TxnFits(s, p) && TxnOk(s, p);
    CommitIsAtomic(s, p);
    PaymentEffectAt(s.rows, ProcOf(s, p).txn.op, t);
  }

  /** For all schedules: a callback passed its tests, then its handler and all others went on in any order, and its
      payment statement is about to commit; then the order gets paid. */
  lemma VerifiedCallbackPays(init: Sys, before: seq<Step>, p: nat, t: string, evidence: Evidence, between: seq<Step>)
    requires Initial(init) && Enabled(Exec(init, before), Verify(p, t, evidence))
    requires forall step | step in between :: !Ends(step, p)
    requires Enabled(Exec(init, before + [Verify(p, t, evidence)] + between), Commit(p))
    ensures PaidAtCommit(Exec(init, before + [Verify(p, t, evidence)] + between), p, t, evidence)
  {
    var verified := before + [Verify(p, t, evidence)];
    ExecSnoc(init, before, Verify(p, t, evidence));
    ExecConcat(init, verified, between);
    JobStays(Exec(init, verified), between, p);
    Serialisable(init, verified + between);
    RunFits(init, verified + between);
    PaymentCommits(Exec(init, verified + between), p, t, evidence);
  }

  /** When it commits, the order is still there, and the evidence still names its money, unless it was deleted. */
  lemma VerifiedAmountStays(init: Sys, before: seq<Step>, p: nat, t: string, evidence: Evidence, between: seq<Step>)
    requires Initial(init) && RowsOk(init.channels, init.rows) && Enabled(Exec(init, before), Verify(p, t, evidence))
    requires forall step | step in between :: !Ends(step, p)
    requires NoDeletes(Exec(init, before + [Verify(p, t, evidence)] + between).log)
    ensures var rows := Exec(init, before + [Verify(p, t, evidence)] + between).rows;
            t in rows && Names(evidence, rows[t].Money())
  {
    var verified := before + [Verify(p, t, evidence)];
    ExecSnoc(init, before, Verify(p, t, evidence));
    ExecConcat(init, verified, between);
    JobStays(Exec(init, verified), between, p);
    AmountsHold(init, verified + between);
    var s := Exec(init, verified + between);
    assert JobOk(s.rows, ProcOf(s, p).job);
  }

  predicate IsPaid(rows: Rows, t: string) {
    t in rows && rows[t].status == PAID
  }

  /** The step with which a handler that pays comes to its answer: its payment commits, fails, or is not tried. */
  predicate IsAnswer(step: Step, p: nat) {
    step == Commit(p) || step == Abort(p) || step == GiveUp(p)
  }

  lemma FailureKeepsRows(s: Sys, p: nat, step: Step)
    requires IsAnswer(step, p) && step != Commit(p)
    ensures Fire(s, step).rows == s.rows
  {
  }

  lemma {:induction false} GoneWasDeleted(rows: Rows, log: seq<Entry>, t: string)
    requires t in rows && t !in Replay(rows, log)
    ensures exists i :: 0 <= i < |log| && IsDeleteOf(log[i], t)
  {
    var front, e := log[..|log| - 1], log[|log| - 1];
    if t in Replay(rows, front) {
      ApplyAt(Replay(rows, front), e.op, t);
      assert IsDeleteOf(log[|log| - 1], t);
    } else {
      GoneWasDeleted(rows, front, t);
      var i :| 0 <= i < |front| && IsDeleteOf(front[i], t);
      assert IsDeleteOf(log[i], t);
    }
  }

  lemma AnswerLeaves(s: Sys, p: nat, t: string, evidence: Evidence, answer: Step)
    requires IsAnswer(answer, p) && (answer == Commit(p) ==> PaidAtCommit(s, p, t, evidence))
    ensures !IsPaid(Fire(s, answer).rows, t) <==> t !in s.rows || (answer != Commit(p) && !IsPaid(s.rows, t))
  {
    if answer != Commit(p) { FailureKeepsRows(s, p, answer); }
  }

  /** The provider of a callback that passed its tests is told of success in any case. When the handler answers, its
      order is unpaid exactly if the order is gone, or the payment failed and nobody else had got it paid. */
  lemma AcknowledgedUnpaid(init: Sys, before: seq<Step>, p: nat, t: string, evidence: Evidence, between: seq<Step>,
                           answer: Step)
    requires Initial(init) && Enabled(Exec(init, before), Verify(p, t, evidence))
    requires (forall step | step in between :: !Ends(step, p)) && IsAnswer(answer, p)
    requires Enabled(Exec(init, before + [Verify(p, t, evidence)] + between), answer)
    ensures var s := Exec(init, before + [Verify(p, t, evidence)] + between);
            !IsPaid(Fire(s, answer).rows, t) <==> t !in s.rows || (answer != Commit(p) && !IsPaid(s.rows, t))
  {
    if answer == Commit(p) { VerifiedCallbackPays(init, before, p, t, evidence, between); }
    AnswerLeaves(Exec(init, before + [Verify(p, t, evidence)] + between), p, t, evidence, answer);
  }

  /** An order that was there and is gone has been deleted in between. */
  lemma GoneOnlyByDelete(init: Sys, before: seq<Step>, more: seq<Step>, t: string)
    requires Initial(init) && t in Exec(init, before).rows && t !in Exec(init, before + more).rows
    ensures exists i :: |Exec(init, before).log| <= i < |Exec(init, before + more).log|
                        && IsDeleteOf(Exec(init, before + more).log[i], t)
  {
    var s := Exec(init, before);
    Serialisable(init, before);
    Serialisable(init, before + more);
    ExecConcat(init, before, more);
    LogGrows(s, more);
    LostInRest(init.rows, s.log, Exec(s, more).log, t);
  }

  predicate IsDeleteOf(e: Entry, t: string) {
    e.op.Delete? && e.op.tradeNo == t
  }

  lemma LostInRest(init: Rows, a: seq<Entry>, b: seq<Entry>, t: string)
    requires |a| <= |b| && b[..|a|] == a && t in Replay(init, a) && t !in Replay(init, b)
    ensures exists i :: |a| <= i < |b| && IsDeleteOf(b[i], t)
  {
    var rest := b[|a|..];
    assert b == a + rest;
    ReplayConcat(init, a, rest);
    GoneWasDeleted(Replay(init, a), rest, t);
    var j :| 0 <= j < |rest| && IsDeleteOf(rest[j], t);
    assert IsDeleteOf(b[|a| + j], t);
  }

  lemma FailedPayment(s: Sys, p: nat, t: string, evidence: Evidence, op: Op)
    requires ProcOf(s, p) == Proc(Paying(t, evidence), NoTxn) && op.MarkPaid? && op.tradeNo == t && op.at == s.now
    ensures var s' := Fire(Fire(s, Begin(p, op)), Abort(p));
            s'.rows == s.rows && s'.log == s.log && ProcOf(s', p) == Proc(Idle, NoTxn)
  {
    var begun := Fire(s, Begin(p, op));
    assert ProcOf(begun, p) == Proc(Paying(t, evidence), Locking(op, map[])) && begun.rows == s.rows && begun.log == s.log;
  }

  /** A callback that is lost: its payment fails, the provider is told of success, and the order stays as it was. */
  lemma FailedPaymentIsLost(s: Sys, p: nat, t: string, evidence: Evidence, op: Op)
    requires ProcOf(s, p) == Proc(Idle, NoTxn) && t in s.rows && Supports(s.rows[t], evidence)
    requires op.MarkPaid? && op.tradeNo == t && op.at == s.now
    ensures var s' := Exec(s, [Verify(p, t, evidence)] + [Begin(p, op)] + [Abort(p)]);
            s'.rows == s.rows && s'.log == s.log && ProcOf(s', p) == Proc(Idle, NoTxn)
  {
    var verify, begin := Verify(p, t, evidence), Begin(p, op);
    ExecOne(s, verify);
    ExecSnoc(s, [verify], begin);
    ExecSnoc(s, [verify] + [begin], Abort(p));
    VerifyMoves(s, p, t, evidence);
    FailedPayment(Fire(s, verify), p, t, evidence, op);
  }

  /** After `more`, the payment runs through at once and takes its effect. */
  ghost predicate PaysAfter(s: Sys, more: seq<Step>, p: nat, evidence: Evidence, op: Op)
    requires op.MarkPaid?
  {
    Ran(Exec(s, more), Exec(s, more + StatementSteps(p, op)), p, Paying(op.tradeNo, evidence), op)
  }

  lemma PaysWhenFree(s: Sys, more: seq<Step>, p: nat, evidence: Evidence, op: Op)
    requires op.MarkPaid? && op.at == s.now && ProcOf(s, p) == Proc(Paying(op.tradeNo, evidence), NoTxn)
    requires AllCommitted(s, Exec(s, more))
    ensures PaysAfter(s, more, p, evidence, op)
  {
    assert p !in Active(s);
    StatementRuns(Exec(s, more), p, op);
    ExecConcat(s, more, StatementSteps(p, op));
  }

  /** A callback that passed its tests can always get through, whatever locks others hold: some continuation commits
      their transactions first and then its own payment. */
  lemma VerifiedCallbackCanPay(init: Sys, steps: seq<Step>, p: nat, evidence: Evidence, op: Op)
    requires Initial(init) && op.MarkPaid? && op.at == Exec(init, steps).now
    requires ProcOf(Exec(init, steps), p) == Proc(Paying(op.tradeNo, evidence), NoTxn)
    ensures exists more :: PaysAfter(Exec(init, steps), more, p, evidence, op)
  {
    Serialisable(init, steps);
    var more := AllCommit(Exec(init, steps));
    PaysWhenFree(Exec(init, steps), more, p, evidence, op);
  }

  /** Every callback that its handler would accept, in any reachable state: whatever the others do, if its payment
      statement commits and the order was not deleted, the order is paid then. */
  lemma GenuineCallbackGetsThrough(w: World, init: Sys, before: seq<Step>, p: nat, callback: Callback, t: string,
                                   evidence: Evidence, between: seq<Step>)
    requires Initial(init) && Passes(w, Exec(init, before).rows, callback, t, evidence)
    requires ProcOf(Exec(init, before), p) == Proc(Idle, NoTxn)
    requires forall step | step in between :: !Ends(step, p)
    requires Enabled(Exec(init, before + [Verify(p, t, evidence)] + between), Commit(p))
    ensures PaidAtCommit(Exec(init, before + [Verify(p, t, evidence)] + between), p, t, evidence)
  {
    PassesVerifies(w, Exec(init, before), p, callback, t, evidence);
    VerifiedCallbackPays(init, before, p, t, evidence, between);
  }
}
