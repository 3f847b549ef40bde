/** Payment channels and the evidence that a verified callback carries. */
module Channels {
  import opened Wrappers
  import opened Text
  import opened Money
  import opened Orders

  datatype Channel = Channel(id: nat, typeId: nat, plugin: string, enabled: bool,
                             paymin: Option<string>, paymax: Option<string>, config: string)

  /** `channel_detail`. */
  function ChannelById(channels: seq<Channel>, id: nat): Option<Channel> {
    if channels == [] then None
    else if channels[0].id == id then Some(channels[0])
    else ChannelById(channels[1..], id)
  }

  /** `c` is the channel with this id. Ids are a primary key; should two channels share one, it is the first of them. */
  ghost predicate FirstWithId(channels: seq<Channel>, id: nat, c: Channel) {
    exists k :: 0 <= k < |channels| && channels[k] == c && c.id == id && forall j | 0 <= j < k :: channels[j].id != id
  }

  lemma {:induction false} ChannelByIdIs(channels: seq<Channel>, id: nat, c: Channel)
    ensures ChannelById(channels, id) == Some(c) <==> FirstWithId(channels, id, c)
  {
    if channels != [] {
      var rest := channels[1..];
      ChannelByIdIs(rest, id, c);
      if channels[0].id == id {
        assert FirstWithId(channels, id, channels[0]);
      } else {
        if FirstWithId(rest, id, c) {
          var k :| 0 <= k < |rest| && rest[k] == c && c.id == id && forall j | 0 <= j < k :: rest[j].id != id;
          assert channels[k + 1] == c && forall j | 0 <= j < k + 1 :: j == 0 || channels[j] == rest[j - 1];
        }
        if FirstWithId(channels, id, c) {
          var k :| 0 <= k < |channels| && channels[k] == c && c.id == id && forall j | 0 <= j < k :: channels[j].id != id;
          assert rest[k - 1] == c && forall j | 0 <= j < k - 1 :: rest[j] == channels[j + 1];
        }
      }
    }
  }

  /** The limit test in `submit`; a limit that cannot be read does not restrict. */
  predicate WithinLimits(c: Channel, fen: int) {
    && (c.paymin.Some? && ParseYuanToFen(c.paymin.value).Some? ==> ParseYuanToFen(c.paymin.value).value <= fen)
    && (c.paymax.Some? && ParseYuanToFen(c.paymax.value).Some? ==> fen <= ParseYuanToFen(c.paymax.value).value)
  }

  /** The limits as they are written: every limit that is an amount within 64 bits is kept. */
  ghost predicate KeepsLimits(c: Channel, fen: int) {
    && (forall whole, frac | c.paymin.Some? && Spells(c.paymin.value, whole, frac) && Denotes(whole, frac) <= I64_MAX ::
          Denotes(whole, frac) <= fen)
    && (forall whole, frac | c.paymax.Some? && Spells(c.paymax.value, whole, frac) && Denotes(whole, frac) <= I64_MAX ::
          fen <= Denotes(whole, frac))
  }

  /** A text reads as an amount exactly if it spells it. */
  lemma ReadsAsSpelled(s: string, n: int)
    ensures ParseYuanToFen(s) == Some(n)
       <==> n <= I64_MAX && exists whole, frac :: Spells(s, whole, frac) && Denotes(whole, frac) == n
  {
    forall whole, frac | Spells(s, whole, frac)
      ensures ParseYuanToFen(s) == if Denotes(whole, frac) <= I64_MAX then Some(Denotes(whole, frac) as int) else None
    {
      ParseOfSpelling(s, whole, frac);
    }
    if !IsAmount(s) { ParseAcceptsOnlyAmounts(s); }
  }

  lemma LowerLimit(limit: string, fen: int)
    ensures (ParseYuanToFen(limit).Some? ==> ParseYuanToFen(limit).value <= fen)
       <==> forall whole, frac | Spells(limit, whole, frac) && Denotes(whole, frac) <= I64_MAX :: Denotes(whole, frac) <= fen
  {
    forall whole, frac | Spells(limit, whole, frac)
      ensures ParseYuanToFen(limit) == if Denotes(whole, frac) <= I64_MAX then Some(Denotes(whole, frac) as int) else None
    {
      ParseOfSpelling(limit, whole, frac);
    }
    if ParseYuanToFen(limit).Some? { ReadsAsSpelled(limit, ParseYuanToFen(limit).value); }
  }

  lemma UpperLimit(limit: string, fen: int)
    ensures (ParseYuanToFen(limit).Some? ==> fen <= ParseYuanToFen(limit).value)
       <==> forall whole, frac | Spells(limit, whole, frac) && Denotes(whole, frac) <= I64_MAX :: fen <= Denotes(whole, frac)
  {
    forall whole, frac | Spells(limit, whole, frac)
      ensures ParseYuanToFen(limit) == if Denotes(whole, frac) <= I64_MAX then Some(Denotes(whole, frac) as int) else None
    {
      ParseOfSpelling(limit, whole, frac);
    }
    if ParseYuanToFen(limit).Some? { ReadsAsSpelled(limit, ParseYuanToFen(limit).value); }
  }

  /** The test of `submit` lets exactly the amounts through that keep the limits. */
  lemma LimitsAreKept(c: Channel, fen: int)
    ensures WithinLimits(c, fen) <==> KeepsLimits(c, fen)
  {
    if c.paymin.Some? { LowerLimit(c.paymin.value, fen); }
    if c.paymax.Some? { UpperLimit(c.paymax.value, fen); }
  }

  /** What a callback says about the amount; PayPal and Stripe callbacks are not asked about it. */
  datatype Evidence = AlipayText(amount: string) | WechatFen(fen: int) | NoAmount

  /** The amount test of the callback handlers against the stored order. */
  predicate Supports(row: Row, e: Evidence) {
    match e
    case AlipayText(amount) => !AmountsDiffer(amount, row.ExpectedText())
    case WechatFen(fen) => ParseYuanToFen(row.ExpectedText()) == Some(fen)
    case NoAmount => true
  }

  /** The evidence names exactly this amount. */
  predicate Names(e: Evidence, money: Amount) {
    match e
    case AlipayText(amount) => ParseYuanToFen(amount) == Some(money)
    case WechatFen(fen) => fen == money
    case NoAmount => true
  }

  lemma SupportsNamesExpected(row: Row, e: Evidence)
    ensures Supports(row, e) <==> Names(e, row.Expected())
  {
    ReadBackPrinted(row.Expected());
  }
}

/** The gateway as concurrent handlers over one database (src/store.rs, src/web.rs, src/admin.rs).
    Every transaction locks the rows it touches, reads them, buffers its writes and publishes them on commit. */
module Interleaving {
  import opened Wrappers
  import opened Orders
  import opened Channels

  // ---- state ----

  /** The local variables of a handler between two statements. `foundAt` and `readAt` only record history: how many
      transactions had committed when `submit` found no order of the pair, and when a handler read its order. */
  datatype Job =
    | Idle
    | Creating(uid: nat, outTradeNo: string, tries: nat, foundAt: nat)
    | Submitting(tradeNo: string, amount: Amount, readAt: nat)
    | Paying(tradeNo: string, evidence: Evidence)
    | Notifying(tradeNo: string)
    | Refunding(tradeNo: string, amount: Amount, readAt: nat)
    | Returned(tradeNo: string, amount: Amount, readAt: nat)
    | Retrying(queue: seq<string>)

  /** `held` has the version of each locked key that the transaction read; absent keys can be locked too. */
  datatype Txn =
    | NoTxn
    | Locking(op: Op, held: map<string, Option<Row>>)
    | Written(op: Op, held: map<string, Option<Row>>, buffer: map<string, Option<Row>>)

  datatype Proc = Proc(job: Job, txn: Txn)

  /** One committed transaction: who ran it, on whose behalf, the row it read and the answer it got. */
  datatype Entry = Entry(pid: nat, job: Job, op: Op, seen: Option<Row>, answer: Answer)

  /** `gaps` is the table scan that keeps new keys out, if one is running. */
  datatype Sys = Sys(channels: seq<Channel>, rows: Rows, owner: map<string, nat>, gaps: Option<nat>,
                     procs: map<nat, Proc>, now: int, log: seq<Entry>)

  const RETRY_TASK: nat := 0
  const BATCH := 20

  function ProcOf(s: Sys, p: nat): Proc {
    if p in s.procs then s.procs[p] else Proc(Idle, NoTxn)
  }

  function Held(txn: Txn): map<string, Option<Row>> {
    if txn.NoTxn? then map[] else txn.held
  }

  ghost predicate Initial(s: Sys) {
    s.owner == map[] && s.gaps == None && s.procs == map[] && s.log == []
  }

  // ---- what a handler may do next ----

  ghost predicate IsChannelFor(channels: seq<Channel>, typeId: nat, channelId: nat, amount: int) {
    exists c | c in channels :: c.id == channelId && c.typeId == typeId && WithinLimits(c, amount)
  }

  ghost predicate MayIssue(channels: seq<Channel>, job: Job, op: Op) {
    match job
    case Idle => op.UpdateStatus? || op.Delete? || (op.Expire? && op.minutes == EXPIRY_MINUTES)
    case Creating(uid, outTradeNo, _, _) =>
      op.Insert? && op.draft.uid == uid && op.draft.outTradeNo == outTradeNo
    case Submitting(t, amount, _) =>
      && op.SetChannel? && op.tradeNo == t && op.amount == amount
      && IsChannelFor(channels, op.typeId, op.channelId, amount)
    case Paying(t, _) => op.MarkPaid? && op.tradeNo == t
    case Notifying(t) => op.RecordAttempt? && op.tradeNo == t
    case Refunding(_, _, _) => false
    case Returned(t, amount, _) => op.SetRefunded? && op.tradeNo == t && op.amount == amount
    case Retrying(queue) => queue != [] && op.RecordAttempt? && op.tradeNo == queue[0]
  }

  predicate StampedNow(op: Op, now: int) {
    match op
    case Insert(_, _, at) => at == now
    case MarkPaid(_, _, _, at) => at == now
    case RecordAttempt(_, _, at) => at == now
    case UpdateStatus(_, _, at) => at == now
    case Expire(_, at) => at == now
    case _ => true
  }

  function NextInQueue(queue: seq<string>): Job {
    if |queue| <= 1 then Idle else Retrying(queue[1..])
  }

  /** The job after it gave up a statement, or after a statement failed. */
  function AfterFailure(job: Job): Job {
    if job.Retrying? then NextInQueue(job.queue) else Idle
  }

  /** The job after its statement was answered: wins are notified, created orders get a channel, and a trade
      number that was taken is drawn again. `at` transactions had committed before. */
  function AfterAnswer(job: Job, op: Op, answer: Answer, at: nat): Job {
    if op.MarkPaid? && answer == Flag(true) then Notifying(op.tradeNo)
    else if op.Insert? && answer == Flag(true) then Submitting(op.tradeNo, op.draft.money, at)
    else if op.Insert? && job.Creating? && job.tries > 1 then job.(tries := job.tries - 1)
    else AfterFailure(job)
  }

  ghost predicate NoRepeats(ts: seq<string>) {
    forall i, j | 0 <= i < j < |ts| :: ts[i] != ts[j]
  }

  // ---- steps ----

  datatype Step =
    | Tick(now: int)                              // the clock advances
    | FindNothing(pid: nat, uid: nat, outTradeNo: string)     // submit finds no order of the pair
    | ReadForSubmit(pid: nat, tradeNo: string)    // submit finds its unpaid order
    | ReadForRefund(pid: nat, tradeNo: string)    // the admin refund reads a paid order
    | ProviderReturns(pid: nat)                   // the provider agrees to the refund and returns the money
    | Verify(pid: nat, tradeNo: string, evidence: Evidence)   // a callback passes all its tests
    | Select(pid: nat, tradeNos: seq<string>)     // the retry task reads pending orders
    | GiveUp(pid: nat)                            // a handler stops without another statement
    | Begin(pid: nat, op: Op)
    | LockGaps(pid: nat)
    | Lock(pid: nat, tradeNo: string)
    | Write(pid: nat)
    | Commit(pid: nat)
    | Abort(pid: nat)

  ghost predicate Enabled(s: Sys, step: Step) {
    match step
    case Tick(now) => s.now <= now
    case FindNothing(p, uid, o) => ProcOf(s, p) == Proc(Idle, NoTxn) && !HasPair(s.rows, uid, o)
    case ReadForSubmit(p, t) => ProcOf(s, p) == Proc(Idle, NoTxn) && t in s.rows && s.rows[t].status <= UNPAID
    case ReadForRefund(p, t) => ProcOf(s, p) == Proc(Idle, NoTxn) && t in s.rows && s.rows[t].status == PAID
    case ProviderReturns(p) => ProcOf(s, p).job.Refunding? && ProcOf(s, p).txn.NoTxn?
    case Verify(p, t, e) => ProcOf(s, p) == Proc(Idle, NoTxn) && t in s.rows && Supports(s.rows[t], e)
    case Select(p, ts) =>
      && p == RETRY_TASK && ProcOf(s, p) == Proc(Idle, NoTxn)
      && 0 < |ts| <= BATCH && NoRepeats(ts)
      && forall t | t in ts :: t in s.rows && Pending(s.rows[t], s.now)
    case GiveUp(p) => ProcOf(s, p).txn.NoTxn?
    case Begin(p, op) =>
      ProcOf(s, p).txn.NoTxn? && MayIssue(s.channels, ProcOf(s, p).job, op) && StampedNow(op, s.now)
    case LockGaps(p) =>
      && ProcOf(s, p).txn.Locking? && ProcOf(s, p).txn.op.Expire?
      && s.gaps.None? && forall t | t in s.owner :: t in s.rows
    case Lock(p, t) =>
      && ProcOf(s, p).txn.Locking? && t !in s.owner
      && if ProcOf(s, p).txn.op.Expire? then s.gaps == Some(p) && t in s.rows
         else t == ProcOf(s, p).txn.op.tradeNo && (t in s.rows || s.gaps.None?)
    case Write(p) =>
      && ProcOf(s, p).txn.Locking?
      && if ProcOf(s, p).txn.op.Expire? then s.gaps == Some(p) && s.rows.Keys <= ProcOf(s, p).txn.held.Keys
         else ProcOf(s, p).txn.op.tradeNo in ProcOf(s, p).txn.held
    case Commit(p) =>
      && ProcOf(s, p).txn.Written?
      && (ProcOf(s, p).txn.op.Expire? || ProcOf(s, p).txn.op.tradeNo in ProcOf(s, p).txn.held)
    case Abort(p) => !ProcOf(s, p).txn.NoTxn?
  }

  function SetProc(s: Sys, p: nat, proc: Proc): Sys {
    s.(procs := s.procs[p := proc])
  }

  /** Ends the transaction of `p`: its locks are released and the handler goes on with `job`. */
  function Release(s: Sys, p: nat, job: Job): Sys {
    SetProc(s.(owner := s.owner - Held(ProcOf(s, p).txn).Keys,
               gaps := if s.gaps == Some(p) then None else s.gaps),
            p, Proc(job, NoTxn))
  }

  function Publish(rows: Rows, buffer: map<string, Option<Row>>): Rows {
    map t | t in rows.Keys + buffer.Keys && (t in buffer ==> buffer[t].Some?)
      :: if t in buffer then buffer[t].value else rows[t]
  }

  function Effects(op: Op, held: map<string, Option<Row>>): map<string, Option<Row>> {
    map t | t in held :: Effect(op, held[t])
  }

  /** The answer that the transaction works out from the versions it read. */
  function AnswerFrom(op: Op, held: map<string, Option<Row>>): Answer
    requires op.Expire? || op.tradeNo in held
  {
    if op.Expire? then
      Count(|set t | t in held && held[t].Some? && Expires(held[t].value, op.minutes, op.at)|)
    else Reply(op, held[op.tradeNo])
  }

  function SeenBy(op: Op, held: map<string, Option<Row>>): Option<Row>
    requires op.Expire? || op.tradeNo in held
  {
    if op.Expire? then None else held[op.tradeNo]
  }

  function AfterReturn(job: Job): Job
    requires job.Refunding?
  {
    Returned(job.tradeNo, job.amount, job.readAt)
  }

  /** A step that is not enabled leaves the state as it is: the process waits. */
  ghost function Fire(s: Sys, step: Step): Sys {
    if !Enabled(s, step) then s
    else
      match step
      case Tick(now) => s.(now := now)
      case FindNothing(p, uid, o) => SetProc(s, p, Proc(Creating(uid, o, TRIES, |s.log|), NoTxn))
      case ReadForSubmit(p, t) => SetProc(s, p, Proc(Submitting(t, s.rows[t].Money(), |s.log|), NoTxn))
      case ReadForRefund(p, t) => SetProc(s, p, Proc(Refunding(t, s.rows[t].Expected(), |s.log|), NoTxn))
      case ProviderReturns(p) => SetProc(s, p, Proc(AfterReturn(ProcOf(s, p).job), NoTxn))
      case Verify(p, t, e) => SetProc(s, p, Proc(Paying(t, e), NoTxn))
      case Select(p, ts) => SetProc(s, p, Proc(Retrying(ts), NoTxn))
      case GiveUp(p) => SetProc(s, p, Proc(AfterFailure(ProcOf(s, p).job), NoTxn))
      case Begin(p, op) => SetProc(s, p, ProcOf(s, p).(txn := Locking(op, map[])))
      case LockGaps(p) => s.(gaps := Some(p))
      case Lock(p, t) =>
        var txn := ProcOf(s, p).txn;
        SetProc(s.(owner := s.owner[t := p]), p,
                ProcOf(s, p).(txn := Locking(txn.op, txn.held[t := At(s.rows, t)])))
      case Write(p) =>
        var txn := ProcOf(s, p).txn;
        SetProc(s, p, ProcOf(s, p).(txn := Written(txn.op, txn.held, Effects(txn.op, txn.held))))
      case Commit(p) =>
        var proc := ProcOf(s, p);
        var op, held := proc.txn.op, proc.txn.held;
        var answer := AnswerFrom(op, held);
        var entry := Entry(p, proc.job, op, SeenBy(op, held), answer);
        Release(s.(rows := Publish(s.rows, proc.txn.buffer), log := s.log + [entry]),
                p, AfterAnswer(proc.job, op, answer, |s.log|))
      case Abort(p) => Release(s, p, AfterFailure(ProcOf(s, p).job))
  }

  ghost function Exec(s: Sys, steps: seq<Step>): Sys {
    if steps == [] then s else Fire(Exec(s, steps[..|steps| - 1]), steps[|steps| - 1])
  }

  // ---- locks protect what was read ----

  ghost predicate TxnOk(s: Sys, p: nat) {
    var txn := ProcOf(s, p).txn;
    && (forall t | t in Held(txn) :: t in s.owner && s.owner[t] == p && Held(txn)[t] == At(s.rows, t))
    && match txn
       case NoTxn => s.gaps != Some(p)
       case Locking(op, held) =>
         if op.Expire? then held.Keys <= s.rows.Keys && (held != map[] ==> s.gaps == Some(p))
         else held.Keys <= {op.tradeNo} && s.gaps != Some(p)
       case Written(op, held, buffer) =>
         && buffer == Effects(op, held)
         && if op.Expire? then s.gaps == Some(p) && held.Keys == s.rows.Keys
            else held.Keys == {op.tradeNo} && s.gaps != Some(p)
  }

  ghost predicate LocksOk(s: Sys) {
    && (forall p :: TxnOk(s, p))
    && (forall t | t in s.owner :: t in Held(ProcOf(s, s.owner[t]).txn))
    && (s.gaps.Some? ==> forall t | t in s.owner :: t in s.rows)
  }

  lemma InitiallyLocksOk(s: Sys)
    requires Initial(s)
    ensures LocksOk(s)
  {
  }

  /** A finished scan holds every row of the table in its current version. */
  lemma ScanIsAtomic(rows: Rows, op: Op, held: map<string, Option<Row>>)
    requires op.Expire? && held.Keys == rows.Keys
    requires forall t | t in held :: t in rows && held[t] == Some(rows[t])
    ensures Publish(rows, Effects(op, held)) == Apply(rows, op)
    ensures AnswerFrom(op, held) == AnswerTo(rows, op)
  {
    var published := Publish(rows, Effects(op, held));
    assert published.Keys == rows.Keys;
    forall t | t in rows ensures published[t] == Apply(rows, op)[t] {
      assert Effects(op, held)[t] == Some(Rewritten(op, rows[t]));
    }
    var closing := set t | t in held && held[t].Some? && Expires(held[t].value, op.minutes, op.at);
    assert closing == set t | t in rows && Expires(rows[t], op.minutes, op.at);
  }

  /** A transaction that is ready to commit publishes what its statement would do if it ran alone right now. */
  lemma CommitIsAtomic(s: Sys, p: nat)
    requires LocksOk(s) && ProcOf(s, p).txn.Written?
    ensures var txn := ProcOf(s, p).txn;
            && (txn.op.Expire? || txn.op.tradeNo in txn.held)
            && Publish(s.rows, txn.buffer) == Apply(s.rows, txn.op)
            && AnswerFrom(txn.op, txn.held) == AnswerTo(s.rows, txn.op)
            && SeenBy(txn.op, txn.held) == if txn.op.Expire? then None else At(s.rows, txn.op.tradeNo)
  {
    assert TxnOk(s, p);
    var txn := ProcOf(s, p).txn;
    if txn.op.Expire? {
      forall t | t in txn.held ensures t in s.rows && txn.held[t] == Some(s.rows[t]) {
        assert t in txn.held.Keys && txn.held[t] == At(s.rows, t);
      }
      ScanIsAtomic(s.rows, txn.op, txn.held);
    } else {
      assert txn.held[txn.op.tradeNo] == At(s.rows, txn.op.tradeNo);
    }
  }

  lemma BeginKeepsLocks(s: Sys, p: nat, proc: Proc)
    requires LocksOk(s) && ProcOf(s, p).txn.NoTxn?
    requires proc.txn.NoTxn? || (proc.txn.Locking? && proc.txn.held == map[])
    ensures LocksOk(SetProc(s, p, proc))
  {
    var s' := SetProc(s, p, proc);
    forall q ensures TxnOk(s', q) {
      assert TxnOk(s, q);
    }
  }

  lemma LockKeepsLocks(s: Sys, p: nat, t: string)
    requires LocksOk(s) && Enabled(s, Lock(p, t))
    ensures LocksOk(Fire(s, Lock(p, t)))
  {
    var s' := Fire(s, Lock(p, t));
    forall q ensures TxnOk(s', q) {
      assert TxnOk(s, q);
    }
  }

  lemma LockGapsKeepsLocks(s: Sys, p: nat)
    requires LocksOk(s) && Enabled(s, LockGaps(p))
    ensures LocksOk(Fire(s, LockGaps(p)))
  {
    forall q ensures TxnOk(Fire(s, LockGaps(p)), q) {
      assert TxnOk(s, q);
    }
  }

  lemma WriteKeepsLocks(s: Sys, p: nat)
    requires LocksOk(s) && Enabled(s, Write(p))
    ensures LocksOk(Fire(s, Write(p)))
  {
    forall q ensures TxnOk(Fire(s, Write(p)), q) {
      assert TxnOk(s, q) && TxnOk(s, p);
    }
  }

  /** Releasing keeps the other transactions' locks; published rows are only those that were locked. */
  lemma ReleaseKeepsLocks(s: Sys, p: nat, job: Job, rows: Rows)
    requires LocksOk(s) && !ProcOf(s, p).txn.NoTxn?
    requires forall t :: t !in Held(ProcOf(s, p).txn) ==> At(rows, t) == At(s.rows, t)
    ensures LocksOk(Release(s.(rows := rows), p, job))
  {
    var held := Held(ProcOf(s, p).txn);
    var s' := Release(s.(rows := rows), p, job);
    assert TxnOk(s, p);
    forall q ensures TxnOk(s', q) {
      assert TxnOk(s, q);
      if q != p {
        assert ProcOf(s', q) == ProcOf(s, q);
        var txn := ProcOf(s, q).txn;
        forall t | t in Held(txn) ensures t in s'.owner && s'.owner[t] == q && Held(txn)[t] == At(s'.rows, t) {
          assert t !in held;
        }
        if s.gaps == Some(q) {
          SameKeys(s, p, q, rows);
        }
      }
    }
    forall t | t in s'.owner ensures t in Held(ProcOf(s', s'.owner[t]).txn) {
      assert t in s.owner && t !in held;
    }
    if s'.gaps.Some? {
      forall t | t in s'.owner ensures t in rows {
        assert t !in held && At(rows, t) == At(s.rows, t);
      }
    }
  }

  /** While `q` scans the table, another transaction leaves the keys that `q` has locked in place. */
  lemma SameKeys(s: Sys, p: nat, q: nat, rows: Rows)
    requires LocksOk(s) && p != q && s.gaps == Some(q)
    requires forall t :: t !in Held(ProcOf(s, p).txn) ==> At(rows, t) == At(s.rows, t)
    ensures var held := Held(ProcOf(s, q).txn);
            && (held.Keys <= s.rows.Keys ==> held.Keys <= rows.Keys)
            && (held.Keys == s.rows.Keys ==> held.Keys == rows.Keys)
  {
    assert TxnOk(s, p) && TxnOk(s, q);
    var held := Held(ProcOf(s, q).txn);
    forall t | t in held ensures At(rows, t) == At(s.rows, t) {
    }
    forall t | t !in s.rows ensures At(rows, t) == At(s.rows, t) {
      assert t !in s.owner;
    }
  }

  /** Every step keeps the lock discipline. */
  lemma StepKeepsLocks(s: Sys, step: Step)
    requires LocksOk(s)
    ensures LocksOk(Fire(s, step))
  {
    if Enabled(s, step) {
      match step
      case Tick(now) =>
        forall q ensures TxnOk(Fire(s, step), q) { assert TxnOk(s, q); }
      case FindNothing(p, uid, o) => BeginKeepsLocks(s, p, Proc(Creating(uid, o, TRIES, |s.log|), NoTxn));
      case ReadForSubmit(p, t) => BeginKeepsLocks(s, p, Proc(Submitting(t, s.rows[t].Money(), |s.log|), NoTxn));
      case ReadForRefund(p, t) => BeginKeepsLocks(s, p, Proc(Refunding(t, s.rows[t].Expected(), |s.log|), NoTxn));
      case ProviderReturns(p) => BeginKeepsLocks(s, p, Proc(AfterReturn(ProcOf(s, p).job), NoTxn));
      case Verify(p, t, e) => BeginKeepsLocks(s, p, Proc(Paying(t, e), NoTxn));
      case Select(p, ts) => BeginKeepsLocks(s, p, Proc(Retrying(ts), NoTxn));
      case GiveUp(p) => BeginKeepsLocks(s, p, Proc(AfterFailure(ProcOf(s, p).job), NoTxn));
      case Begin(p, op) => BeginKeepsLocks(s, p, ProcOf(s, p).(txn := Locking(op, map[])));
      case LockGaps(p) => LockGapsKeepsLocks(s, p);
      case Lock(p, t) => LockKeepsLocks(s, p, t);
      case Write(p) => WriteKeepsLocks(s, p);
      case Commit(p) => CommitKeepsLocks(s, p);
      case Abort(p) => ReleaseKeepsLocks(s, p, AfterFailure(ProcOf(s, p).job), s.rows);
    }
  }

  lemma CommitKeepsLocks(s: Sys, p: nat)
    requires LocksOk(s) && Enabled(s, Commit(p))
    ensures LocksOk(Fire(s, Commit(p)))
  {
    var txn := ProcOf(s, p).txn;
    var rows := Publish(s.rows, txn.buffer);
    PublishesOnlyHeld(s, p);
    var job := AfterAnswer(ProcOf(s, p).job, txn.op, AnswerFrom(txn.op, txn.held), |s.log|);
    ReleaseKeepsLocks(s, p, job, rows);
    var s' := Fire(s, Commit(p));
    assert s' == Release(s.(rows := rows), p, job).(log := s'.log);
    LogIsNoLock(Release(s.(rows := rows), p, job), s'.log);
  }

  lemma PublishesOnlyHeld(s: Sys, p: nat)
    requires LocksOk(s) && ProcOf(s, p).txn.Written?
    ensures forall t | t !in ProcOf(s, p).txn.held :: At(Publish(s.rows, ProcOf(s, p).txn.buffer), t) == At(s.rows, t)
  {
    assert TxnOk(s, p);
  }

  lemma LogIsNoLock(s: Sys, log: seq<Entry>)
    requires LocksOk(s)
    ensures LocksOk(s.(log := log))
  {
    forall q ensures TxnOk(s.(log := log), q) { assert TxnOk(s, q); }
  }

  // ---- serialisability ----

  /** The rows after the committed statements have run one at a time, in commit order. */
  ghost function Replay(init: Rows, log: seq<Entry>): Rows {
    if log == [] then init else Apply(Replay(init, log[..|log| - 1]), log[|log| - 1].op)
  }

  /** What a statement reads and answers when it runs alone. */
  ghost predicate AnsweredAlone(rows: Rows, e: Entry) {
    && e.answer == AnswerTo(rows, e.op)
    && e.seen == if e.op.Expire? then None else At(rows, e.op.tradeNo)
  }

  ghost predicate Serial(init: Rows, log: seq<Entry>) {
    forall i | 0 <= i < |log| :: AnsweredAlone(Replay(init, log[..i]), log[i])
  }

  lemma SerialSnoc(init: Rows, log: seq<Entry>, e: Entry)
    requires Serial(init, log) && AnsweredAlone(Replay(init, log), e)
    ensures Serial(init, log + [e])
    ensures Replay(init, log + [e]) == Apply(Replay(init, log), e.op)
  {
    var longer := log + [e];
    assert longer[..|log|] == log;
    forall i | 0 <= i < |longer| ensures AnsweredAlone(Replay(init, longer[..i]), longer[i]) {
      if i < |log| {
        assert longer[..i] == log[..i];
      }
    }
  }

  /** In every interleaving of lock-level steps the committed rows, the rows that transactions read and the
      answers they give are those of the serial run in commit order. */
  lemma {:induction false} Serialisable(init: Sys, steps: seq<Step>)
    requires Initial(init)
    ensures var s := Exec(init, steps);
            LocksOk(s) && s.rows == Replay(init.rows, s.log) && Serial(init.rows, s.log)
  {
    if steps == [] {
      InitiallyLocksOk(init);
    } else {
      var before := Exec(init, steps[..|steps| - 1]);
      var step := steps[|steps| - 1];
      Serialisable(init, steps[..|steps| - 1]);
      StepKeepsLocks(before, step);
      StepIsSerial(init.rows, before, step);
    }
  }

  lemma StepIsSerial(init: Rows, s: Sys, step: Step)
    requires LocksOk(s) && s.rows == Replay(init, s.log) && Serial(init, s.log)
    ensures var s' := Fire(s, step); s'.rows == Replay(init, s'.log) && Serial(init, s'.log)
  {
    if Enabled(s, step) && step.Commit? {
      var proc := ProcOf(s, step.pid);
      var op, held := proc.txn.op, proc.txn.held;
      CommitIsAtomic(s, step.pid);
      SerialSnoc(init, s.log, Entry(step.pid, proc.job, op, SeenBy(op, held), AnswerFrom(op, held)));
    }
  }
}
