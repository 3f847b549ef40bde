/** Order rows (database/schema.sql, table pay_order) and the meaning of each SQL statement on them (src/store.rs). */
module Orders {
  import opened Wrappers
  import opened Money

  /** DECIMAL(10,2), counted in fen. */
  type Amount = n: nat | n < 10_000_000_000

  const UNPAID := 0
  const PAID := 1
  const CLOSED := 2
  const REFUNDED := 3

  const DELIVERED := 99
  const MAX_ATTEMPTS := 5
  const RETRY_PAUSE := 10
  const EXPIRY_MINUTES := 30
  const TRIES := 5

  /** What a merchant submits. */
  datatype Draft = Draft(uid: nat, outTradeNo: string, name: string, money: Amount,
                         notifyUrl: string, returnUrl: string, param: Option<string>)

  datatype Row = Row(draft: Draft, typeId: nat, channel: nat,
                     realmoney: Option<Amount>, getmoney: Option<Amount>, refundmoney: Option<Amount>,
                     status: int, notify: int, notifytime: Option<int>,
                     addtime: int, endtime: Option<int>,
                     apiTradeNo: Option<string>, buyer: Option<string>)
  {
    function Money(): Amount { draft.money }

    /** `realmoney` if it is set and `money` otherwise: what callbacks expect and refunds return. */
    function Expected(): Amount {
      if realmoney.Some? then realmoney.value else draft.money
    }

    /** `CAST(... AS CHAR)` of the expected amount. */
    function ExpectedText(): string { FenToYuanString(Expected()) }
  }

  type Rows = map<string, Row>

  predicate IsOrderOf(row: Row, uid: nat, outTradeNo: string) {
    row.draft.uid == uid && row.draft.outTradeNo == outTradeNo
  }

  ghost predicate HasPair(rows: Rows, uid: nat, outTradeNo: string) {
    exists t :: t in rows && IsOrderOf(rows[t], uid, outTradeNo)
  }

  ghost predicate AtMostOnePerPair(rows: Rows) {
    forall t, u | t in rows && u in rows && IsOrderOf(rows[u], rows[t].draft.uid, rows[t].draft.outTradeNo) :: t == u
  }

  function NewRow(draft: Draft, at: int): Row {
    Row(draft, 0, 0, None, None, None, UNPAID, 0, None, at, None, None, None)
  }

  /** The statements; `at` is the value of NOW() in the statement. */
  datatype Op =
    | Insert(tradeNo: string, draft: Draft, at: int)
    | SetChannel(tradeNo: string, typeId: nat, channelId: nat, amount: Amount)
    | MarkPaid(tradeNo: string, apiTradeNo: Option<string>, buyer: Option<string>, at: int)
    | RecordAttempt(tradeNo: string, success: bool, at: int)
    | SetRefunded(tradeNo: string, amount: Amount)
    | UpdateStatus(tradeNo: string, status: int, at: int)
    | Delete(tradeNo: string)
    | Expire(minutes: int, at: int)

  datatype Answer = NotFound | Flag(yes: bool) | Count(rows: nat)

  function Coalesce<T>(first: Option<T>, second: Option<T>): Option<T> {
    if first.Some? then first else second
  }

  predicate Expires(row: Row, minutes: int, at: int) {
    row.status == UNPAID && row.addtime < at - 60 * minutes
  }

  /** What a statement makes of a row that exists. */
  function Rewritten(op: Op, row: Row): Row
    requires !op.Delete?
  {
    match op
    case Insert(_, _, _) => row
    case SetChannel(_, typeId, channelId, amount) =>
      row.(typeId := typeId, channel := channelId, realmoney := Some(amount), getmoney := Some(amount))
    case MarkPaid(_, apiTradeNo, buyer, at) =>
      if row.status == PAID then row
      else row.(status := PAID, endtime := Some(at),
                apiTradeNo := Coalesce(apiTradeNo, row.apiTradeNo), buyer := Coalesce(buyer, row.buyer))
    case RecordAttempt(_, success, at) =>
      row.(notify := if success then DELIVERED else row.notify + 1, notifytime := Some(at))
    case SetRefunded(_, amount) =>
      if row.status == PAID then row.(status := REFUNDED, refundmoney := Some(amount)) else row
    case UpdateStatus(_, status, at) =>
      if status == PAID then
        row.(status := PAID, endtime := Coalesce(row.endtime, Some(at)),
             notify := if row.notify >= MAX_ATTEMPTS then 0 else row.notify)
      else
        row.(status := status)
    case Expire(minutes, at) => if Expires(row, minutes, at) then row.(status := CLOSED) else row
  }

  function Effect(op: Op, cur: Option<Row>): Option<Row> {
    match op
    case Insert(_, draft, at) => if cur.Some? then cur else Some(NewRow(draft, at))
    case Delete(_) => None
    case _ => if cur.Some? then Some(Rewritten(op, cur.value)) else None
  }

  /** The answer of a statement on one row, given the row it finds; affected rows are matched rows. */
  function Reply(op: Op, cur: Option<Row>): Answer
    requires !op.Expire?
  {
    match op
    case Insert(_, _, _) => Flag(cur.None?)
    case MarkPaid(_, _, _, _) => if cur.None? then NotFound else Flag(cur.value.status != PAID)
    case SetRefunded(_, _) => Flag(cur.Some? && cur.value.status == PAID)
    case _ => Flag(cur.Some?)
  }

  function At(rows: Rows, t: string): Option<Row> {
    if t in rows then Some(rows[t]) else None
  }

  function Put(rows: Rows, t: string, row: Option<Row>): Rows {
    if row.Some? then rows[t := row.value] else rows - {t}
  }

  /** The rows after one statement has run alone. */
  function Apply(rows: Rows, op: Op): Rows {
    if op.Expire? then map t | t in rows :: Rewritten(op, rows[t])
    else Put(rows, op.tradeNo, Effect(op, At(rows, op.tradeNo)))
  }

  function AnswerTo(rows: Rows, op: Op): Answer {
    if op.Expire? then Count(|set t | t in rows && Expires(rows[t], op.minutes, op.at)|)
    else Reply(op, At(rows, op.tradeNo))
  }

  /** Paid, not yet delivered, and not attempted within the last pause. */
  predicate Pending(row: Row, now: int) {
    && row.status == PAID && row.notify < MAX_ATTEMPTS
    && (row.notifytime.None? || row.notifytime.value < now - RETRY_PAUSE)
  }

  lemma ApplyAt(rows: Rows, op: Op, t: string)
    ensures At(Apply(rows, op), t)
         == if op.Expire? || op.tradeNo == t then Effect(op, At(rows, t)) else At(rows, t)
  {
  }

  // ---- single columns ----

  /** Expiry closes an unpaid order exactly when its minutes of sixty seconds are over, and changes nothing else. */
  lemma ExpiryCloses(row: Row, minutes: int, at: int)
    ensures Rewritten(Expire(minutes, at), row)
         == if row.status == 0 && at - row.addtime > 60 * minutes then row.(status := 2) else row
  {
  }

  /** An order that nobody pays is closed by the first expiry more than half an hour after it was created. */
  lemma NewOrderExpires(draft: Draft, created: int, at: int)
    ensures Rewritten(Expire(EXPIRY_MINUTES, at), NewRow(draft, created)).status == if at - created > 1800 then 2 else 0
  {
  }

  /** After a recorded attempt a paid order is pending again exactly if the attempt failed, was not the fifth, and more
      than ten seconds have passed. */
  lemma PendingAfterAttempt(row: Row, t: string, success: bool, at: int, now: int)
    requires row.status == 1
    ensures Pending(Rewritten(RecordAttempt(t, success, at), row), now) <==> !success && row.notify + 1 < 5 && now - at > 10
  {
  }

  /** A paid order that was never attempted is pending at once. */
  lemma PendingAtFirst(row: Row, now: int)
    requires row.notifytime.None?
    ensures Pending(row, now) <==> row.status == 1 && row.notify < 5
  {
  }

  /** An edit to status 1 leaves the order paid with an attempt left; a counter below five and a known time stay. */
  lemma EditRestarts(row: Row, t: string, at: int)
    ensures var after := Rewritten(UpdateStatus(t, 1, at), row);
            && after.status == 1 && after.notify == (if row.notify < 5 then row.notify else 0)
            && after.endtime == (if row.endtime.Some? then row.endtime else Some(at))
            && after.draft == row.draft && after.notifytime == row.notifytime
  {
  }

  /** The rows after several statements have run one at a time. */
  function ApplyAll(rows: Rows, ops: seq<Op>): Rows {
    if ops == [] then rows else Apply(ApplyAll(rows, ops[..|ops| - 1]), ops[|ops| - 1])
  }

  lemma {:induction false} ApplyAllConcat(rows: Rows, a: seq<Op>, b: seq<Op>)
    ensures ApplyAll(rows, a + b) == ApplyAll(ApplyAll(rows, a), b)
  {
    if b == [] {
      assert a + b == a;
    } else {
      ApplyAllConcat(rows, a, b[..|b| - 1]);
      assert (a + b)[..|a + b| - 1] == a + b[..|b| - 1];
    }
  }

  lemma SubsetSize<T>(a: set<T>, b: set<T>)
    requires a <= b
    ensures |a| <= |b|
  {
    assert b == a + (b - a);
  }

  // ---- sums over a table ----

  ghost function Sum(rows: Rows, f: Row -> int): int
    decreases rows.Keys
  {
    if rows == map[] then 0
    else
      var t :| t in rows;
      f(rows[t]) + Sum(rows - {t}, f)
  }

  lemma {:induction false} SumWithout(rows: Rows, f: Row -> int, t: string)
    requires t in rows
    ensures Sum(rows, f) == f(rows[t]) + Sum(rows - {t}, f)
    decreases rows.Keys
  {
    var u :| u in rows && Sum(rows, f) == f(rows[u]) + Sum(rows - {u}, f);
    if u != t {
      SumWithout(rows - {u}, f, t);
      SumWithout(rows - {t}, f, u);
      assert rows - {u} - {t} == rows - {t} - {u};
    }
  }

  ghost function Share(row: Option<Row>, f: Row -> int): int {
    if row.Some? then f(row.value) else 0
  }

  /** Changing one entry changes the sum by the difference of its shares. */
  lemma SumPut(rows: Rows, f: Row -> int, t: string, row: Option<Row>)
    ensures Sum(Put(rows, t, row), f) == Sum(rows, f) - Share(At(rows, t), f) + Share(row, f)
  {
    var after := Put(rows, t, row);
    if t in rows { SumWithout(rows, f, t); }
    if row.Some? { SumWithout(after, f, t); }
    assert after - {t} == rows - {t};
    assert t !in rows ==> rows - {t} == rows;
  }

  lemma {:induction false} SumPointwise(a: Rows, b: Rows, f: Row -> int)
    requires a.Keys == b.Keys && forall t | t in a :: f(a[t]) == f(b[t])
    ensures Sum(a, f) == Sum(b, f)
    decreases a.Keys
  {
    if a != map[] {
      var t :| t in a;
      SumWithout(a, f, t);
      SumWithout(b, f, t);
      SumPointwise(a - {t}, b - {t}, f);
    }
  }

  /** No share grows from `a` to `b`, and those of `ts` shrink. */
  ghost predicate Shrinks(a: Rows, b: Rows, f: Row -> int, ts: set<string>) {
    && (forall t :: Share(At(b, t), f) <= Share(At(a, t), f))
    && (forall t | t in ts :: Share(At(b, t), f) < Share(At(a, t), f))
  }

  lemma ShrinksWithout(a: Rows, b: Rows, f: Row -> int, ts: set<string>, t: string)
    requires Shrinks(a, b, f, ts)
    ensures Shrinks(a - {t}, b - {t}, f, ts - {t})
  {
    forall u ensures At(a - {t}, u) == (if u == t then None else At(a, u)) {
    }
    forall u ensures At(b - {t}, u) == (if u == t then None else At(b, u)) {
    }
  }

  lemma OnlyStoredShrink(a: Rows, b: Rows, f: Row -> int, ts: set<string>)
    requires Shrinks(a, b, f, ts)
    ensures ts <= a.Keys + b.Keys
  {
    forall t | t in ts ensures t in a.Keys + b.Keys {
      assert At(a, t) != At(b, t);
    }
  }

  /** Then the sum shrinks by at least the number of those. */
  lemma {:induction false} SumShrinks(a: Rows, b: Rows, f: Row -> int, ts: set<string>)
    requires Shrinks(a, b, f, ts)
    ensures Sum(b, f) <= Sum(a, f) - |ts|
    decreases a.Keys + b.Keys
  {
    OnlyStoredShrink(a, b, f, ts);
    if a.Keys + b.Keys == {} {
      assert ts == {};
    } else {
      var t :| t in a.Keys + b.Keys;
      SumPut(a, f, t, None);
      SumPut(b, f, t, None);
      ShrinksWithout(a, b, f, ts, t);
      SumShrinks(a - {t}, b - {t}, f, ts - {t});
      assert |ts| <= |ts - {t}| + 1 && (t !in ts ==> ts - {t} == ts);
      assert Share(At(b, t), f) <= Share(At(a, t), f);
    }
  }

  /** `paid_amount` of `order_stats`: the money of the orders with status 1. */
  function PaidPart(row: Row): int {
    if row.status == PAID then row.Money() else 0
  }

  ghost function PaidAmount(rows: Rows): int {
    Sum(rows, PaidPart)
  }

  /** The retry attempts that a paid order has left. */
  function AttemptsLeft(row: Row): int {
    if row.status == PAID && row.notify < MAX_ATTEMPTS then MAX_ATTEMPTS - row.notify else 0
  }
}
