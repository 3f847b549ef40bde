/** The database access layer (src/store.rs), one statement or transaction per method. */
module OrderStore {
  import opened Wrappers
  import opened Text
  import opened Orders
  import opened Interleaving

  // ---- trade numbers ----

  /** The clock text `YYYYMMDDhhmmss` and the random suffix that one attempt draws. */
  datatype Draw = Draw(stamp: string, suffix: nat)

  ghost predicate IsDraw(d: Draw) {
    |d.stamp| == 14 && AllDigits(d.stamp) && 11111 <= d.suffix < 99999
  }

  function GenerateTradeNo(d: Draw): string {
    d.stamp + Decimal(d.suffix)
  }

  lemma FiveDigits(n: nat)
    requires 10000 <= n < 100000
    ensures |Decimal(n)| == 5
  {
    assert |Decimal(n / 10000)| == 1;
    assert n / 10 / 10 / 10 / 10 == n / 10000;
    assert |Decimal(n / 10 / 10 / 10)| == 2;
    assert |Decimal(n / 10 / 10)| == 3;
  }

  /** Trade numbers have nineteen digits, and different draws give different numbers. */
  lemma TradeNoShape(d: Draw, e: Draw)
    requires IsDraw(d) && IsDraw(e)
    ensures |GenerateTradeNo(d)| == 19 && AllDigits(GenerateTradeNo(d))
    ensures GenerateTradeNo(d) == GenerateTradeNo(e) <==> d == e
  {
    FiveDigits(d.suffix);
    FiveDigits(e.suffix);
    if GenerateTradeNo(d) == GenerateTradeNo(e) {
      assert d.stamp == GenerateTradeNo(d)[..14] && e.stamp == GenerateTradeNo(e)[..14];
      assert Decimal(d.suffix) == GenerateTradeNo(d)[14..] == GenerateTradeNo(e)[14..] == Decimal(e.suffix);
      ValueOfDecimal(d.suffix);
      ValueOfDecimal(e.suffix);
    }
  }

  function PendingKeys(rows: Rows, now: int): set<string> {
    set t | t in rows && Pending(rows[t], now)
  }

  function SmallerOf(a: nat, b: nat): nat {
    if a < b then a else b
  }

  class Store {
    var rows: Rows
    var now: int

    constructor ()
      ensures rows == map[]
    {
      rows := map[];
      now := 0;
    }

    /** `create_order`: at most five tries; a duplicate key is tried again with the next draw. */
    method CreateOrder(draft: Draft, draws: seq<Draw>) returns (r: Result<string, string>)
      requires |draws| == 5 && forall d | d in draws :: IsDraw(d)
      modifies this`rows
      ensures r.Ok? ==>
        && r.value !in old(rows) && |r.value| == 19
        && (exists i | 0 <= i < 5 :: r.value == GenerateTradeNo(draws[i])
              && forall j | 0 <= j < i :: GenerateTradeNo(draws[j]) in old(rows))
        && rows == old(rows)[r.value := NewRow(draft, now)]
      ensures r.Err? ==>
        rows == old(rows) && forall i | 0 <= i < 5 :: GenerateTradeNo(draws[i]) in old(rows)
    {
      for i := 0 to TRIES
        invariant rows == old(rows)
        invariant forall j | 0 <= j < i :: GenerateTradeNo(draws[j]) in rows
      {
        var tradeNo := GenerateTradeNo(draws[i]);
        if tradeNo !in rows {
          TradeNoShape(draws[i], draws[i]);
          rows := rows[tradeNo := NewRow(draft, now)];
          return Ok(tradeNo);
        }
      }
      return Err("failed to allocate unique trade_no");
    }

    /** `find_existing_order`: any one order of the merchant with this number. */
    method FindExistingOrder(uid: nat, outTradeNo: string) returns (r: Option<string>)
      ensures r.Some? ==> r.value in rows && IsOrderOf(rows[r.value], uid, outTradeNo)
      ensures r.None? ==> forall t | t in rows :: !IsOrderOf(rows[t], uid, outTradeNo)
    {
      var left := rows.Keys;
      while left != {}
        invariant left <= rows.Keys
        invariant forall t | t in rows && t !in left :: !IsOrderOf(rows[t], uid, outTradeNo)
      {
        var t :| t in left;
        if IsOrderOf(rows[t], uid, outTradeNo) {
          return Some(t);
        }
        left := left - {t};
      }
      return None;
    }

    /** `set_channel`. */
    method SetChannel(tradeNo: string, typeId: nat, channelId: nat, amount: Amount)
      modifies this`rows
      ensures rows == Apply(old(rows), Op.SetChannel(tradeNo, typeId, channelId, amount))
    {
      if tradeNo in rows {
        rows := rows[tradeNo := rows[tradeNo].(typeId := typeId, channel := channelId,
                                               realmoney := Some(amount), getmoney := Some(amount))];
      }
    }

    /** `mark_paid`: lock and read the row, leave a paid order alone, and otherwise write it and commit. */
    method MarkPaid(tradeNo: string, apiTradeNo: Option<string>, buyer: Option<string>) returns (r: Answer)
      modifies this`rows
      ensures rows == Apply(old(rows), Op.MarkPaid(tradeNo, apiTradeNo, buyer, now))
      ensures r == AnswerTo(old(rows), Op.MarkPaid(tradeNo, apiTradeNo, buyer, now))
    {
      if tradeNo !in rows {
        return NotFound;
      }
      var row := rows[tradeNo];
      var status := row.status;
      if status == PAID {
        return Flag(false);
      }
      row := row.(status := PAID, endtime := Some(now),
                  apiTradeNo := Coalesce(apiTradeNo, row.apiTradeNo), buyer := Coalesce(buyer, row.buyer));
      rows := rows[tradeNo := row];
      return Flag(true);
    }

    /** `record_notify_attempt`. */
    method RecordNotifyAttempt(tradeNo: string, success: bool)
      modifies this`rows
      ensures rows == Apply(old(rows), RecordAttempt(tradeNo, success, now))
    {
      if tradeNo in rows {
        var row := rows[tradeNo];
        if success {
          rows := rows[tradeNo := row.(notify := DELIVERED, notifytime := Some(now))];
        } else {
          rows := rows[tradeNo := row.(notify := row.notify + 1, notifytime := Some(now))];
        }
      }
    }

    /** `pending_notifications`: any `limit` of the pending orders, or all of them if there are fewer. */
    method PendingNotifications(limit: nat) returns (orders: seq<string>)
      ensures NoRepeats(orders)
      ensures |orders| == SmallerOf(limit, |PendingKeys(rows, now)|)
      ensures forall t | t in orders :: t in PendingKeys(rows, now)
    {
      orders := [];
      var left := PendingKeys(rows, now);
      while left != {} && |orders| < limit
        invariant left <= PendingKeys(rows, now)
        invariant |orders| + |left| == |PendingKeys(rows, now)| && |orders| <= limit
        invariant NoRepeats(orders)
        invariant forall t | t in orders :: t in PendingKeys(rows, now) && t !in left
      {
        var t :| t in left;
        left := left - {t};
        orders := orders + [t];
      }
    }

    /** `expire_pending_orders`: closes the unpaid orders that are too old and counts them. */
    method ExpirePendingOrders(minutes: int) returns (r: Answer)
      modifies this`rows
      ensures rows == Apply(old(rows), Expire(minutes, now))
      ensures r == AnswerTo(old(rows), Expire(minutes, now))
    {
      var due := set t | t in rows && Expires(rows[t], minutes, now);
      rows := map t | t in rows :: if t in due then rows[t].(status := CLOSED) else rows[t];
      r := Count(|due|);
    }

    /** `order_set_refunded`. */
    method OrderSetRefunded(tradeNo: string, amount: Amount) returns (r: Answer)
      modifies this`rows
      ensures rows == Apply(old(rows), SetRefunded(tradeNo, amount))
      ensures r == AnswerTo(old(rows), SetRefunded(tradeNo, amount))
    {
      if tradeNo in rows && rows[tradeNo].status == PAID {
        rows := rows[tradeNo := rows[tradeNo].(status := REFUNDED, refundmoney := Some(amount))];
        return Flag(true);
      }
      return Flag(false);
    }

    /** `order_update_status`, the administrator's direct edit. */
    method OrderUpdateStatus(tradeNo: string, status: int) returns (r: Answer)
      modifies this`rows
      ensures rows == Apply(old(rows), UpdateStatus(tradeNo, status, now))
      ensures r == AnswerTo(old(rows), UpdateStatus(tradeNo, status, now))
    {
      if tradeNo !in rows {
        return Flag(false);
      }
      var row := rows[tradeNo];
      if status == PAID {
        row := row.(status := PAID, endtime := Coalesce(row.endtime, Some(now)),
                    notify := if row.notify >= MAX_ATTEMPTS then 0 else row.notify);
      } else {
        row := row.(status := status);
      }
      rows := rows[tradeNo := row];
      return Flag(true);
    }
  }
}

/** Merchant notification and its retry loop (src/web.rs). */
module Notification {
  import opened Wrappers
  import opened Text
  import opened Money
  import opened SortedMap
  import opened SignContent
  import opened Form
  import opened Orders
  import opened Interleaving
  import opened OrderStore

  /** Merchant keys, payment type names, and the digest of the merchant signature. */
  datatype Env = Env(merchantKeys: map<nat, string>, typeNames: map<nat, string>, md5Hex: string -> string)

  function TypeName(env: Env, typeId: nat): string {
    if typeId in env.typeNames then env.typeNames[typeId] else "alipay"
  }

  /** The fields of a merchant callback before signing. */
  function CallbackParams(tradeNo: string, row: Row, typeName: string): Params {
    var m := map["pid" := Decimal(row.draft.uid), "trade_no" := tradeNo, "out_trade_no" := row.draft.outTradeNo,
                 "type" := typeName, "name" := row.draft.name, "money" := FenToYuanString(row.Money()),
                 "trade_status" := "TRADE_SUCCESS"];
    if row.draft.param.Some? then m["param" := row.draft.param.value] else m
  }

  function SentParams(env: Env, tradeNo: string, row: Row): Params
    requires row.draft.uid in env.merchantKeys
  {
    SignedCallback(env.md5Hex, CallbackParams(tradeNo, row, TypeName(env, row.typeId)), env.merchantKeys[row.draft.uid])
  }

  function WithQuery(url: string, query: string): string {
    if '?' in url then url + "&" + query else url + "?" + query
  }

  /** `build_callback_url`; an order or a key that cannot be read leaves the address bare. */
  function BuildCallbackUrl(env: Env, rows: Rows, baseUrl: string, tradeNo: string): string {
    if tradeNo in rows && rows[tradeNo].draft.uid in env.merchantKeys then
      WithQuery(baseUrl, Query(SentParams(env, tradeNo, rows[tradeNo])))
    else baseUrl
  }

  /** `notify_merchant`: a missing order or key ends it before anything is sent or recorded.
      `delivered` is what the merchant's server answers, and `meanwhile` the statements that other handlers run
      until it does. */
  method NotifyMerchant(store: Store, env: Env, tradeNo: string, delivered: bool, meanwhile: seq<Op>)
      returns (sent: Option<string>)
    modifies store`rows
    ensures tradeNo in old(store.rows) && old(store.rows)[tradeNo].draft.uid in env.merchantKeys ==>
      && sent == Some(BuildCallbackUrl(env, old(store.rows), old(store.rows)[tradeNo].draft.notifyUrl, tradeNo))
      && store.rows == Apply(ApplyAll(old(store.rows), meanwhile), RecordAttempt(tradeNo, delivered, store.now))
    ensures !(tradeNo in old(store.rows) && old(store.rows)[tradeNo].draft.uid in env.merchantKeys) ==>
      sent == None && store.rows == old(store.rows)
  {
    if tradeNo !in store.rows {
      return None;
    }
    var order := store.rows[tradeNo];
    if order.draft.uid !in env.merchantKeys {
      return None;
    }
    var key := env.merchantKeys[order.draft.uid];
    var params := CallbackParams(tradeNo, order, TypeName(env, order.typeId));
    var sign := SignMd5(env.md5Hex, params, key);
    params := params["sign" := sign];
    params := params["sign_type" := "MD5"];
    var query := Query(params);
    var url := if '?' in order.draft.notifyUrl then order.draft.notifyUrl + "&" + query
               else order.draft.notifyUrl + "?" + query;
    store.rows := ApplyAll(store.rows, meanwhile);
    store.RecordNotifyAttempt(tradeNo, delivered);
    return Some(url);
  }

  ghost predicate IsAsciiText(s: string) {
    forall i | 0 <= i < |s| :: (s[i] as int) < 128
  }

  /** Lossy decoding leaves ASCII alone. */
  ghost predicate KeepsAscii(lossy: string -> string) {
    forall s | IsAsciiText(s) :: lossy(s) == s
  }

  /** The fields of the order that come from merchants are well-formed text. */
  ghost predicate OrderIsText(lossy: string -> string, tradeNo: string, row: Row, typeName: string) {
    && IsText(lossy, tradeNo) && IsText(lossy, typeName)
    && IsText(lossy, row.draft.outTradeNo) && IsText(lossy, row.draft.name)
    && (row.draft.param.Some? ==> IsText(lossy, row.draft.param.value))
  }

  lemma TextInsert(lossy: string -> string, m: Params, k: string, v: string)
    requires KeepsAscii(lossy) && AllText(lossy, m) && IsAsciiText(k) && (IsText(lossy, v) || IsAsciiText(v))
    ensures AllText(lossy, m[k := v])
  {
  }

  lemma PrintedIsAscii(n: nat, amount: Amount)
    ensures IsAsciiText(Decimal(n)) && IsAsciiText(FenToYuanString(amount))
  {
    assert AllDigits(Decimal(amount / 100)) && AllDigits(TwoDigits(amount % 100));
  }

  lemma CallbackKeysAreAscii()
    ensures IsAsciiText("pid") && IsAsciiText("trade_no") && IsAsciiText("out_trade_no") && IsAsciiText("type")
    ensures IsAsciiText("name") && IsAsciiText("money") && IsAsciiText("trade_status")
    ensures IsAsciiText("TRADE_SUCCESS") && IsAsciiText("param")
  {
  }

  lemma ParamsAreText(lossy: string -> string, tradeNo: string, row: Row, typeName: string)
    requires KeepsAscii(lossy) && OrderIsText(lossy, tradeNo, row, typeName)
    ensures AllText(lossy, CallbackParams(tradeNo, row, typeName))
  {
    PrintedIsAscii(row.draft.uid, row.Money());
    CallbackKeysAreAscii();
    var m: Params := map[];
    TextInsert(lossy, m, "pid", Decimal(row.draft.uid));
    m := m["pid" := Decimal(row.draft.uid)];
    TextInsert(lossy, m, "trade_no", tradeNo);
    m := m["trade_no" := tradeNo];
    TextInsert(lossy, m, "out_trade_no", row.draft.outTradeNo);
    m := m["out_trade_no" := row.draft.outTradeNo];
    TextInsert(lossy, m, "type", typeName);
    m := m["type" := typeName];
    TextInsert(lossy, m, "name", row.draft.name);
    m := m["name" := row.draft.name];
    TextInsert(lossy, m, "money", FenToYuanString(row.Money()));
    m := m["money" := FenToYuanString(row.Money())];
    TextInsert(lossy, m, "trade_status", "TRADE_SUCCESS");
    m := m["trade_status" := "TRADE_SUCCESS"];
    if row.draft.param.Some? {
      TextInsert(lossy, m, "param", row.draft.param.value);
    }
  }

  lemma SignedIsText(lossy: string -> string, md5Hex: string -> string, m: Params, key: string)
    requires KeepsAscii(lossy) && AllText(lossy, m) && IsAsciiText(SignMd5(md5Hex, m, key))
    ensures AllText(lossy, SignedCallback(md5Hex, m, key))
  {
    TextInsert(lossy, m, "sign", SignMd5(md5Hex, m, key));
    TextInsert(lossy, m["sign" := SignMd5(md5Hex, m, key)], "sign_type", "MD5");
  }

  /** Whatever order is notified or redirected, a merchant that parses the callback query recovers exactly the
      parameters that were sent, if they fit the limits, and the signature verifies with the merchant's key. */
  lemma OrderCallbackSurvives(lossy: string -> string, env: Env, tradeNo: string, row: Row)
    requires KeepsAscii(lossy) && forall s :: IsAsciiText(env.md5Hex(s))
    requires row.draft.uid in env.merchantKeys
    requires OrderIsText(lossy, tradeNo, row, TypeName(env, row.typeId))
    ensures var sent := SentParams(env, tradeNo, row);
            && (ParsedParams(lossy, Query(sent)) == Ok(sent) <==> FitsLimits(sent))
            && VerifyMd5(env.md5Hex, sent, env.merchantKeys[row.draft.uid], sent["sign"])
  {
    var params := CallbackParams(tradeNo, row, TypeName(env, row.typeId));
    var key := env.merchantKeys[row.draft.uid];
    ParamsAreText(lossy, tradeNo, row, TypeName(env, row.typeId));
    SignedIsText(lossy, env.md5Hex, params, key);
    SignedCallbackSurvives(lossy, env.md5Hex, params, key);
  }

  /** The amount a merchant reads in the callback is the stored one. */
  lemma CallbackMoney(env: Env, tradeNo: string, row: Row)
    requires row.draft.uid in env.merchantKeys
    ensures var sent := SentParams(env, tradeNo, row);
            "money" in sent && ParseYuanToFen(sent["money"]) == Some(row.Money() as int)
  {
    var params := CallbackParams(tradeNo, row, TypeName(env, row.typeId));
    assert params["money"] == FenToYuanString(row.Money());
    assert SentParams(env, tradeNo, row)["money"] == params["money"];
    ReadBackPrinted(row.Money());
  }

  // ---- the retry loop ----

  /** What one request of the retry loop meets: the statements of other handlers ahead of it and during it, the
      merchant's answer, and the time that passes. */
  datatype Meets = Meets(ahead: seq<Op>, during: seq<Op>, delivered: bool, pause: nat)

  /** One request that was made: for this order, recorded at this time if it is recorded. */
  datatype Visit = Visit(tradeNo: string, meets: Meets, at: int)

  predicate HasKey(rows: Rows, keys: set<nat>, t: string) {
    t in rows && rows[t].draft.uid in keys
  }

  /** The statements of one request: those of others, and one attempt if the order is still there and has a key. */
  function RequestOps(rows: Rows, keys: set<nat>, r: Visit): seq<Op> {
    if HasKey(ApplyAll(rows, r.meets.ahead), keys, r.tradeNo) then
      r.meets.ahead + (r.meets.during + [RecordAttempt(r.tradeNo, r.meets.delivered, r.at)])
    else
      r.meets.ahead
  }

  /** The table after the requests of a turn. */
  function TurnRows(before: Rows, keys: set<nat>, requests: seq<Visit>): Rows {
    if requests == [] then before
    else
      var rows := TurnRows(before, keys, requests[..|requests| - 1]);
      ApplyAll(rows, RequestOps(rows, keys, requests[|requests| - 1]))
  }

  lemma TurnSnoc(before: Rows, keys: set<nat>, requests: seq<Visit>, r: Visit)
    ensures TurnRows(before, keys, requests + [r])
         == ApplyAll(TurnRows(before, keys, requests), RequestOps(TurnRows(before, keys, requests), keys, r))
  {
    assert (requests + [r])[..|requests|] == requests;
  }

  lemma RequestApplies(rows: Rows, ahead: seq<Op>, during: seq<Op>, op: Op)
    ensures ApplyAll(rows, ahead + (during + [op])) == Apply(ApplyAll(ApplyAll(rows, ahead), during), op)
  {
    ApplyAllConcat(rows, ahead, during + [op]);
    assert (during + [op])[..|during|] == during;
  }

  /** One request of the retry loop. */
  method RetryOne(store: Store, env: Env, t: string, meets: Meets)
    modifies store
    ensures store.now == old(store.now) + meets.pause
    ensures store.rows == ApplyAll(old(store.rows),
                                   RequestOps(old(store.rows), env.merchantKeys.Keys, Visit(t, meets, store.now)))
  {
    ghost var before := store.rows;
    store.rows := ApplyAll(store.rows, meets.ahead);
    store.now := store.now + meets.pause;
    var _ := NotifyMerchant(store, env, t, meets.delivered, meets.during);
    RequestApplies(before, meets.ahead, meets.during, RecordAttempt(t, meets.delivered, store.now));
  }

  /** The requests are those for the selected orders, in order, with what each of them met. */
  ghost predicate AreRequests(requests: seq<Visit>, selected: seq<string>, turn: seq<Meets>, from: int, to: int) {
    && |requests| == |selected| <= |turn|
    && forall i | 0 <= i < |requests| ::
         requests[i].tradeNo == selected[i] && requests[i].meets == turn[i] && from <= requests[i].at <= to
  }

  lemma AreRequestsSnoc(requests: seq<Visit>, selected: seq<string>, turn: seq<Meets>, from: int, to: int, later: int,
                        i: nat)
    requires i < |selected| && i < |turn| && from <= to <= later && AreRequests(requests, selected[..i], turn, from, to)
    ensures AreRequests(requests + [Visit(selected[i], turn[i], later)], selected[..i + 1], turn, from, later)
  {
  }

  /** One turn of `retry_pending_notifications`. */
  method RetryTick(store: Store, env: Env, turn: seq<Meets>) returns (selected: seq<string>, ghost requests: seq<Visit>)
    requires |turn| >= 20
    modifies store
    ensures NoRepeats(selected) && |selected| == SmallerOf(20, |PendingKeys(old(store.rows), old(store.now))|)
    ensures forall t | t in selected :: t in PendingKeys(old(store.rows), old(store.now))
    ensures AreRequests(requests, selected, turn, old(store.now), store.now)
    ensures store.rows == TurnRows(old(store.rows), env.merchantKeys.Keys, requests)
  {
    ghost var before, start := store.rows, store.now;
    selected := store.PendingNotifications(BATCH);
    requests := [];
    for i := 0 to |selected|
      invariant start <= store.now && AreRequests(requests, selected[..i], turn, start, store.now)
      invariant store.rows == TurnRows(before, env.merchantKeys.Keys, requests)
    {
      ghost var now := store.now;
      RetryOne(store, env, selected[i], turn[i]);
      ghost var r := Visit(selected[i], turn[i], store.now);
      TurnSnoc(before, env.merchantKeys.Keys, requests, r);
      AreRequestsSnoc(requests, selected, turn, start, now, store.now, i);
      requests := requests + [r];
    }
    assert selected[..|selected|] == selected;
  }
}
