/** The payment callbacks (src/web.rs): what they check before they mark an order paid. */
module Callbacks {
  import opened Wrappers
  import opened Text
  import opened Money
  import opened SortedMap
  import opened SignContent
  import opened Form
  import opened Orders
  import opened Channels
  import opened RunInvariants
  import opened OrderStore
  import opened Notification
  import WxpayV2

  datatype AlipayKeys = AlipayKeys(rsa2: bool, appkey: string)

  datatype V3Keys = V3Keys(platformKey: Option<string>, publicKeyId: Option<string>, secret: string)

  /** The fields that a decrypted WeChat v3 notification may have. */
  datatype V3Data = V3Data(outTradeNo: Option<string>, tradeState: Option<string>, total: Option<int>,
                           transactionId: Option<string>, openid: Option<string>)

  datatype V3Request = V3Request(serial: string, timestamp: string, nonce: string, body: string, signature: string,
                                 resource: string)

  /** The channels, the configuration readers and the cryptography, all of it taken as given functions. */
  datatype World = World(env: Env, channels: seq<Channel>, lossy: string -> string,
                         alipayKeys: string -> Option<AlipayKeys>, wxpayKey: string -> Option<string>,
                         v3Keys: string -> Option<V3Keys>,
                         rsaVerify: (bool, string, string, string) -> bool,
                         md5HexUpper: string -> string,
                         decrypt: (string, string) -> Option<V3Data>)

  function FieldOr(m: Params, k: string, default: string): string {
    if k in m then m[k] else default
  }

  function FieldOf(m: Params, k: string): Option<string> {
    if k in m then Some(m[k]) else None
  }

  /** Whether the payment transaction commits, and whether the merchant's server acknowledges the notification. A
      transaction that fails counts as a payment that was not won, and the provider is told of success all the same. */
  datatype Fate = Fate(commits: bool, delivered: bool)

  /** The rows after a payment call, and after the notification that follows if the call won. */
  function AfterPayment(w: World, rows: Rows, op: Op, fate: Fate, at: int): Rows
    requires op.MarkPaid?
  {
    var paid := Apply(rows, op);
    if !fate.commits then
      rows
    else if AnswerTo(rows, op) == Flag(true) && paid[op.tradeNo].draft.uid in w.env.merchantKeys then
      Apply(paid, RecordAttempt(op.tradeNo, fate.delivered, at))
    else
      paid
  }

  /** The call wins an order whose merchant has a key. */
  predicate WinsKeyed(w: World, rows: Rows, t: string, fate: Fate) {
    fate.commits && t in rows && rows[t].status != 1 && rows[t].draft.uid in w.env.merchantKeys
  }

  /** The tail that all handlers share: mark the order paid and notify the merchant if this call won. */
  method PayAndNotify(store: Store, w: World, tradeNo: string, transaction: Option<string>, buyer: Option<string>,
                      fate: Fate) returns (sent: Option<string>)
    modifies store`rows
    ensures store.rows == AfterPayment(w, old(store.rows), MarkPaid(tradeNo, transaction, buyer, store.now),
                                       fate, store.now)
    ensures sent.Some? <==> WinsKeyed(w, old(store.rows), tradeNo, fate)
    ensures tradeNo in old(store.rows) ==>
      NotifiedIf(sent.Some?, old(store.rows), store.rows, tradeNo, fate.delivered, store.now)
  {
    PaymentNotifies(w, store.rows, MarkPaid(tradeNo, transaction, buyer, store.now), fate, store.now);
    if !fate.commits { return None; }
    var becamePaid := store.MarkPaid(tradeNo, transaction, buyer);
    if becamePaid == Flag(true) {
      sent := NotifyMerchant(store, w.env, tradeNo, fate.delivered, []);
    } else {
      sent := None;
    }
  }

  /** One attempt was recorded for the order, or nothing about its notification has changed. */
  predicate NotifiedIf(sent: bool, before: Rows, after: Rows, t: string, delivered: bool, now: int)
    requires t in before
  {
    && t in after
    && after[t].notify == (if !sent then before[t].notify else if delivered then 99 else before[t].notify + 1)
    && after[t].notifytime == if sent then Some(now) else before[t].notifytime
  }

  /** A win of an order whose merchant has a key is notified, with one recorded attempt; in every other case nothing is. */
  lemma PaymentNotifies(w: World, rows: Rows, op: Op, fate: Fate, at: int)
    requires op.MarkPaid?
    ensures op.tradeNo in rows ==>
      NotifiedIf(WinsKeyed(w, rows, op.tradeNo, fate), rows, AfterPayment(w, rows, op, fate, at), op.tradeNo,
                 fate.delivered, at)
    ensures op.tradeNo !in rows ==> AfterPayment(w, rows, op, fate, at) == rows
  {
  }

  /** A payment call leaves its order paid exactly if its transaction commits or the order was paid before. It keeps
      its money, and touches no other order. */
  lemma PaymentEffect(w: World, rows: Rows, op: Op, fate: Fate, at: int)
    requires op.MarkPaid? && op.tradeNo in rows
    ensures var after := AfterPayment(w, rows, op, fate, at);
            && op.tradeNo in after
            && (after[op.tradeNo].status == 1 <==> fate.commits || rows[op.tradeNo].status == 1)
            && after[op.tradeNo].draft == rows[op.tradeNo].draft
            && forall t | t != op.tradeNo :: At(after, t) == At(rows, t)
  {
  }

  /** A win stores the transaction and the buyer that the callback gives, each in its own column, and the time; what is
      not given stays. Without a win nothing of this changes. */
  lemma PaymentRecords(w: World, rows: Rows, op: Op, fate: Fate, at: int)
    requires op.MarkPaid? && op.tradeNo in rows
    ensures var row, after := rows[op.tradeNo], AfterPayment(w, rows, op, fate, at);
            var won := fate.commits && row.status != 1;
            && op.tradeNo in after
            && after[op.tradeNo].apiTradeNo == (if won && op.apiTradeNo.Some? then op.apiTradeNo else row.apiTradeNo)
            && after[op.tradeNo].buyer == (if won && op.buyer.Some? then op.buyer else row.buyer)
            && after[op.tradeNo].endtime == if won then Some(op.at) else row.endtime
  {
  }

  // ---- Alipay ----

  function AlipayVerified(w: World, keys: AlipayKeys, m: Params): bool {
    "sign" in m && w.rsaVerify(keys.rsa2, MerchantContent(m), m["sign"], keys.appkey)
  }

  /** The order and the parameters of a genuine Alipay callback: known order, readable channel, good signature. */
  function AlipayOrder(w: World, rows: Rows, body: string): Option<(string, Params)> {
    match ParsedParams(w.lossy, body)
    case Err(_) => None
    case Ok(m) =>
      if "out_trade_no" !in m || m["out_trade_no"] !in rows then None
      else
        match ChannelById(w.channels, rows[m["out_trade_no"]].channel)
        case None => None
        case Some(channel) =>
          match w.alipayKeys(channel.config)
          case None => None
          case Some(keys) => if AlipayVerified(w, keys, m) then Some((m["out_trade_no"], m)) else None
  }

  predicate AlipaySuccess(m: Params) {
    var status := FieldOr(m, "trade_status", "");
    status == "TRADE_SUCCESS" || status == "TRADE_FINISHED"
  }

  predicate AlipayPays(w: World, rows: Rows, body: string) {
    match AlipayOrder(w, rows, body)
    case None => false
    case Some((t, m)) =>
      t in rows && AlipaySuccess(m) && Supports(rows[t], AlipayText(FieldOr(m, "total_amount", "")))
  }

  /** The first half of `alipay_notify`, up to the signature. */
  method ReadAlipay(store: Store, w: World, body: string) returns (r: Option<(string, Params)>)
    ensures r == AlipayOrder(w, store.rows, body)
  {
    var parsed := ParseUniqueParams(w.lossy, body);
    if parsed.Err? { return None; }
    var params := parsed.value;
    if "out_trade_no" !in params { return None; }
    var ourTradeNo := params["out_trade_no"];
    if ourTradeNo !in store.rows { return None; }
    var order := store.rows[ourTradeNo];
    var channel := ChannelById(w.channels, order.channel);
    if channel.None? { return None; }
    var keys := w.alipayKeys(channel.value.config);
    if keys.None? { return None; }
    if !AlipayVerified(w, keys.value, params) { return None; }
    return Some((ourTradeNo, params));
  }

  /** `alipay_notify`; the answer `success` is true, `fail` is false. */
  method AlipayNotify(store: Store, w: World, body: string, fate: Fate) returns (success: bool)
    modifies store`rows
    ensures !AlipayPays(w, old(store.rows), body) ==> store.rows == old(store.rows)
    ensures AlipayPays(w, old(store.rows), body) ==>
      var (t, m) := AlipayOrder(w, old(store.rows), body).value;
      var buyer := Coalesce(FieldOf(m, "buyer_id"), FieldOf(m, "buyer_open_id"));
      store.rows == AfterPayment(w, old(store.rows), MarkPaid(t, FieldOf(m, "trade_no"), buyer, store.now),
                                 fate, store.now)
    ensures success <==>
      var order := AlipayOrder(w, old(store.rows), body);
      order.Some? && (AlipaySuccess(order.value.1) ==> AlipayPays(w, old(store.rows), body))
  {
    var genuine := ReadAlipay(store, w, body);
    if genuine.None? { return false; }
    var (ourTradeNo, params) := genuine.value;
    var order := store.rows[ourTradeNo];
    var totalAmount := FieldOr(params, "total_amount", "");
    if !AlipaySuccess(params) { return true; }
    if AmountsDiffer(totalAmount, order.ExpectedText()) { return false; }
    var buyer := Coalesce(FieldOf(params, "buyer_id"), FieldOf(params, "buyer_open_id"));
    var _ := PayAndNotify(store, w, ourTradeNo, FieldOf(params, "trade_no"), buyer, fate);
    return true;
  }

  lemma ExpectedIsMoney(channels: seq<Channel>, row: Row)
    requires RowOk(channels, row)
    ensures row.Expected() == row.Money()
  {
  }

  /** The body names the stored order `t`, and its fields `m` carry a signature that verifies under the keys of the order's
      channel. */
  ghost predicate AlipayGenuine(w: World, rows: Rows, body: string, t: string, m: Params) {
    && ParsedParams(w.lossy, body) == Ok(m)
    && "out_trade_no" in m && m["out_trade_no"] == t && t in rows && "sign" in m
    && exists c, keys :: FirstWithId(w.channels, rows[t].channel, c) && w.alipayKeys(c.config) == Some(keys)
         && w.rsaVerify(keys.rsa2, MerchantContent(m), m["sign"], keys.appkey)
  }

  lemma AlipayKeysAre(w: World, rows: Rows, t: string, m: Params)
    requires t in rows && "sign" in m
    ensures (exists c, keys :: FirstWithId(w.channels, rows[t].channel, c) && w.alipayKeys(c.config) == Some(keys)
               && w.rsaVerify(keys.rsa2, MerchantContent(m), m["sign"], keys.appkey))
       <==> var c := ChannelById(w.channels, rows[t].channel);
            && c.Some? && w.alipayKeys(c.value.config).Some?
            && var keys := w.alipayKeys(c.value.config).value;
               w.rsaVerify(keys.rsa2, MerchantContent(m), m["sign"], keys.appkey)
  {
    forall c ensures FirstWithId(w.channels, rows[t].channel, c) <==> ChannelById(w.channels, rows[t].channel) == Some(c) {
      ChannelByIdIs(w.channels, rows[t].channel, c);
    }
  }

  /** The callbacks that the handler takes for genuine are exactly the genuine ones. */
  lemma AlipayOrderIsGenuine(w: World, rows: Rows, body: string, t: string, m: Params)
    ensures AlipayOrder(w, rows, body) == Some((t, m)) <==> AlipayGenuine(w, rows, body, t, m)
  {
    if t in rows && "sign" in m { AlipayKeysAre(w, rows, t, m); }
  }

  /** The fields report success for an amount that denotes this money. */
  ghost predicate AlipayReports(m: Params, money: Amount) {
    && "trade_status" in m && (m["trade_status"] == "TRADE_SUCCESS" || m["trade_status"] == "TRADE_FINISHED")
    && "total_amount" in m
    && exists whole, frac :: Spells(m["total_amount"], whole, frac) && Denotes(whole, frac) == money
  }

  /** A genuine success callback whose amount is a spelling of the fen that the merchant submitted. */
  ghost predicate AlipayNamesMoney(w: World, rows: Rows, body: string) {
    exists t, m :: AlipayGenuine(w, rows, body, t, m) && AlipayReports(m, rows[t].Money())
  }

  lemma AlipayReportsMoney(row: Row, m: Params)
    requires row.Expected() == row.Money()
    ensures AlipaySuccess(m) && Supports(row, AlipayText(FieldOr(m, "total_amount", "")))
       <==> AlipayReports(m, row.Money())
  {
    AgreesWithPrinted(FieldOr(m, "total_amount", ""), row.Money());
  }

  /** Sound and complete: the Alipay handler pays exactly on callbacks that are signed with the keys of their order's
      channel, report success, and spell the fen that the merchant submitted. */
  lemma AlipayPaysExactly(w: World, rows: Rows, body: string)
    requires RowsOk(w.channels, rows)
    ensures AlipayPays(w, rows, body) <==> AlipayNamesMoney(w, rows, body)
  {
    forall t, m ensures AlipayOrder(w, rows, body) == Some((t, m)) <==> AlipayGenuine(w, rows, body, t, m) {
      AlipayOrderIsGenuine(w, rows, body, t, m);
    }
    match AlipayOrder(w, rows, body)
    case None =>
    case Some((t, m)) =>
      assert AlipayGenuine(w, rows, body, t, m);
      ExpectedIsMoney(w.channels, rows[t]);
      AlipayReportsMoney(rows[t], m);
  }

  /** What a winning Alipay callback stores. */
  lemma AlipayRecords(w: World, rows: Rows, t: string, m: Params, fate: Fate, at: int)
    requires t in rows && rows[t].status != 1 && fate.commits
    ensures var buyer := Coalesce(FieldOf(m, "buyer_id"), FieldOf(m, "buyer_open_id"));
            var after := AfterPayment(w, rows, MarkPaid(t, FieldOf(m, "trade_no"), buyer, at), fate, at);
            && t in after && after[t].status == 1 && after[t].endtime == Some(at)
            && after[t].apiTradeNo == (if "trade_no" in m then Some(m["trade_no"]) else rows[t].apiTradeNo)
            && after[t].buyer == if "buyer_id" in m then Some(m["buyer_id"])
                                 else if "buyer_open_id" in m then Some(m["buyer_open_id"]) else rows[t].buyer
  {
    var buyer := Coalesce(FieldOf(m, "buyer_id"), FieldOf(m, "buyer_open_id"));
    var op := MarkPaid(t, FieldOf(m, "trade_no"), buyer, at);
    PaymentEffect(w, rows, op, fate, at);
    PaymentRecords(w, rows, op, fate, at);
  }

  // ---- WeChat v2 ----

  datatype Ack = Ack(success: bool, message: string)

  /** The order, the parameters and the key of a WeChat v2 callback for a known order and channel. */
  function WxpayV2Order(w: World, rows: Rows, body: string): Option<(string, Params, string)> {
    var m := WxpayV2.ParseFrom(body, map[]);
    if "out_trade_no" !in m || m["out_trade_no"] !in rows then None
    else
      match ChannelById(w.channels, rows[m["out_trade_no"]].channel)
      case None => None
      case Some(channel) =>
        match w.wxpayKey(channel.config)
        case None => None
        case Some(key) => Some((m["out_trade_no"], m, key))
  }

  predicate WxpaySuccess(m: Params) {
    FieldOf(m, "return_code") == Some("SUCCESS") && FieldOf(m, "result_code") == Some("SUCCESS")
  }

  function TotalFee(m: Params): Option<int> {
    if "total_fee" in m then ParseI64(m["total_fee"]) else None
  }

  predicate WxpayV2Pays(w: World, rows: Rows, body: string) {
    match WxpayV2Order(w, rows, body)
    case None => false
    case Some((t, m, key)) =>
      t in rows && WxpaySuccess(m) && WxpayV2Fits(w, rows[t], m, key)
  }

  /** The signature is good, and the fee is what the order expects. */
  predicate WxpayV2Fits(w: World, row: Row, m: Params, key: string) {
    && WxpayV2.Verify(w.md5HexUpper, m, key)
    && TotalFee(m).Some? && Supports(row, WechatFen(TotalFee(m).value))
  }

  /** The first half of `wxpay_v2_notify`, up to the key of the channel. */
  method ReadWxpayV2(store: Store, w: World, text: string) returns (r: Result<(string, Params, string), string>)
    ensures match WxpayV2Order(w, store.rows, text)
            case None => r.Err?
            case Some(order) => r == Ok(order)
  {
    var params := WxpayV2.ParseFlatXml(text);
    if "out_trade_no" !in params { return Err("missing out_trade_no"); }
    var ourTradeNo := params["out_trade_no"];
    if ourTradeNo !in store.rows { return Err("order not found"); }
    var order := store.rows[ourTradeNo];
    var channel := ChannelById(w.channels, order.channel);
    if channel.None? { return Err("channel not found"); }
    var key := w.wxpayKey(channel.value.config);
    if key.None? { return Err("bad channel config"); }
    return Ok((ourTradeNo, params, key.value));
  }

  /** The second half of `wxpay_v2_notify`. */
  method SettleWxpayV2(store: Store, w: World, t: string, m: Params, key: string, fate: Fate) returns (ack: Ack)
    requires t in store.rows
    modifies store`rows
    ensures var pays := WxpaySuccess(m) && WxpayV2Fits(w, old(store.rows)[t], m, key);
            var op := MarkPaid(t, FieldOf(m, "transaction_id"), FieldOf(m, "openid"), store.now);
            store.rows == if pays then AfterPayment(w, old(store.rows), op, fate, store.now) else old(store.rows)
    ensures ack.success <==> (WxpaySuccess(m) ==> WxpayV2Fits(w, old(store.rows)[t], m, key))
  {
    var order := store.rows[t];
    if FieldOf(m, "return_code") != Some("SUCCESS") || FieldOf(m, "result_code") != Some("SUCCESS") {
      return Ack(true, "OK");
    }
    if !WxpayV2.Verify(w.md5HexUpper, m, key) { return Ack(false, "bad signature"); }
    var expectedFen := ParseYuanToFen(order.ExpectedText());
    var actualFen := TotalFee(m);
    if expectedFen.None? || expectedFen != actualFen { return Ack(false, "amount mismatch"); }
    var _ := PayAndNotify(store, w, t, FieldOf(m, "transaction_id"), FieldOf(m, "openid"), fate);
    return Ack(true, "OK");
  }

  /** `wxpay_v2_notify`; a body that is not UTF-8 is `None`. */
  method WxpayV2Notify(store: Store, w: World, body: Option<string>, fate: Fate) returns (ack: Ack)
    modifies store`rows
    ensures body.None? || !WxpayV2Pays(w, old(store.rows), body.value) ==> store.rows == old(store.rows)
    ensures body.Some? && WxpayV2Pays(w, old(store.rows), body.value) ==>
      var (t, m, _) := WxpayV2Order(w, old(store.rows), body.value).value;
      store.rows == AfterPayment(w, old(store.rows),
                                 MarkPaid(t, FieldOf(m, "transaction_id"), FieldOf(m, "openid"), store.now),
                                 fate, store.now)
    ensures ack.success <==>
      && body.Some?
      && var order := WxpayV2Order(w, old(store.rows), body.value);
         order.Some? && (WxpaySuccess(order.value.1) ==> WxpayV2Pays(w, old(store.rows), body.value))
  {
    if body.None? { return Ack(false, "bad body"); }
    var read := ReadWxpayV2(store, w, body.value);
    if read.Err? { return Ack(false, read.error); }
    var (ourTradeNo, params, key) := read.value;
    ack := SettleWxpayV2(store, w, ourTradeNo, params, key, fate);
  }

  /** The body names the stored order `t`, whose channel has this key. */
  ghost predicate WxpayV2Known(w: World, rows: Rows, body: string, t: string, m: Params, key: string) {
    && m == WxpayV2.ParseFrom(body, map[])
    && "out_trade_no" in m && m["out_trade_no"] == t && t in rows
    && exists c :: FirstWithId(w.channels, rows[t].channel, c) && w.wxpayKey(c.config) == Some(key)
  }

  /** The fields carry the digest of their own content and the key. */
  predicate WxpayV2Signed(w: World, m: Params, key: string) {
    && "sign" in m
    && w.md5HexUpper((if AlipayContent(m) == "" then "" else AlipayContent(m) + "&") + "key=" + key) == m["sign"]
  }

  predicate WxpayV2Reports(m: Params, money: Amount) {
    && "return_code" in m && m["return_code"] == "SUCCESS" && "result_code" in m && m["result_code"] == "SUCCESS"
    && "total_fee" in m && ParseI64(m["total_fee"]) == Some(money as int)
  }

  /** A signed success callback whose total fee reads as the fen that the merchant submitted. */
  ghost predicate WxpayV2NamesMoney(w: World, rows: Rows, body: string) {
    exists t, m, key :: WxpayV2Known(w, rows, body, t, m, key) && WxpayV2Signed(w, m, key)
                        && WxpayV2Reports(m, rows[t].Money())
  }

  lemma WxpayV2OrderIsKnown(w: World, rows: Rows, body: string, t: string, m: Params, key: string)
    ensures WxpayV2Order(w, rows, body) == Some((t, m, key)) <==> WxpayV2Known(w, rows, body, t, m, key)
  {
    if t in rows {
      forall c
        ensures FirstWithId(w.channels, rows[t].channel, c) <==> ChannelById(w.channels, rows[t].channel) == Some(c)
      {
        ChannelByIdIs(w.channels, rows[t].channel, c);
      }
    }
  }

  lemma VerifyIsSigned(w: World, m: Params, key: string)
    ensures WxpayV2.Verify(w.md5HexUpper, m, key) <==> WxpayV2Signed(w, m, key)
  {
    WxpayV2.BufferIs(m, key);
  }

  lemma FeeIsMoney(row: Row, m: Params)
    requires row.Expected() == row.Money()
    ensures TotalFee(m).Some? && Supports(row, WechatFen(TotalFee(m).value))
       <==> "total_fee" in m && ParseI64(m["total_fee"]) == Some(row.Money() as int)
  {
    if TotalFee(m).Some? { SupportsNamesExpected(row, WechatFen(TotalFee(m).value)); }
  }

  lemma SuccessIsReported(m: Params)
    ensures WxpaySuccess(m)
       <==> "return_code" in m && m["return_code"] == "SUCCESS" && "result_code" in m && m["result_code"] == "SUCCESS"
  {
  }

  lemma WxpayV2ReportsMoney(w: World, row: Row, m: Params, key: string)
    requires row.Expected() == row.Money()
    ensures WxpaySuccess(m) && WxpayV2Fits(w, row, m, key) <==> WxpayV2Signed(w, m, key) && WxpayV2Reports(m, row.Money())
  {
    VerifyIsSigned(w, m, key);
    FeeIsMoney(row, m);
    SuccessIsReported(m);
  }

  /** Sound and complete: the WeChat v2 handler pays exactly on callbacks that are signed with the key of their order's
      channel, report success, and whose total fee reads as the fen that the merchant submitted. */
  lemma WxpayV2PaysExactly(w: World, rows: Rows, body: string)
    requires RowsOk(w.channels, rows)
    ensures WxpayV2Pays(w, rows, body) <==> WxpayV2NamesMoney(w, rows, body)
  {
    forall t, m, key
      ensures WxpayV2Order(w, rows, body) == Some((t, m, key)) <==> WxpayV2Known(w, rows, body, t, m, key)
    {
      WxpayV2OrderIsKnown(w, rows, body, t, m, key);
    }
    match WxpayV2Order(w, rows, body)
    case None =>
    case Some((t, m, key)) =>
      assert WxpayV2Known(w, rows, body, t, m, key);
      ExpectedIsMoney(w.channels, rows[t]);
      WxpayV2ReportsMoney(w, rows[t], m, key);
  }

  // ---- WeChat v3 ----

  /** `verify_platform_signature`: gated on the configured key id, then one signature check. */
  predicate PlatformVerified(w: World, keys: V3Keys, req: V3Request) {
    && keys.platformKey.Some? && keys.publicKeyId == Some(req.serial)
    && w.rsaVerify(true, req.timestamp + "\n" + req.nonce + "\n" + req.body + "\n", req.signature,
                   keys.platformKey.value)
  }

  predicate IsV3Channel(c: Channel) {
    c.plugin == "wxpayn" || c.plugin == "wxpaynp"
  }

  datatype Verdict = Acknowledge(success: bool) | Pay(tradeNo: string, transaction: Option<string>, openid: Option<string>)

  /** What one channel decides about a notification; `None` means that the scan goes on. */
  function VerdictOf(w: World, rows: Rows, req: V3Request, c: Channel): Option<Verdict> {
    if !IsV3Channel(c) then None
    else
      match w.v3Keys(c.config)
      case None => None
      case Some(keys) =>
        if !PlatformVerified(w, keys, req) then None
        else
          match w.decrypt(keys.secret, req.resource)
          case None => None
          case Some(data) =>
            if data.outTradeNo.None? || data.outTradeNo.value !in rows then None
            else if rows[data.outTradeNo.value].channel != c.id then None
            else if data.tradeState != Some("SUCCESS") then Some(Acknowledge(true))
            else if data.total.None? || !Supports(rows[data.outTradeNo.value], WechatFen(data.total.value)) then
              Some(Acknowledge(false))
            else Some(Pay(data.outTradeNo.value, data.transactionId, data.openid))
  }

  function Scan(w: World, rows: Rows, req: V3Request, channels: seq<Channel>): Verdict {
    if channels == [] then Acknowledge(false)
    else
      match VerdictOf(w, rows, req, channels[0])
      case Some(v) => v
      case None => Scan(w, rows, req, channels[1..])
  }

  /** `wxpay_v3_notify`; a body or an envelope that cannot be read is `None`. */
  method WxpayV3Notify(store: Store, w: World, request: Option<V3Request>, fate: Fate) returns (success: bool)
    modifies store`rows
    ensures request.None? ==> !success && store.rows == old(store.rows)
    ensures request.Some? ==>
      match Scan(w, old(store.rows), request.value, w.channels)
      case Acknowledge(ok) => success == ok && store.rows == old(store.rows)
      case Pay(t, transaction, openid) =>
        success && store.rows == AfterPayment(w, old(store.rows), MarkPaid(t, transaction, openid, store.now),
                                              fate, store.now)
  {
    if request.None? { return false; }
    var req := request.value;
    var i := 0;
    while i < |w.channels|
      invariant 0 <= i <= |w.channels|
      invariant store.rows == old(store.rows)
      invariant Scan(w, store.rows, req, w.channels[i..]) == Scan(w, store.rows, req, w.channels)
    {
      var channel := w.channels[i];
      i := i + 1;
      if !IsV3Channel(channel) { continue; }
      var keys := w.v3Keys(channel.config);
      if keys.None? { continue; }
      if !PlatformVerified(w, keys.value, req) { continue; }
      var data := w.decrypt(keys.value.secret, req.resource);
      if data.None? || data.value.outTradeNo.None? { continue; }
      var ourTradeNo := data.value.outTradeNo.value;
      if ourTradeNo !in store.rows { continue; }
      var order := store.rows[ourTradeNo];
      if order.channel != channel.id { continue; }
      if data.value.tradeState != Some("SUCCESS") { return true; }
      var expectedFen := ParseYuanToFen(order.ExpectedText());
      var actualFen := data.value.total;
      if expectedFen.None? || expectedFen != actualFen { return false; }
      var _ := PayAndNotify(store, w, ourTradeNo, data.value.transactionId, data.value.openid, fate);
      return true;
    }
    return false;
  }

  /** No two of the readable WeChat v3 channels are configured with the same key id. */
  ghost predicate DistinctKeyIds(w: World, channels: seq<Channel>) {
    forall i, j | 0 <= i < j < |channels| && IsV3Channel(channels[i]) && IsV3Channel(channels[j])
               && w.v3Keys(channels[i].config).Some? && w.v3Keys(channels[j].config).Some?
               && w.v3Keys(channels[i].config).value.publicKeyId.Some? ::
      w.v3Keys(channels[i].config).value.publicKeyId != w.v3Keys(channels[j].config).value.publicKeyId
  }

  lemma {:induction false} ScanFinds(w: World, rows: Rows, req: V3Request, channels: seq<Channel>, c: Channel)
    requires c in channels && VerdictOf(w, rows, req, c).Some?
    requires forall d | d in channels && VerdictOf(w, rows, req, d).Some? :: d == c
    ensures Scan(w, rows, req, channels) == VerdictOf(w, rows, req, c).value
  {
    if channels[0] != c {
      assert channels[0] in channels;
      ScanFinds(w, rows, req, channels[1..], c);
    }
  }

  lemma {:induction false} ScanFindsNone(w: World, rows: Rows, req: V3Request, channels: seq<Channel>)
    requires forall d | d in channels :: VerdictOf(w, rows, req, d).None?
    ensures Scan(w, rows, req, channels) == Acknowledge(false)
  {
    if channels != [] {
      assert channels[0] in channels;
      ScanFindsNone(w, rows, req, channels[1..]);
    }
  }

  lemma OneVerdict(w: World, rows: Rows, req: V3Request, channels: seq<Channel>, c: Channel, d: Channel)
    requires DistinctKeyIds(w, channels) && c in channels && d in channels
    requires VerdictOf(w, rows, req, c).Some? && VerdictOf(w, rows, req, d).Some?
    ensures c == d
  {
    var i :| 0 <= i < |channels| && channels[i] == c;
    var j :| 0 <= j < |channels| && channels[j] == d;
    assert w.v3Keys(c.config).value.publicKeyId == Some(req.serial) == w.v3Keys(d.config).value.publicKeyId;
    assert i == j;
  }

  /** With pairwise distinct key ids the order of the channels does not matter: any permutation gives the same
      verdict, and it is the verdict of the one matching channel alone. */
  lemma ScanOrderIndependent(w: World, rows: Rows, req: V3Request, channels: seq<Channel>, others: seq<Channel>)
    requires DistinctKeyIds(w, channels) && multiset(channels) == multiset(others)
    ensures Scan(w, rows, req, others) == Scan(w, rows, req, channels)
    ensures forall c | c in channels && VerdictOf(w, rows, req, c).Some? ::
              Scan(w, rows, req, channels) == Scan(w, rows, req, [c])
  {
    SameMembers(channels, others);
    if exists c :: c in channels && VerdictOf(w, rows, req, c).Some? {
      var c :| c in channels && VerdictOf(w, rows, req, c).Some?;
      forall d | d in channels && VerdictOf(w, rows, req, d).Some? ensures d == c {
        OneVerdict(w, rows, req, channels, d, c);
      }
      ScanFinds(w, rows, req, channels, c);
      ScanFinds(w, rows, req, others, c);
      ScanFinds(w, rows, req, [c], c);
    } else {
      ScanFindsNone(w, rows, req, channels);
      ScanFindsNone(w, rows, req, others);
    }
  }

  lemma SameMembers(channels: seq<Channel>, others: seq<Channel>)
    requires multiset(channels) == multiset(others)
    ensures forall c :: c in channels <==> c in others
  {
    forall c ensures c in channels <==> c in others {
      assert c in channels <==> c in multiset(channels);
      assert c in others <==> c in multiset(others);
    }
  }

  /** The notification was signed with the platform key of this WeChat v3 channel, and names its key id. */
  predicate V3Signed(w: World, req: V3Request, c: Channel, keys: V3Keys) {
    && (c.plugin == "wxpayn" || c.plugin == "wxpaynp") && w.v3Keys(c.config) == Some(keys)
    && keys.publicKeyId == Some(req.serial) && keys.platformKey.Some?
    && w.rsaVerify(true, req.timestamp + "\n" + req.nonce + "\n" + req.body + "\n", req.signature,
                   keys.platformKey.value)
  }

  /** The channel verified and decrypted the notification, which reports the payment of an order of this channel for
      exactly its money. */
  ghost predicate V3NamesMoney(w: World, rows: Rows, req: V3Request, c: Channel, t: string, x: Option<string>,
                               o: Option<string>)
  {
    exists keys, data ::
      && V3Signed(w, req, c, keys) && w.decrypt(keys.secret, req.resource) == Some(data)
      && data.outTradeNo == Some(t) && t in rows && rows[t].channel == c.id
      && data.tradeState == Some("SUCCESS") && data.total == Some(rows[t].Money() as int)
      && data.transactionId == x && data.openid == o
  }

  /** What the channel reads in the notification, if it verified and decrypted it. */
  function Opened(w: World, req: V3Request, c: Channel): Option<V3Data> {
    var keys := w.v3Keys(c.config);
    if IsV3Channel(c) && keys.Some? && PlatformVerified(w, keys.value, req) then w.decrypt(keys.value.secret, req.resource)
    else None
  }

  lemma OpenedIsSigned(w: World, req: V3Request, c: Channel, data: V3Data)
    ensures Opened(w, req, c) == Some(data)
       <==> exists keys :: V3Signed(w, req, c, keys) && w.decrypt(keys.secret, req.resource) == Some(data)
  {
    forall keys
      ensures V3Signed(w, req, c, keys)
         <==> IsV3Channel(c) && w.v3Keys(c.config) == Some(keys) && PlatformVerified(w, keys, req)
    {
    }
    if Opened(w, req, c).Some? { assert V3Signed(w, req, c, w.v3Keys(c.config).value); }
  }

  lemma VerdictOfOpened(w: World, rows: Rows, req: V3Request, c: Channel, t: string, x: Option<string>, o: Option<string>)
    ensures VerdictOf(w, rows, req, c) == Some(Pay(t, x, o))
       <==> && Opened(w, req, c).Some?
            && var data := Opened(w, req, c).value;
               && data.outTradeNo == Some(t) && t in rows && rows[t].channel == c.id && data.tradeState == Some("SUCCESS")
               && data.total.Some? && Supports(rows[t], WechatFen(data.total.value))
               && data.transactionId == x && data.openid == o
  {
  }

  /** One channel decides for payment exactly on the notifications that name the money of its own order. */
  lemma V3PaysExactly(w: World, rows: Rows, req: V3Request, c: Channel, t: string, x: Option<string>, o: Option<string>)
    requires RowsOk(w.channels, rows)
    ensures VerdictOf(w, rows, req, c) == Some(Pay(t, x, o)) <==> V3NamesMoney(w, rows, req, c, t, x, o)
  {
    VerdictOfOpened(w, rows, req, c, t, x, o);
    forall data
      ensures Opened(w, req, c) == Some(data)
         <==> exists keys :: V3Signed(w, req, c, keys) && w.decrypt(keys.secret, req.resource) == Some(data)
    {
      OpenedIsSigned(w, req, c, data);
    }
    if t in rows && Opened(w, req, c).Some? && Opened(w, req, c).value.total.Some? {
      ExpectedIsMoney(w.channels, rows[t]);
      SupportsNamesExpected(rows[t], WechatFen(Opened(w, req, c).value.total.value));
    }
  }

  /** One channel answers without paying exactly on notifications that it verified and decrypted, of an order of its own:
      success if they do not report a payment, failure if they report one of another amount. */
  lemma V3Acknowledges(w: World, rows: Rows, req: V3Request, c: Channel, ok: bool)
    requires RowsOk(w.channels, rows)
    ensures VerdictOf(w, rows, req, c) == Some(Acknowledge(ok))
       <==> exists keys, data ::
              && V3Signed(w, req, c, keys) && w.decrypt(keys.secret, req.resource) == Some(data)
              && data.outTradeNo.Some? && data.outTradeNo.value in rows && rows[data.outTradeNo.value].channel == c.id
              && (ok <==> data.tradeState != Some("SUCCESS"))
              && (!ok ==> data.total != Some(rows[data.outTradeNo.value].Money() as int))
  {
    forall data
      ensures Opened(w, req, c) == Some(data)
         <==> exists keys :: V3Signed(w, req, c, keys) && w.decrypt(keys.secret, req.resource) == Some(data)
    {
      OpenedIsSigned(w, req, c, data);
    }
    VerdictAcknowledges(w, rows, req, c, ok);
  }

  lemma VerdictAcknowledges(w: World, rows: Rows, req: V3Request, c: Channel, ok: bool)
    requires RowsOk(w.channels, rows)
    ensures VerdictOf(w, rows, req, c) == Some(Acknowledge(ok))
       <==> && Opened(w, req, c).Some?
            && var data := Opened(w, req, c).value;
               && data.outTradeNo.Some? && data.outTradeNo.value in rows && rows[data.outTradeNo.value].channel == c.id
               && (ok <==> data.tradeState != Some("SUCCESS"))
               && (!ok ==> data.total != Some(rows[data.outTradeNo.value].Money() as int))
  {
    if Opened(w, req, c).Some? {
      var data := Opened(w, req, c).value;
      if data.outTradeNo.Some? && data.outTradeNo.value in rows && data.total.Some? {
        ExpectedIsMoney(w.channels, rows[data.outTradeNo.value]);
        SupportsNamesExpected(rows[data.outTradeNo.value], WechatFen(data.total.value));
      }
    }
  }

  lemma {:induction false} ScanComesFrom(w: World, rows: Rows, req: V3Request, channels: seq<Channel>)
    ensures Scan(w, rows, req, channels).Pay? ==>
              exists c :: c in channels && VerdictOf(w, rows, req, c) == Some(Scan(w, rows, req, channels))
  {
    if channels != [] {
      ScanComesFrom(w, rows, req, channels[1..]);
      assert channels[0] in channels && forall c | c in channels[1..] :: c in channels;
    }
  }

  /** With distinct key ids the whole scan pays exactly what one of the channels would pay. */
  lemma V3ScanPaysExactly(w: World, rows: Rows, req: V3Request, t: string, x: Option<string>, o: Option<string>)
    requires RowsOk(w.channels, rows) && DistinctKeyIds(w, w.channels)
    ensures Scan(w, rows, req, w.channels) == Pay(t, x, o)
       <==> exists c :: c in w.channels && V3NamesMoney(w, rows, req, c, t, x, o)
  {
    ScanComesFrom(w, rows, req, w.channels);
    forall c | c in w.channels
      ensures VerdictOf(w, rows, req, c) == Some(Pay(t, x, o)) <==> V3NamesMoney(w, rows, req, c, t, x, o)
      ensures VerdictOf(w, rows, req, c).Some? ==> Scan(w, rows, req, w.channels) == VerdictOf(w, rows, req, c).value
    {
      V3PaysExactly(w, rows, req, c, t, x, o);
      if VerdictOf(w, rows, req, c).Some? { OnlyVerdict(w, rows, req, w.channels, c); }
    }
  }

  lemma OnlyVerdict(w: World, rows: Rows, req: V3Request, channels: seq<Channel>, c: Channel)
    requires DistinctKeyIds(w, channels) && c in channels && VerdictOf(w, rows, req, c).Some?
    ensures Scan(w, rows, req, channels) == VerdictOf(w, rows, req, c).value
  {
    forall d | d in channels && VerdictOf(w, rows, req, d).Some? ensures d == c {
      OneVerdict(w, rows, req, channels, d, c);
    }
    ScanFinds(w, rows, req, channels, c);
  }
}
