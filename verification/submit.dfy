/** Order submission (`submit` in src/web.rs) and the admin refund (`order_refund` in src/admin.rs). */
module Submission {
  import opened Wrappers
  import opened Text
  import opened Money
  import opened SortedMap
  import opened SignContent
  import opened Form
  import opened Orders
  import opened Channels
  import opened RunInvariants
  import opened OrderStore

  datatype Merchant = Merchant(key: string, status: int, pay: int, keytype: int)

  /** The enabled payment types by name, and the channels in the order of their ids. */
  datatype Directory = Directory(merchants: map<nat, Merchant>, types: map<string, nat>, channels: seq<Channel>,
                                 md5Hex: string -> string)

  datatype Response =
    | BadRequest
    | Forbidden
    | Conflict
    | Unavailable
    | ServerError
    | Dispatch(tradeNo: string, channel: Channel)

  /** A signed and well-formed submission. */
  datatype Request = Request(uid: nat, outTradeNo: string, name: string, money: string, fen: nat,
                             notifyUrl: string, returnUrl: string, param: Option<string>, payType: string)

  const U64_MAX := 0xFFFF_FFFF_FFFF_FFFF

  /** `str::parse::<u64>`. */
  function ParseU64(s: string): Option<nat> {
    var digits := if s != "" && s[0] == '+' then s[1..] else s;
    if digits == "" || !AllDigits(digits) || Value(digits) > U64_MAX then None else Some(Value(digits))
  }

  predicate IsOrderChar(c: char) {
    IsDigit(c) || 'A' <= c <= 'Z' || 'a' <= c <= 'z' || c == '.' || c == '_' || c == '-' || c == '|'
  }

  /** Digits, Latin letters, and the four marks, by their code points. */
  lemma OrderChars(c: char)
    ensures IsOrderChar(c)
       <==> var n := c as int; 48 <= n <= 57 || 65 <= n <= 90 || 97 <= n <= 122 || n == 46 || n == 95 || n == 45 || n == 124
  {
  }

  predicate IsOrderNumber(s: string) {
    |s| <= 150 && forall i | 0 <= i < |s| :: IsOrderChar(s[i])
  }

  const NAME_LIMIT := 127

  /** `truncate_utf8`. */
  function Truncate(s: string, limit: nat): string {
    if |s| <= limit then s else s[..limit]
  }

  predicate HasFields(m: Params) {
    && "pid" in m && "type" in m && "out_trade_no" in m && "notify_url" in m
    && "return_url" in m && "name" in m && "money" in m
  }

  /** The request has the fields of the parameters, with the name cut to 127 characters. */
  predicate Copies(q: Request, m: Params)
    requires HasFields(m)
  {
    && q.outTradeNo == m["out_trade_no"] && q.money == m["money"]
    && q.name == (if |m["name"]| <= 127 then m["name"] else m["name"][..127])
    && q.notifyUrl == m["notify_url"] && q.returnUrl == m["return_url"] && q.payType == m["type"]
    && q.param == if "param" in m then Some(m["param"]) else None
  }

  /** The checks of the order number and the amount. */
  function ReadFields(uid: nat, m: Params): (r: Result<Request, Response>)
    requires HasFields(m)
    ensures r.Ok? <==> IsOrderNumber(m["out_trade_no"]) && ParseYuanToFen(m["money"]).Some?
    ensures r.Ok? ==>
      && ParseYuanToFen(m["money"]) == Some(r.value.fen as int)
      && r.value.uid == uid && Copies(r.value, m)
  {
    if !IsOrderNumber(m["out_trade_no"]) then Err(BadRequest)
    else
      match ParseYuanToFen(m["money"])
      case None => Err(BadRequest)
      case Some(fen) =>
        PrintBackRead(m["money"]);
        Ok(Request(uid, m["out_trade_no"], Truncate(m["name"], NAME_LIMIT), m["money"], fen,
                   m["notify_url"], m["return_url"], if "param" in m then Some(m["param"]) else None,
                   m["type"]))
  }

  /** Everything that `submit` checks before it looks at the orders. */
  function ReadRequest(d: Directory, m: Params): (r: Result<Request, Response>)
    ensures r.Ok? ==> ParseYuanToFen(r.value.money) == Some(r.value.fen as int)
  {
    if !HasFields(m) || "sign" !in m then Err(BadRequest)
    else
      match ParseU64(m["pid"])
      case None => Err(BadRequest)
      case Some(uid) =>
        if uid !in d.merchants then Err(Forbidden)
        else
          var merchant := d.merchants[uid];
          if merchant.status == 0 || merchant.pay == 0 then Err(Forbidden)
          else if merchant.keytype == 1 then Err(Forbidden)
          else if !VerifyMd5(d.md5Hex, m, merchant.key, m["sign"]) then Err(Forbidden)
          else ReadFields(uid, m)
  }

  /** The fields of `m` make a submission of the active merchant `uid`, apart from its amount and signature. */
  predicate IsSubmissionOf(d: Directory, m: Params, uid: nat) {
    && HasFields(m)
    && ParseU64(m["pid"]) == Some(uid) && uid in d.merchants
    && d.merchants[uid].status != 0 && d.merchants[uid].pay != 0 && d.merchants[uid].keytype != 1
    && IsOrderNumber(m["out_trade_no"])
  }

  /** The request is read exactly if its amount is, and as the fen that the amount denotes. */
  ghost predicate ReadAs(d: Directory, n: Params, uid: nat, m: Params)
    requires HasFields(m)
  {
    match ReadRequest(d, n)
    case Ok(q) => q.uid == uid && Copies(q, m) && ParseYuanToFen(m["money"]) == Some(q.fen as int)
    case Err(_) => ParseYuanToFen(m["money"]) == None
  }

  lemma VerifiedIsRead(d: Directory, n: Params, uid: nat)
    requires IsSubmissionOf(d, n, uid) && "sign" in n && VerifyMd5(d.md5Hex, n, d.merchants[uid].key, n["sign"])
    ensures ReadAs(d, n, uid, n)
  {
    assert ReadRequest(d, n) == ReadFields(uid, n);
  }

  /** The maps agree on the fields of a submission. */
  predicate SameForSubmit(m: Params, n: Params)
    requires HasFields(m)
  {
    && HasFields(n)
    && n["pid"] == m["pid"] && n["type"] == m["type"] && n["out_trade_no"] == m["out_trade_no"]
    && n["notify_url"] == m["notify_url"] && n["return_url"] == m["return_url"] && n["name"] == m["name"]
    && n["money"] == m["money"] && ("param" in n <==> "param" in m) && ("param" in m ==> n["param"] == m["param"])
  }

  lemma SubmitFieldsStay(m: Params, n: Params)
    requires HasFields(m)
    requires forall k | k != "sign" && k != "sign_type" :: (k in n <==> k in m) && (k in m ==> n[k] == m[k])
    ensures SameForSubmit(m, n)
  {
    assert "name"[0] == 'n' && "type"[0] == 't' && "sign"[0] == 's';
  }

  lemma SameIsRead(d: Directory, m: Params, n: Params, uid: nat)
    requires IsSubmissionOf(d, m, uid) && SameForSubmit(m, n)
    ensures IsSubmissionOf(d, n, uid) && (ReadAs(d, n, uid, n) ==> ReadAs(d, n, uid, m))
  {
  }

  lemma SignedCopyIsRead(d: Directory, m: Params, n: Params, uid: nat)
    requires IsSubmissionOf(d, m, uid)
    requires forall k | k != "sign" && k != "sign_type" :: (k in n <==> k in m) && (k in m ==> n[k] == m[k])
    requires "sign" in n && VerifyMd5(d.md5Hex, n, d.merchants[uid].key, n["sign"])
    ensures ReadAs(d, n, uid, m)
  {
    SubmitFieldsStay(m, n);
    SameIsRead(d, m, n, uid);
    VerifiedIsRead(d, n, uid);
  }

  lemma SignatureFits(md5Hex: string -> string, m: Params, key: string)
    ensures var n := SignedCallback(md5Hex, m, key); "sign" in n && VerifyMd5(md5Hex, n, key, n["sign"])
    ensures var n := SignedCallback(md5Hex, m, key);
            forall k | k != "sign" && k != "sign_type" :: (k in n <==> k in m) && (k in m ==> n[k] == m[k])
  {
    SignatureFieldsIgnored(m, SignMd5(md5Hex, m, key), "MD5");
  }

  /** A merchant that signs its fields with its own key gets them read, unless the amount cannot be read. */
  lemma SignedSubmissionIsRead(d: Directory, m: Params, uid: nat)
    requires IsSubmissionOf(d, m, uid)
    ensures ReadAs(d, SignedCallback(d.md5Hex, m, d.merchants[uid].key), uid, m)
  {
    SignatureFits(d.md5Hex, m, d.merchants[uid].key);
    SignedCopyIsRead(d, m, SignedCallback(d.md5Hex, m, d.merchants[uid].key), uid);
  }

  /** Whatever is read was signed with the key of an active merchant: any other signature is refused. */
  lemma ReadMeansSigned(d: Directory, m: Params)
    requires ReadRequest(d, m).Ok?
    ensures var uid := ReadRequest(d, m).value.uid;
            IsSubmissionOf(d, m, uid) && "sign" in m && VerifyMd5(d.md5Hex, m, d.merchants[uid].key, m["sign"])
    ensures IsAmount(ReadRequest(d, m).value.money)
  {
    var money := ReadRequest(d, m).value.money;
    if !IsAmount(money) { ParseAcceptsOnlyAmounts(money); }
  }

  /** What the columns of pay_order can hold; the database refuses the rest. */
  predicate Storable(q: Request) {
    && q.fen < 10_000_000_000 && |q.name| <= 64 && |q.notifyUrl| <= 255 && |q.returnUrl| <= 255
    && (q.param.Some? ==> |q.param.value| <= 255)
  }

  function DraftOf(q: Request): Draft
    requires Storable(q)
  {
    Draft(q.uid, q.outTradeNo, q.name, q.fen, q.notifyUrl, q.returnUrl, q.param)
  }

  /** The comparison of a resubmission with the stored order; amounts are compared as text. */
  predicate SameParameters(row: Row, q: Request) {
    && FenToYuanString(row.Money()) == q.money && row.draft.name == q.name
    && row.draft.notifyUrl == q.notifyUrl && row.draft.returnUrl == q.returnUrl
  }

  /** `channel_for_type_name`: the first enabled channel of an enabled type. */
  function ChannelForType(d: Directory, name: string): Option<Channel> {
    if name in d.types then FirstEnabled(d.channels, d.types[name]) else None
  }

  function FirstEnabled(channels: seq<Channel>, typeId: nat): (r: Option<Channel>)
    ensures r.Some? ==> r.value in channels && r.value.typeId == typeId && r.value.enabled
    ensures r.None? ==> forall c | c in channels :: c.typeId != typeId || !c.enabled
  {
    if channels == [] then None
    else if channels[0].typeId == typeId && channels[0].enabled then Some(channels[0])
    else FirstEnabled(channels[1..], typeId)
  }

  /** The stored order has the amount and the other fields of the submission. */
  ghost predicate SameFields(row: Row, q: Request) {
    && row.Money() == q.fen && row.draft.name == q.name
    && row.draft.notifyUrl == q.notifyUrl && row.draft.returnUrl == q.returnUrl
  }

  ghost predicate HasOrder(rows: Rows, q: Request) {
    HasPair(rows, q.uid, q.outTradeNo)
  }

  // ---- what one submission does, with no other submission of the same pair in between ----

  /** Find or create: `t` is an unpaid order of the pair with the same parameters, or a fresh trade number. */
  ghost predicate Chosen(before: Rows, q: Request, t: string) {
    if t in before then
      IsOrderOf(before[t], q.uid, q.outTradeNo) && before[t].status <= UNPAID && SameParameters(before[t], q)
    else
      !HasOrder(before, q) && Storable(q) && |t| == 19
  }

  function WithChosen(before: Rows, q: Request, t: string, at: int): Rows
    requires t in before || Storable(q)
  {
    if t in before then before else before[t := NewRow(DraftOf(q), at)]
  }

  /** Choose a channel for the order and check its limits. */
  ghost predicate Finished(mid: Rows, d: Directory, q: Request, t: string, after: Rows, r: Response)
    requires q.fen < 10_000_000_000
  {
    match ChannelForType(d, q.payType)
    case None => r == Unavailable && after == mid
    case Some(c) =>
      if !WithinLimits(c, q.fen) then r == BadRequest && after == mid
      else r == Dispatch(t, c) && after == Apply(mid, SetChannel(t, c.typeId, c.id, q.fen))
  }

  ghost predicate Refused(before: Rows, q: Request, draws: seq<Draw>, r: Response) {
    || (r == Conflict && exists t :: t in before && IsOrderOf(before[t], q.uid, q.outTradeNo)
                                     && (before[t].status > UNPAID || !SameParameters(before[t], q)))
    || (r == ServerError && !HasOrder(before, q)
        && (!Storable(q) || forall x | x in draws :: GenerateTradeNo(x) in before))
  }

  /** `t` is the order that the submission goes on with. */
  ghost predicate Proceeds(before: Rows, d: Directory, q: Request, at: int, after: Rows, r: Response, t: string) {
    && q.fen < 10_000_000_000
    && Chosen(before, q, t) && Finished(WithChosen(before, q, t, at), d, q, t, after, r)
  }

  /** What a well-formed request does to the orders, and how it is answered. */
  ghost predicate Handled(before: Rows, d: Directory, q: Request, draws: seq<Draw>, at: int, after: Rows, r: Response) {
    || (Refused(before, q, draws, r) && after == before)
    || exists t :: Proceeds(before, d, q, at, after, r, t)
  }

  ghost predicate Submitted(before: Rows, d: Directory, m: Params, draws: seq<Draw>, at: int, after: Rows, r: Response) {
    match ReadRequest(d, m)
    case Err(e) => r == e && after == before
    case Ok(q) => Handled(before, d, q, draws, at, after, r)
  }

  /** `submit`. */
  method Submit(store: Store, d: Directory, m: Params, draws: seq<Draw>) returns (r: Response)
    requires |draws| == 5 && forall x | x in draws :: IsDraw(x)
    modifies store`rows
    ensures Submitted(old(store.rows), d, m, draws, store.now, store.rows, r)
  {
    var checked := ReadRequest(d, m);
    if checked.Err? { return checked.error; }
    r := HandleRequest(store, d, checked.value, draws);
  }

  /** The part of `submit` that works on the orders. */
  method HandleRequest(store: Store, d: Directory, q: Request, draws: seq<Draw>) returns (r: Response)
    requires |draws| == 5 && forall x | x in draws :: IsDraw(x)
    requires ParseYuanToFen(q.money) == Some(q.fen as int)
    modifies store`rows
    ensures Handled(old(store.rows), d, q, draws, store.now, store.rows, r)
  {
    var tradeNo: string;
    ghost var before, at := store.rows, store.now;
    var existing := store.FindExistingOrder(q.uid, q.outTradeNo);
    if existing.Some? {
      var order := store.rows[existing.value];
      if order.status > UNPAID { return Conflict; }
      if !SameParameters(order, q) { return Conflict; }
      SameText(order, q);
      tradeNo := existing.value;
    } else {
      if !Storable(q) { return ServerError; }
      var created := store.CreateOrder(DraftOf(q), draws);
      if created.Err? {
        assert forall x | x in draws :: GenerateTradeNo(x) in store.rows;
        return ServerError;
      }
      tradeNo := created.value;
    }
    assert Chosen(before, q, tradeNo) && store.rows == WithChosen(before, q, tradeNo, at);
    var channel := ChannelForType(d, q.payType);
    if channel.None? {
      r := Unavailable;
    } else if !WithinLimits(channel.value, q.fen) {
      r := BadRequest;
    } else {
      store.SetChannel(tradeNo, channel.value.typeId, channel.value.id, q.fen);
      r := Dispatch(tradeNo, channel.value);
    }
    assert Proceeds(before, d, q, at, store.rows, r, tradeNo);
  }

  /** Equal amount texts mean equal amounts. */
  lemma SameText(row: Row, q: Request)
    requires SameParameters(row, q) && ParseYuanToFen(q.money) == Some(q.fen as int)
    ensures SameFields(row, q)
  {
    ReadBackPrinted(row.Money());
  }

  /** Who passes on a merchant's signature passes on its fields: with a digest without collisions, a request that carries
      a signature made with the merchant's key is read only if it says what was signed, but for the signature fields. */
  lemma TamperedIsRefused(d: Directory, n: Params, m: Params)
    requires IsInjective(d.md5Hex) && SeparableForMerchant(m) && SeparableForMerchant(n)
    requires ReadRequest(d, n).Ok? && "sign" in n
    ensures n["sign"] == SignMd5(d.md5Hex, m, d.merchants[ReadRequest(d, n).value.uid].key) ==> SameForMerchant(m, n)
  {
    ReadMeansSigned(d, n);
    var key := d.merchants[ReadRequest(d, n).value.uid].key;
    MerchantSignatureBinds(d.md5Hex, m, key, n, key);
  }

  // ---- what submissions keep ----

  /** The order that a submission goes on with is an unpaid order of its pair with its fields. */
  lemma ChosenIsOrder(before: Rows, q: Request, t: string, at: int)
    requires Chosen(before, q, t) && ParseYuanToFen(q.money) == Some(q.fen as int)
    ensures var mid := WithChosen(before, q, t, at);
            t in mid && IsOrderOf(mid[t], q.uid, q.outTradeNo) && mid[t].status <= UNPAID && SameFields(mid[t], q)
  {
    if t in before { SameText(before[t], q); }
  }

  /** Nothing but the chosen order changes, and that one only in its channel and amounts. */
  lemma ProceedsChanges(before: Rows, d: Directory, q: Request, at: int, after: Rows, r: Response, t: string)
    requires Proceeds(before, d, q, at, after, r, t)
    ensures t in after && after.Keys == before.Keys + {t}
    ensures var mid := WithChosen(before, q, t, at);
            && (forall u | u in before && u != t :: after[u] == before[u])
            && after[t].draft == mid[t].draft && after[t].status == mid[t].status && after[t].notify == mid[t].notify
  {
  }

  lemma ProceedsOnlyAdds(before: Rows, d: Directory, q: Request, at: int, after: Rows, r: Response, t: string)
    requires Proceeds(before, d, q, at, after, r, t)
    ensures forall u | u in before :: u in after && after[u].draft == before[u].draft
                                      && after[u].status == before[u].status && after[u].notify == before[u].notify
    ensures forall u | u in before && !IsOrderOf(before[u], q.uid, q.outTradeNo) :: after[u] == before[u]
    ensures forall u | u in after && u !in before :: u == t && IsOrderOf(after[u], q.uid, q.outTradeNo) && |u| == 19
    ensures HasOrder(before, q) ==> t in before
  {
    ProceedsChanges(before, d, q, at, after, r, t);
  }

  /** A submission changes no order but the one it is about, and that one only in its channel and amounts; it adds
      at most one order, with a nineteen-character number, and only if the pair had none. */
  lemma SubmitOnlyAdds(before: Rows, d: Directory, q: Request, draws: seq<Draw>, at: int, after: Rows, r: Response)
    requires Handled(before, d, q, draws, at, after, r)
    ensures forall t | t in before :: t in after && after[t].draft == before[t].draft
                                      && after[t].status == before[t].status && after[t].notify == before[t].notify
    ensures forall t | t in before && !IsOrderOf(before[t], q.uid, q.outTradeNo) :: after[t] == before[t]
    ensures forall t | t in after && t !in before :: IsOrderOf(after[t], q.uid, q.outTradeNo) && |t| == 19
    ensures forall t, u | t in after && t !in before && u in after && u !in before :: t == u
    ensures HasOrder(before, q) ==> after.Keys == before.Keys
  {
    if !(Refused(before, q, draws, r) && after == before) {
      var t :| Proceeds(before, d, q, at, after, r, t);
      ProceedsOnlyAdds(before, d, q, at, after, r, t);
      ProceedsChanges(before, d, q, at, after, r, t);
    }
  }

  /** A new order says what was submitted, and is unpaid and not notified. */
  lemma NewOrderSays(before: Rows, d: Directory, q: Request, draws: seq<Draw>, at: int, after: Rows, r: Response, t: string)
    requires Handled(before, d, q, draws, at, after, r) && t in after && t !in before
    ensures var draft := after[t].draft;
            && draft.uid == q.uid && draft.outTradeNo == q.outTradeNo && draft.name == q.name && draft.money == q.fen
            && draft.notifyUrl == q.notifyUrl && draft.returnUrl == q.returnUrl && draft.param == q.param
    ensures after[t].status == 0 && after[t].notify == 0 && after[t].notifytime == None && after[t].addtime == at
    ensures after[t].endtime == None && after[t].apiTradeNo == None && after[t].buyer == None
    ensures after[t].refundmoney == None
  {
    if !(Refused(before, q, draws, r) && after == before) {
      var u :| Proceeds(before, d, q, at, after, r, u);
      ProceedsChanges(before, d, q, at, after, r, u);
    }
  }

  /** Submissions that do not interleave keep at most one order per merchant and order number. */
  lemma SubmitKeepsUnique(before: Rows, d: Directory, q: Request, draws: seq<Draw>, at: int, after: Rows, r: Response)
    requires Handled(before, d, q, draws, at, after, r) && AtMostOnePerPair(before)
    ensures AtMostOnePerPair(after)
  {
    SubmitOnlyAdds(before, d, q, draws, at, after, r);
    forall t, u | t in after && u in after && IsOrderOf(after[u], after[t].draft.uid, after[t].draft.outTradeNo)
      ensures t == u
    {
      if t in before && u in before {
        assert IsOrderOf(before[u], before[t].draft.uid, before[t].draft.outTradeNo);
      }
    }
  }

  /** Submissions keep the amount invariant, and what is sent on to a provider has a channel that suits it. */
  lemma SubmitKeepsAmounts(before: Rows, d: Directory, q: Request, draws: seq<Draw>, at: int, after: Rows, r: Response)
    requires Handled(before, d, q, draws, at, after, r) && RowsOk(d.channels, before)
    requires ParseYuanToFen(q.money) == Some(q.fen as int)
    ensures RowsOk(d.channels, after)
    ensures r.Dispatch? ==>
      && r.tradeNo in after && IsOrderOf(after[r.tradeNo], q.uid, q.outTradeNo) && SameFields(after[r.tradeNo], q)
      && after[r.tradeNo].status <= UNPAID
      && after[r.tradeNo].realmoney == Some(after[r.tradeNo].Money())
      && r.channel in d.channels && after[r.tradeNo].channel == r.channel.id && KeepsLimits(r.channel, q.fen)
  {
    if !(Refused(before, q, draws, r) && after == before) {
      var t :| Proceeds(before, d, q, at, after, r, t);
      var mid := WithChosen(before, q, t, at);
      ChosenIsOrder(before, q, t, at);
      ProceedsChanges(before, d, q, at, after, r, t);
      if r.Dispatch? { LimitsAreKept(r.channel, q.fen); }
      assert RowOk(d.channels, mid[t]);
      forall u | u in after ensures RowOk(d.channels, after[u]) {
        if u != t { assert after[u] == before[u]; }
      }
    }
  }

  lemma CanonicalIsSame(row: Row, q: Request)
    requires ParseYuanToFen(q.money) == Some(q.fen as int) && SameFields(row, q)
    ensures SameParameters(row, q) <==> Canonical(q.money)
  {
    PrintBackRead(q.money);
  }

  ghost predicate IsOnlyOrder(before: Rows, q: Request, t: string) {
    && t in before && IsOrderOf(before[t], q.uid, q.outTradeNo)
    && forall u | u in before && IsOrderOf(before[u], q.uid, q.outTradeNo) :: u == t
  }

  lemma UniqueIsOnly(before: Rows, q: Request, t: string)
    requires AtMostOnePerPair(before) && t in before && IsOrderOf(before[t], q.uid, q.outTradeNo)
    ensures IsOnlyOrder(before, q, t)
  {
    forall u | u in before && IsOrderOf(before[u], q.uid, q.outTradeNo) ensures u == t {
      assert IsOrderOf(before[u], before[t].draft.uid, before[t].draft.outTradeNo);
    }
  }

  lemma HandledAgain(before: Rows, d: Directory, q: Request, draws: seq<Draw>, at: int, after: Rows, r: Response,
                     t: string)
    requires Handled(before, d, q, draws, at, after, r)
    requires IsOnlyOrder(before, q, t) && before[t].status <= UNPAID
    ensures r == Conflict <==> !SameParameters(before[t], q)
    ensures after.Keys == before.Keys && (r.Dispatch? ==> r.tradeNo == t)
  {
    assert HasOrder(before, q);
    if !(Refused(before, q, draws, r) && after == before) {
      var u :| Proceeds(before, d, q, at, after, r, u);
      ProceedsChanges(before, d, q, at, after, r, u);
    }
  }

  /** An identical resubmission of an unpaid order reuses its trade number exactly when the amount is written in
      the canonical two-decimal form; in any other spelling it is refused as changed. */
  lemma ResubmissionReusesOrder(before: Rows, d: Directory, q: Request, draws: seq<Draw>, at: int, after: Rows,
                                r: Response, t: string)
    requires Handled(before, d, q, draws, at, after, r) && AtMostOnePerPair(before)
    requires ParseYuanToFen(q.money) == Some(q.fen as int)
    requires t in before && IsOrderOf(before[t], q.uid, q.outTradeNo) && before[t].status <= UNPAID
    requires SameFields(before[t], q)
    ensures r == Conflict <==> !Canonical(q.money)
    ensures after.Keys == before.Keys && (r.Dispatch? ==> r.tradeNo == t)
  {
    CanonicalIsSame(before[t], q);
    UniqueIsOnly(before, q, t);
    HandledAgain(before, d, q, draws, at, after, r, t);
  }

  /** A submission that goes on to a channel is answered that its amount is wrong exactly if a limit of the channel, as it
      is written, is broken; otherwise it is dispatched there. */
  lemma LimitsDecide(before: Rows, d: Directory, q: Request, draws: seq<Draw>, at: int, after: Rows, r: Response,
                     c: Channel)
    requires Handled(before, d, q, draws, at, after, r) && r != Conflict && r != ServerError
    requires ChannelForType(d, q.payType) == Some(c)
    ensures r == BadRequest <==> !KeepsLimits(c, q.fen)
    ensures r.Dispatch? <==> KeepsLimits(c, q.fen)
    ensures r.Dispatch? ==> r.channel == c && after[r.tradeNo].channel == c.id && after[r.tradeNo].typeId == c.typeId
  {
    LimitsAreKept(c, q.fen);
    var t :| Proceeds(before, d, q, at, after, r, t);
  }

  lemma {:induction false} FirstEnabledIs(channels: seq<Channel>, typeId: nat, c: Channel)
    ensures FirstEnabled(channels, typeId) == Some(c) <==> IsFirstFor(channels, typeId, c)
  {
    if channels != [] {
      var rest := channels[1..];
      FirstEnabledIs(rest, typeId, c);
      if channels[0].typeId == typeId && channels[0].enabled {
        assert IsFirstAt(channels, typeId, channels[0], 0);
      } else {
        if IsFirstFor(rest, typeId, c) {
          var k :| IsFirstAt(rest, typeId, c, k);
          assert forall j | 0 <= j < k + 1 :: j == 0 || channels[j] == rest[j - 1];
          assert IsFirstAt(channels, typeId, c, k + 1);
        }
        if IsFirstFor(channels, typeId, c) {
          var k :| IsFirstAt(channels, typeId, c, k);
          assert forall j | 0 <= j < k - 1 :: rest[j] == channels[j + 1];
          assert IsFirstAt(rest, typeId, c, k - 1);
        }
      }
    }
  }

  ghost predicate IsFirstAt(channels: seq<Channel>, typeId: nat, c: Channel, k: int) {
    && 0 <= k < |channels| && channels[k] == c && c.typeId == typeId && c.enabled
    && forall j | 0 <= j < k :: !(channels[j].typeId == typeId && channels[j].enabled)
  }

  ghost predicate IsFirstFor(channels: seq<Channel>, typeId: nat, c: Channel) {
    exists k :: IsFirstAt(channels, typeId, c, k)
  }

  /** The channel of a submission is the enabled one with the lowest id among those of the type that it names. */
  lemma ChannelIsLowest(d: Directory, name: string, c: Channel)
    requires forall i, j | 0 <= i < j < |d.channels| :: d.channels[i].id < d.channels[j].id
    ensures ChannelForType(d, name) == Some(c)
       <==> && name in d.types && c in d.channels && c.typeId == d.types[name] && c.enabled
            && forall e | e in d.channels && e.typeId == d.types[name] && e.enabled :: c.id <= e.id
  {
    if name in d.types {
      FirstEnabledIs(d.channels, d.types[name], c);
      if c in d.channels && c.typeId == d.types[name] && c.enabled
         && forall e | e in d.channels && e.typeId == d.types[name] && e.enabled :: c.id <= e.id {
        var k :| 0 <= k < |d.channels| && d.channels[k] == c;
        assert IsFirstAt(d.channels, d.types[name], c, k);
      }
    }
  }

  /** A submission that is not dispatched leaves the table as it was exactly if the pair had an order already, or none
      could be created. Otherwise the new order stays, with no channel. */
  lemma RefusalKeepsOrder(before: Rows, d: Directory, q: Request, draws: seq<Draw>, at: int, after: Rows, r: Response)
    requires Handled(before, d, q, draws, at, after, r) && !r.Dispatch?
    ensures after == before <==> HasOrder(before, q) || r == ServerError
    ensures after != before ==> exists t :: t !in before && Storable(q) && after == before[t := NewRow(DraftOf(q), at)]
  {
    if !(Refused(before, q, draws, r) && after == before) {
      var t :| Proceeds(before, d, q, at, after, r, t);
      assert after == WithChosen(before, q, t, at);
      if t in before {
        assert IsOrderOf(before[t], q.uid, q.outTradeNo);
      } else {
        assert t in after;
      }
    }
  }

  /** A new order of an unknown payment type is stored, and then refused. */
  lemma UnknownTypeIsStored(before: Rows, d: Directory, q: Request, draws: seq<Draw>, at: int, t: string)
    requires Storable(q) && !HasOrder(before, q) && t !in before && |t| == 19 && ChannelForType(d, q.payType) == None
    ensures Handled(before, d, q, draws, at, before[t := NewRow(DraftOf(q), at)], Unavailable)
  {
    assert Proceeds(before, d, q, at, before[t := NewRow(DraftOf(q), at)], Unavailable, t);
  }

  // ---- runs of submissions ----

  /** One event of a run in which submissions do not interleave: a whole submission, or any other statement. */
  datatype Event = Submission(m: Params, draws: seq<Draw>, at: int, r: Response) | Statement(op: Op)

  ghost predicate Follows(d: Directory, before: Rows, e: Event, after: Rows) {
    match e
    case Submission(m, draws, at, r) => Submitted(before, d, m, draws, at, after, r)
    case Statement(op) => !op.Insert? && after == Apply(before, op)
  }

  lemma StatementKeepsUnique(rows: Rows, op: Op)
    requires AtMostOnePerPair(rows) && !op.Insert?
    ensures AtMostOnePerPair(Apply(rows, op))
  {
    var after := Apply(rows, op);
    forall t | t in after ensures t in rows && after[t].draft == rows[t].draft {
      ApplyAt(rows, op, t);
    }
    forall t, u | t in after && u in after && IsOrderOf(after[u], after[t].draft.uid, after[t].draft.outTradeNo)
      ensures t == u
    {
      assert IsOrderOf(rows[u], rows[t].draft.uid, rows[t].draft.outTradeNo);
    }
  }

  /** In every run of non-interleaved submissions and any other statements, no pair ever has two orders. */
  lemma {:induction false} SerialSubmitsAreUnique(d: Directory, states: seq<Rows>, events: seq<Event>)
    requires |states| == |events| + 1 && AtMostOnePerPair(states[0])
    requires forall i | 0 <= i < |events| :: Follows(d, states[i], events[i], states[i + 1])
    ensures AtMostOnePerPair(states[|events|])
  {
    if events != [] {
      var n := |events| - 1;
      SerialSubmitsAreUnique(d, states[..|events|], events[..n]);
      assert Follows(d, states[n], events[n], states[n + 1]);
      match events[n]
      case Submission(m, draws, at, r) =>
        if ReadRequest(d, m).Ok? {
          SubmitKeepsUnique(states[n], d, ReadRequest(d, m).value, draws, at, states[n + 1], r);
        }
      case Statement(op) => StatementKeepsUnique(states[n], op);
    }
  }
}

/** The admin refund (`order_refund` in src/admin.rs). */
module Refund {
  import opened Wrappers
  import opened Orders
  import opened Channels
  import opened RunInvariants
  import opened OrderStore
  import opened Callbacks

  datatype Outcome = NoSuchOrder | NotPaid | NoChannel | ProviderRefused | Refunded | StatusMoved

  /** The order is paid, its channel is an Alipay one, and the provider agreed. */
  ghost predicate IsAgreed(rows: Rows, channels: seq<Channel>, t: string, providerAgrees: bool) {
    && t in rows && rows[t].status == 1 && providerAgrees
    && exists c :: FirstWithId(channels, rows[t].channel, c) && c.plugin == "alipay"
  }

  /** The amount that a refund returns and records: what was paid, or what was submitted if no channel was set. */
  function AmountToReturn(row: Row): (amount: Amount)
    ensures amount == if row.realmoney.Some? then row.realmoney.value else row.draft.money
  {
    row.Expected()
  }

  /** Read the order, call the provider, then update it if it is still paid. `meanwhile` are the statements that
      other handlers run during the provider call; a channel whose configuration cannot be read counts as refused. */
  method OrderRefund(store: Store, channels: seq<Channel>, tradeNo: string, providerAgrees: bool, meanwhile: seq<Op>)
      returns (r: Outcome)
    modifies store`rows
    ensures r == Refunded || r == StatusMoved <==> IsAgreed(old(store.rows), channels, tradeNo, providerAgrees)
    ensures IsAgreed(old(store.rows), channels, tradeNo, providerAgrees) ==>
      var late := ApplyAll(old(store.rows), meanwhile);
      && store.rows == Apply(late, SetRefunded(tradeNo, AmountToReturn(old(store.rows)[tradeNo])))
      && (r == Refunded <==> tradeNo in late && late[tradeNo].status == 1)
    ensures r == ProviderRefused <==>
      && tradeNo in old(store.rows) && old(store.rows)[tradeNo].status == 1
      && (exists c :: FirstWithId(channels, old(store.rows)[tradeNo].channel, c))
      && !IsAgreed(old(store.rows), channels, tradeNo, providerAgrees)
    ensures r == ProviderRefused ==> store.rows == ApplyAll(old(store.rows), meanwhile)
    ensures r == NoSuchOrder || r == NotPaid || r == NoChannel ==> store.rows == old(store.rows)
    ensures r == NoSuchOrder <==> tradeNo !in old(store.rows)
    ensures r == NotPaid <==> tradeNo in old(store.rows) && old(store.rows)[tradeNo].status != 1
  {
    if tradeNo !in store.rows { return NoSuchOrder; }
    var order := store.rows[tradeNo];
    if order.status != PAID { return NotPaid; }
    var channel := ChannelById(channels, order.channel);
    forall c ensures FirstWithId(channels, order.channel, c) <==> channel == Some(c) {
      ChannelByIdIs(channels, order.channel, c);
    }
    if channel.None? { return NoChannel; }
    var refundAmount := AmountToReturn(order);
    store.rows := ApplyAll(store.rows, meanwhile);
    if channel.value.plugin != "alipay" || !providerAgrees { return ProviderRefused; }
    var updated := store.OrderSetRefunded(tradeNo, refundAmount);
    return if updated == Flag(true) then Refunded else StatusMoved;
  }

  ghost predicate NoneDeletes(ops: seq<Op>) {
    forall op | op in ops :: !op.Delete?
  }

  lemma {:induction false} MeanwhileKeepsMoney(rows: Rows, ops: seq<Op>, t: string)
    requires t in rows && NoneDeletes(ops)
    ensures HasMoney(ApplyAll(rows, ops), t, rows[t].Money())
  {
    if ops != [] {
      var front, op := ops[..|ops| - 1], ops[|ops| - 1];
      assert op in ops && forall o | o in front :: o in ops;
      MeanwhileKeepsMoney(rows, front, t);
      StatementKeepsMoney(ApplyAll(rows, front), op, t);
    }
  }

  /** However the order moved during the provider call, the refund is recorded exactly if the order is still paid,
      and then takes exactly its money out of the paid amount; otherwise the paid amount is left alone. */
  lemma RefundTakesMoneyOnce(rows: Rows, channels: seq<Channel>, tradeNo: string, meanwhile: seq<Op>)
    requires RowsOk(channels, rows) && NoneDeletes(meanwhile)
    requires IsAgreed(rows, channels, tradeNo, true)
    ensures var late := ApplyAll(rows, meanwhile);
            var op := SetRefunded(tradeNo, AmountToReturn(rows[tradeNo]));
            && tradeNo in late
            && (AnswerTo(late, op) == Flag(true) <==> late[tradeNo].status == PAID)
            && PaidAmount(Apply(late, op)) == PaidAmount(late) - (if late[tradeNo].status == PAID then op.amount else 0)
            && (AnswerTo(late, op) == Flag(true) ==>
                  && Apply(late, op)[tradeNo].refundmoney == Some(late[tradeNo].Money())
                  && Apply(late, op)[tradeNo].status == 3
                  && AnswerTo(Apply(late, op), op) == Flag(false))
  {
    var late := ApplyAll(rows, meanwhile);
    var op := SetRefunded(tradeNo, AmountToReturn(rows[tradeNo]));
    ExpectedIsMoney(channels, rows[tradeNo]);
    MeanwhileKeepsMoney(rows, meanwhile, tradeNo);
    SumPut(late, PaidPart, tradeNo, Effect(op, At(late, tradeNo)));
  }
}
