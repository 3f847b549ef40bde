/** The callback address as the merchant's server sees it: how long the signed query can get, and what becomes of it
    behind an address that has a query or a fragment of its own (src/web.rs). */
module CallbackQueries {
  import opened Wrappers
  import opened Text
  import opened Money
  import opened SortedMap
  import opened SignContent
  import opened Form
  import opened Orders
  import opened Notification

  // ---- the size of a query ----

  lemma {:induction false} EncodeLength(s: string)
    ensures |Encode(s)| <= 3 * |s|
  {
    if s != "" { EncodeLength(s[1..]); }
  }

  function TenTo(k: nat): nat {
    if k == 0 then 1 else 10 * TenTo(k - 1)
  }

  lemma {:induction false} DecimalLength(n: nat, k: nat)
    requires k > 0 && n < TenTo(k)
    ensures |Decimal(n)| <= k
  {
    if n >= 10 { DecimalLength(n / 10, k - 1); }
  }

  const SHORT := 256
  const SHORT_KEY := 13
  const LONG := 765
  const FIELD: nat := 809

  /** All fields are short, but for the merchant's own parameter. */
  predicate IsSmall(k: string, v: string) {
    |k| <= SHORT_KEY && |v| <= (if k == "param" then LONG else SHORT)
  }

  /** The bytes that an encoded field and its separator may take. */
  function Budget(k: string): (n: nat)
    ensures n == 3 * SHORT_KEY + 3 * (if k == "param" then LONG else SHORT) + 2
  {
    FIELD + if k == "param" then 3 * (LONG - SHORT) else 0
  }

  lemma PairLength(k: string, v: string)
    requires IsSmall(k, v)
    ensures |EncodedPair(k, v)| + 1 <= Budget(k)
  {
    EncodeLength(k);
    EncodeLength(v);
  }

  lemma JoinLength(part: string, rest: seq<string>)
    ensures |Join([part] + rest, "&")| <= |part| + 1 + |Join(rest, "&")|
  {
    assert ([part] + rest)[1..] == rest;
  }

  /** What the long field may add. */
  function Extra(ks: seq<string>): nat {
    if "param" in ks then 3 * (LONG - SHORT) else 0
  }

  lemma ExtraOnce(ks: seq<string>)
    requires StrictlySorted(ks) && ks != []
    ensures Budget(ks[0]) + Extra(ks[1..]) == FIELD + Extra(ks)
  {
    NotAgain(ks);
    assert "param" in ks <==> ks[0] == "param" || "param" in ks[1..];
  }

  /** Sorted keys do not repeat, so the long field comes at most once. */
  lemma {:induction false} QueryLength(ks: seq<string>, m: Params)
    requires StrictlySorted(ks) && forall k | k in ks :: k in m && IsSmall(k, m[k])
    ensures |Join(EncodedPairs(ks, m), "&")| <= FIELD * |ks| + Extra(ks)
  {
    if ks != [] {
      var k, rest := ks[0], ks[1..];
      assert k in ks && forall j | j in rest :: j in ks;
      QueryLength(rest, m);
      PairLength(k, m[k]);
      JoinLength(EncodedPair(k, m[k]), EncodedPairs(rest, m));
      ExtraOnce(ks);
    }
  }

  lemma NotAgain(ks: seq<string>)
    requires StrictlySorted(ks) && ks != []
    ensures ks[0] !in ks[1..]
  {
    forall i | 1 <= i < |ks| ensures ks[i] != ks[0] {
      Trichotomy(ks[0], ks[i]);
    }
  }

  lemma {:induction false} KeysCount(ks: seq<string>, keys: set<string>)
    requires StrictlySorted(ks) && forall k | k in ks :: k in keys
    ensures |ks| <= |keys|
  {
    if ks != [] {
      NotAgain(ks);
      KeysCount(ks[1..], keys - {ks[0]});
    }
  }

  ghost function SetOf(ks: seq<string>): set<string> {
    set k | k in ks
  }

  lemma {:induction false} SetOfSize(ks: seq<string>)
    ensures |SetOf(ks)| <= |ks|
  {
    if ks != [] {
      SetOfSize(ks[1..]);
      assert SetOf(ks) == SetOf(ks[1..]) + {ks[0]};
    }
  }

  // ---- every stored order fits ----

  const CALLBACK_KEYS: seq<string> := [
    "pid", "trade_no", "out_trade_no", "type", "name", "money", "trade_status", "param", "sign", "sign_type" ]

  /** What the columns of pay_order and pay_type can hold, in bytes: the character set takes up to three for each. */
  predicate FitsColumns(tradeNo: string, row: Row, typeName: string) {
    && |tradeNo| <= 19 && |row.draft.outTradeNo| <= 150 && |row.draft.name| <= 3 * 64 && |typeName| <= 3 * 30
    && (row.draft.param.Some? ==> |row.draft.param.value| <= 3 * 255)
    && row.draft.uid < 0x1_0000_0000
  }

  ghost predicate IsSmallField(k: string, v: string) {
    k in CALLBACK_KEYS && |v| <= if k == "param" then LONG else SHORT
  }

  ghost predicate AllSmall(m: Params) {
    forall k | k in m :: IsSmallField(k, m[k])
  }

  lemma PrintedLengths(uid: nat, amount: Amount)
    requires uid < 0x1_0000_0000
    ensures |Decimal(uid)| <= 10 && |FenToYuanString(amount)| <= 11
  {
    assert TenTo(8) == 100_000_000 && TenTo(10) == 10_000_000_000;
    DecimalLength(uid, 10);
    DecimalLength(amount / 100, 8);
  }

  lemma CallbackKeysAreListed()
    ensures "pid" in CALLBACK_KEYS && "trade_no" in CALLBACK_KEYS && "out_trade_no" in CALLBACK_KEYS
    ensures "type" in CALLBACK_KEYS && "name" in CALLBACK_KEYS && "money" in CALLBACK_KEYS
    ensures "trade_status" in CALLBACK_KEYS && "param" in CALLBACK_KEYS
    ensures "sign" in CALLBACK_KEYS && "sign_type" in CALLBACK_KEYS
  {
    var ks := CALLBACK_KEYS;
    assert ks[0] == "pid" && ks[1] == "trade_no" && ks[2] == "out_trade_no" && ks[3] == "type" && ks[4] == "name";
    assert ks[5] == "money" && ks[6] == "trade_status" && ks[7] == "param" && ks[8] == "sign" && ks[9] == "sign_type";
  }

  lemma SmallInsert(m: Params, k: string, v: string)
    requires AllSmall(m) && IsSmallField(k, v)
    ensures AllSmall(m[k := v])
  {
  }

  lemma CallbackIsSmall(tradeNo: string, row: Row, typeName: string)
    requires FitsColumns(tradeNo, row, typeName)
    ensures AllSmall(CallbackParams(tradeNo, row, typeName))
  {
    CallbackKeysAreListed();
    PrintedLengths(row.draft.uid, row.Money());
    var m: Params := map[];
    SmallInsert(m, "pid", Decimal(row.draft.uid));
    m := m["pid" := Decimal(row.draft.uid)];
    SmallInsert(m, "trade_no", tradeNo);
    m := m["trade_no" := tradeNo];
    SmallInsert(m, "out_trade_no", row.draft.outTradeNo);
    m := m["out_trade_no" := row.draft.outTradeNo];
    SmallInsert(m, "type", typeName);
    m := m["type" := typeName];
    SmallInsert(m, "name", row.draft.name);
    m := m["name" := row.draft.name];
    SmallInsert(m, "money", FenToYuanString(row.Money()));
    m := m["money" := FenToYuanString(row.Money())];
    SmallInsert(m, "trade_status", "TRADE_SUCCESS");
    m := m["trade_status" := "TRADE_SUCCESS"];
    if row.draft.param.Some? {
      SmallInsert(m, "param", row.draft.param.value);
    }
  }

  lemma SignedIsSmall(md5Hex: string -> string, m: Params, key: string)
    requires AllSmall(m) && |SignMd5(md5Hex, m, key)| == 32
    ensures AllSmall(SignedCallback(md5Hex, m, key))
  {
    CallbackKeysAreListed();
    var sign := SignMd5(md5Hex, m, key);
    SmallInsert(m, "sign", sign);
    SmallInsert(m["sign" := sign], "sign_type", "MD5");
  }

  lemma CallbackKeysAreShort(k: string)
    requires k in CALLBACK_KEYS
    ensures |k| <= SHORT_KEY
  {
  }

  lemma CallbackKeysCount(keys: set<string>)
    requires forall k | k in keys :: k in CALLBACK_KEYS
    ensures |SortedKeys(keys)| <= 10
  {
    KeysCount(SortedKeys(keys), SetOf(CALLBACK_KEYS));
    SetOfSize(CALLBACK_KEYS);
  }

  lemma SmallFields(m: Params)
    requires AllSmall(m)
    ensures forall k | k in m :: IsSmall(k, m[k])
  {
    forall k | k in m ensures IsSmall(k, m[k]) {
      CallbackKeysAreShort(k);
    }
  }

  lemma SmallFits(m: Params)
    requires AllSmall(m)
    ensures FitsLimits(m) && |Query(m)| <= 10_000
  {
    var ks := SortedKeys(m.Keys);
    SmallFields(m);
    QueryLength(ks, m);
    CallbackKeysCount(m.Keys);
  }

  /** The callback of every stored order comes through whole: the merchant gets exactly the sent parameters, and the
      signature verifies. */
  lemma StoredCallbackSurvives(lossy: string -> string, env: Env, tradeNo: string, row: Row)
    requires KeepsAscii(lossy) && forall s :: IsAsciiText(env.md5Hex(s)) && |env.md5Hex(s)| == 32
    requires row.draft.uid in env.merchantKeys && FitsColumns(tradeNo, row, TypeName(env, row.typeId))
    requires OrderIsText(lossy, tradeNo, row, TypeName(env, row.typeId))
    ensures var sent := SentParams(env, tradeNo, row);
            && ParsedParams(lossy, Query(sent)) == Ok(sent) && |Query(sent)| <= 10_000
            && VerifyMd5(env.md5Hex, sent, env.merchantKeys[row.draft.uid], sent["sign"])
  {
    CallbackIsSmall(tradeNo, row, TypeName(env, row.typeId));
    SignedIsSmall(env.md5Hex, CallbackParams(tradeNo, row, TypeName(env, row.typeId)), env.merchantKeys[row.draft.uid]);
    SmallFits(SentParams(env, tradeNo, row));
    OrderCallbackSurvives(lossy, env, tradeNo, row);
  }

  // ---- what the merchant reads ----

  predicate Has(m: Params, k: string, v: string) {
    k in m && m[k] == v
  }

  /** Decimal digits without spare zeros that denote the number. */
  predicate IsNumber(s: string, n: nat) {
    AllDigits(s) && NoLeadingZero(s) && Value(s) == n
  }

  /** A canonical amount that denotes the money. */
  ghost predicate IsMoney(s: string, money: Amount) {
    exists whole, frac :: Spells(s, whole, frac) && |frac| == 2 && NoLeadingZero(whole) && Denotes(whole, frac) == money
  }

  predicate IsCallbackKey(k: string) {
    || k == "pid" || k == "trade_no" || k == "out_trade_no" || k == "type" || k == "name" || k == "money"
    || k == "trade_status" || k == "param" || k == "sign" || k == "sign_type"
  }

  /** Each field on its own: the order's numbers under the right names, its money, its type and name, and the merchant's
      own parameter if it gave one. */
  ghost predicate NamesOrder(m: Params, env: Env, tradeNo: string, row: Row) {
    && "pid" in m && IsNumber(m["pid"], row.draft.uid)
    && Has(m, "trade_no", tradeNo) && Has(m, "out_trade_no", row.draft.outTradeNo)
    && Has(m, "type", if row.typeId in env.typeNames then env.typeNames[row.typeId] else "alipay")
    && Has(m, "name", row.draft.name) && "money" in m && IsMoney(m["money"], row.draft.money)
    && Has(m, "trade_status", "TRADE_SUCCESS")
    && ("param" in m <==> row.draft.param.Some?) && (row.draft.param.Some? ==> Has(m, "param", row.draft.param.value))
  }

  ghost predicate NothingElse(m: Params) {
    forall k | k in m :: IsCallbackKey(k)
  }

  /** The fields tell the merchant of this order, with a signature of it all under the merchant's key, and of nothing
      else. */
  ghost predicate TellsOf(m: Params, env: Env, tradeNo: string, row: Row) {
    && NamesOrder(m, env, tradeNo, row) && NothingElse(m)
    && row.draft.uid in env.merchantKeys
    && Has(m, "sign", env.md5Hex(MerchantContent(m) + env.merchantKeys[row.draft.uid])) && Has(m, "sign_type", "MD5")
  }

  lemma NumberIsPrinted(n: nat)
    ensures IsNumber(Decimal(n), n)
  {
    ValueOfDecimal(n);
  }

  lemma MoneyIsPrinted(money: Amount)
    ensures IsMoney(FenToYuanString(money), money)
  {
    PrintedSpells(money);
    ValueOfDecimal(money / 100);
  }

  lemma ParamsNameOrder(env: Env, tradeNo: string, row: Row)
    ensures NamesOrder(CallbackParams(tradeNo, row, TypeName(env, row.typeId)), env, tradeNo, row)
    ensures NothingElse(CallbackParams(tradeNo, row, TypeName(env, row.typeId)))
  {
    NumberIsPrinted(row.draft.uid);
    MoneyIsPrinted(row.Money());
  }

  lemma Inserted(m: Params, k: string, v: string, l: string)
    requires l != k
    ensures l in m[k := v] <==> l in m
    ensures l in m ==> m[k := v][l] == m[l]
  {
  }

  lemma SignatureKeysAreNew()
    ensures "pid" != "sign" && "trade_no" != "sign" && "out_trade_no" != "sign" && "type" != "sign" && "name" != "sign"
    ensures "money" != "sign" && "trade_status" != "sign" && "param" != "sign"
    ensures "pid" != "sign_type" && "trade_no" != "sign_type" && "out_trade_no" != "sign_type" && "type" != "sign_type"
    ensures "name" != "sign_type" && "money" != "sign_type" && "trade_status" != "sign_type" && "param" != "sign_type"
  {
    assert "type"[0] == 't' && "name"[0] == 'n' && "sign"[0] == 's';
  }

  /** A field that is none of the order's leaves what is said of the order. */
  lemma InsertKeepsOrder(env: Env, m: Params, tradeNo: string, row: Row, k: string, v: string)
    requires NamesOrder(m, env, tradeNo, row) && (k == "sign" || k == "sign_type")
    ensures NamesOrder(m[k := v], env, tradeNo, row)
  {
    SignatureKeysAreNew();
    Inserted(m, k, v, "pid");
    Inserted(m, k, v, "trade_no");
    Inserted(m, k, v, "out_trade_no");
    Inserted(m, k, v, "type");
    Inserted(m, k, v, "name");
    Inserted(m, k, v, "money");
    Inserted(m, k, v, "trade_status");
    Inserted(m, k, v, "param");
  }

  lemma InsertIsKnown(m: Params, k: string, v: string)
    requires NothingElse(m) && IsCallbackKey(k)
    ensures NothingElse(m[k := v])
  {
  }

  lemma SignatureIsThere(md5Hex: string -> string, m: Params, key: string)
    ensures var n := SignedCallback(md5Hex, m, key);
            Has(n, "sign", md5Hex(MerchantContent(n) + key)) && Has(n, "sign_type", "MD5")
  {
    SignatureFieldsIgnored(m, SignMd5(md5Hex, m, key), "MD5");
  }

  lemma SignedTells(env: Env, m: Params, tradeNo: string, row: Row)
    requires NamesOrder(m, env, tradeNo, row) && NothingElse(m) && row.draft.uid in env.merchantKeys
    ensures TellsOf(SignedCallback(env.md5Hex, m, env.merchantKeys[row.draft.uid]), env, tradeNo, row)
  {
    var key := env.merchantKeys[row.draft.uid];
    var sign := SignMd5(env.md5Hex, m, key);
    InsertKeepsOrder(env, m, tradeNo, row, "sign", sign);
    InsertKeepsOrder(env, m["sign" := sign], tradeNo, row, "sign_type", "MD5");
    InsertIsKnown(m, "sign", sign);
    InsertIsKnown(m["sign" := sign], "sign_type", "MD5");
    SignatureIsThere(env.md5Hex, m, key);
  }

  lemma SentTells(env: Env, tradeNo: string, row: Row)
    requires row.draft.uid in env.merchantKeys
    ensures TellsOf(SentParams(env, tradeNo, row), env, tradeNo, row)
  {
    ParamsNameOrder(env, tradeNo, row);
    SignedTells(env, CallbackParams(tradeNo, row, TypeName(env, row.typeId)), tradeNo, row);
  }

  // ---- behind an address with a query or a fragment ----

  function BeforeFragment(url: string): string {
    match Find(url, "#")
    case None => url
    case Some(i) => url[..i]
  }

  /** The query component of an address: what stands between its first question mark and its fragment. */
  function QueryOf(url: string): string {
    match Find(BeforeFragment(url), "?")
    case None => ""
    case Some(i) => BeforeFragment(url)[i + 1..]
  }

  lemma {:induction false} JoinHasNo(parts: seq<string>, sep: string, c: char)
    requires c !in sep && forall p | p in parts :: c !in p
    ensures c !in Join(parts, sep)
  {
    if |parts| > 1 { JoinHasNo(parts[1..], sep, c); }
  }

  lemma PairHasNoHash(k: string, v: string)
    ensures '#' !in EncodedPair(k, v)
  {
    EncodedAlphabet(k);
    EncodedAlphabet(v);
  }

  lemma PairsHaveNoHash(ks: seq<string>, m: Params)
    requires forall k | k in ks :: k in m
    ensures forall p | p in EncodedPairs(ks, m) :: '#' !in p
  {
    forall i | 0 <= i < |ks| ensures '#' !in EncodedPairs(ks, m)[i] {
      PairHasNoHash(ks[i], m[ks[i]]);
    }
  }

  lemma QueryHasNoHash(m: Params)
    ensures '#' !in Query(m)
  {
    PairsHaveNoHash(SortedKeys(m.Keys), m);
    JoinHasNo(EncodedPairs(SortedKeys(m.Keys), m), "&", '#');
  }

  lemma FirstIn(s: string, c: char)
    requires c in s
    ensures Find(s, [c]).Some? && var i := Find(s, [c]).value; i < |s| && s[i] == c && c !in s[..i]
  {
    var j :| 0 <= j < |s| && s[j] == c;
    assert OccursAt(s, [c], j);
    FindIsFirst(s, [c]);
    var i := Find(s, [c]).value;
    assert s[i..i + 1][0] == c;
    forall x | 0 <= x < i ensures s[x] != c {
      assert !OccursAt(s, [c], x) && s[x..x + 1] == [s[x]];
    }
  }

  /** A longer text has its first occurrence at the same place. */
  lemma FirstStays(s: string, tail: string, c: char)
    requires c in s
    ensures Find(s, [c]).Some? && Find(s + tail, [c]) == Find(s, [c]) && Find(s, [c]).value < |s|
  {
    FirstIn(s, c);
    var i := Find(s, [c]).value;
    assert s + tail == s[..i] + [c] + (s[i + 1..] + tail);
    FindChar(s[..i], c, s[i + 1..] + tail);
  }

  /** Behind a fragment, the signed text never reaches the query. */
  lemma FragmentHides(base: string, tail: string)
    requires '#' in base
    ensures QueryOf(base + tail) == QueryOf(base)
  {
    FirstStays(base, tail, '#');
    var i := Find(base, "#").value;
    assert (base + tail)[..i] == base[..i];
  }

  lemma NoFragment(url: string)
    requires '#' !in url
    ensures BeforeFragment(url) == url
  {
    FindNone(url, '#');
  }

  /** The written form of an address (RFC 3986, section 3): the query stands behind the first question mark, in front of
      the fragment. */
  lemma QueryIsBetween(path: string, query: string, fragment: string)
    requires '?' !in path && '#' !in path && '#' !in query
    ensures QueryOf(path + "?" + query) == query
    ensures QueryOf(path + "?" + query + "#" + fragment) == query
  {
    var url := path + "?" + query;
    NoFragment(url);
    FindChar(path, '?', query);
    FindChar(url, '#', fragment);
    assert (url + "#" + fragment)[..|url|] == url;
  }

  /** Without a fragment, the signed query comes after the query that the address already has. */
  lemma QueryJoins(base: string, query: string)
    requires '#' !in base && '#' !in query
    ensures QueryOf(WithQuery(base, query)) == if '?' in base then QueryOf(base) + "&" + query else query
  {
    var url := WithQuery(base, query);
    NoFragment(base);
    NoFragment(url);
    if '?' in base {
      FirstStays(base, "&" + query, '?');
      assert url == base + ("&" + query);
      var i := Find(base, "?").value;
      assert url[i + 1..] == base[i + 1..] + "&" + query;
    } else {
      FindChar(base, '?', query);
      assert url == base + ['?'] + query;
      assert url[|base| + 1..] == query;
    }
  }

  lemma {:induction false} PairsConcat(lossy: string -> string, a: seq<string>, b: seq<string>)
    ensures DecodePairs(lossy, a + b) == DecodePairs(lossy, a) + DecodePairs(lossy, b)
  {
    if a == [] {
      assert a + b == b;
    } else {
      assert (a + b)[1..] == a[1..] + b;
      PairsConcat(lossy, a[1..], b);
    }
  }

  lemma PairsAfter(lossy: string -> string, own: string, query: string)
    ensures Pairs(lossy, own + "&" + query) == Pairs(lossy, own) + Pairs(lossy, query)
  {
    SplitConcat(own, query, '&');
    assert own + "&" + query == own + ['&'] + query;
    PairsConcat(lossy, Split(own, '&'), Split(query, '&'));
  }

  lemma {:induction false} InsertAllHas(pairs: seq<(string, string)>, acc: Params)
    ensures acc.Keys <= InsertAll(pairs, acc).Keys
    ensures forall i | 0 <= i < |pairs| :: pairs[i].0 in InsertAll(pairs, acc)
  {
    if pairs != [] {
      InsertAllHas(pairs[1..], acc[pairs[0].0 := pairs[0].1]);
      forall i | 0 <= i < |pairs| ensures pairs[i].0 in InsertAll(pairs, acc) {
        assert i > 0 ==> pairs[i] == pairs[1..][i - 1];
      }
    }
  }

  lemma RepeatsKey(own: seq<(string, string)>, ks: seq<string>, m: Params)
    requires own != [] && own[0].0 in ks && forall k | k in ks :: k in m
    ensures !Distinct(own + PairsOf(ks, m))
  {
    var i :| 0 <= i < |ks| && ks[i] == own[0].0;
    var pairs := own + PairsOf(ks, m);
    assert pairs[0].0 == pairs[|own| + i].0;
  }

  /** Any field ahead of the signed ones spoils them: it is a duplicate, or it makes the map another one. */
  lemma AheadSpoils(own: seq<(string, string)>, m: Params)
    requires own != []
    ensures CheckPairs(own + PairsOf(SortedKeys(m.Keys), m), map[]) != Ok(m)
  {
    var ks := SortedKeys(m.Keys);
    var pairs := own + PairsOf(ks, m);
    AcceptsExactly(pairs, map[]);
    if own[0].0 in m {
      RepeatsKey(own, ks, m);
    } else {
      InsertAllHas(pairs, map[]);
      assert pairs[0].0 == own[0].0;
    }
  }

  lemma AfterFragment(base: string, query: string)
    requires '#' in base
    ensures QueryOf(WithQuery(base, query)) == QueryOf(base)
  {
    if '?' in base {
      FragmentHides(base, "&" + query);
      Assoc(base, "&", query);
    } else {
      FragmentHides(base, "?" + query);
      Assoc(base, "?", query);
    }
  }

  lemma AfterOwnQuery(lossy: string -> string, own: string, sent: Params)
    requires AllText(lossy, sent) && FitsLimits(sent) && |own| + 1 + |Query(sent)| <= MAX_BODY
    ensures ParsedParams(lossy, own + "&" + Query(sent)) == Ok(sent) <==> Pairs(lossy, own) == []
  {
    var query := Query(sent);
    PairsAfter(lossy, own, query);
    QueryPairs(lossy, sent);
    QueryRoundTrip(lossy, sent);
    if Pairs(lossy, own) != [] {
      AheadSpoils(Pairs(lossy, own), sent);
    } else {
      assert [] + Pairs(lossy, query) == Pairs(lossy, query);
    }
  }

  lemma OwnQueryLength(base: string)
    requires '#' !in base
    ensures |QueryOf(base)| <= |base|
    ensures '?' !in base ==> QueryOf(base) == ""
  {
    NoFragment(base);
    if '?' !in base { FindNone(base, '?'); } else { FirstIn(base, '?'); }
  }

  /** The exact condition on the address: its query component carries the signed parameters, and nothing else, if and
      only if it has no fragment and no field of its own. Behind a fragment only the address's own query arrives. */
  lemma AddressCondition(lossy: string -> string, base: string, sent: Params)
    requires AllText(lossy, sent) && FitsLimits(sent) && |base| + 1 + |Query(sent)| <= MAX_BODY
    ensures ParsedParams(lossy, QueryOf(WithQuery(base, Query(sent)))) == Ok(sent)
       <==> if '#' in base then ParsedParams(lossy, QueryOf(base)) == Ok(sent) else Pairs(lossy, QueryOf(base)) == []
  {
    if '#' in base {
      AfterFragment(base, Query(sent));
    } else {
      QueryHasNoHash(sent);
      QueryJoins(base, Query(sent));
      OwnQueryLength(base);
      if '?' in base {
        AfterOwnQuery(lossy, QueryOf(base), sent);
      } else {
        NoPairs(lossy, QueryOf(base));
        QueryRoundTrip(lossy, sent);
      }
    }
  }

  /** For every stored order and every stored address, of a redirect or of a notification: the server that reads the
      query of the request gets exactly the signed parameters if and only if the address has no fragment and no field
      of its own. */
  lemma RedirectSurvives(lossy: string -> string, env: Env, rows: Rows, baseUrl: string, tradeNo: string)
    requires KeepsAscii(lossy) && forall s :: IsAsciiText(env.md5Hex(s)) && |env.md5Hex(s)| == 32
    requires tradeNo in rows && rows[tradeNo].draft.uid in env.merchantKeys && |baseUrl| <= 3 * 255
    requires FitsColumns(tradeNo, rows[tradeNo], TypeName(env, rows[tradeNo].typeId))
    requires OrderIsText(lossy, tradeNo, rows[tradeNo], TypeName(env, rows[tradeNo].typeId))
    ensures ParsedParams(lossy, QueryOf(BuildCallbackUrl(env, rows, baseUrl, tradeNo)))
              == Ok(SentParams(env, tradeNo, rows[tradeNo]))
       <==> if '#' in baseUrl then ParsedParams(lossy, QueryOf(baseUrl)) == Ok(SentParams(env, tradeNo, rows[tradeNo]))
            else Pairs(lossy, QueryOf(baseUrl)) == []
  {
    var row := rows[tradeNo];
    var typeName := TypeName(env, row.typeId);
    StoredCallbackSurvives(lossy, env, tradeNo, row);
    ParamsAreText(lossy, tradeNo, row, typeName);
    SignedIsText(lossy, env.md5Hex, CallbackParams(tradeNo, row, typeName), env.merchantKeys[row.draft.uid]);
    QueryRoundTrip(lossy, SentParams(env, tradeNo, row));
    AddressCondition(lossy, baseUrl, SentParams(env, tradeNo, row));
  }

  /** What the merchant's server reads in a request to a stored address without fragment and fields of its own, be it a
      notification or a redirect: the order, field by field. */
  lemma MerchantReadsOrder(lossy: string -> string, env: Env, rows: Rows, baseUrl: string, tradeNo: string)
    requires KeepsAscii(lossy) && forall s :: IsAsciiText(env.md5Hex(s)) && |env.md5Hex(s)| == 32
    requires tradeNo in rows && rows[tradeNo].draft.uid in env.merchantKeys && |baseUrl| <= 3 * 255
    requires FitsColumns(tradeNo, rows[tradeNo], TypeName(env, rows[tradeNo].typeId))
    requires OrderIsText(lossy, tradeNo, rows[tradeNo], TypeName(env, rows[tradeNo].typeId))
    requires '#' !in baseUrl && Pairs(lossy, QueryOf(baseUrl)) == []
    ensures var read := ParsedParams(lossy, QueryOf(BuildCallbackUrl(env, rows, baseUrl, tradeNo)));
            read.Ok? && TellsOf(read.value, env, tradeNo, rows[tradeNo])
  {
    RedirectSurvives(lossy, env, rows, baseUrl, tradeNo);
    SentTells(env, tradeNo, rows[tradeNo]);
  }
}
