/** The WeChat v2 printer and scanner undo each other, and signatures survive the trip. */
module WxpayV2Trip {
  import opened Wrappers
  import opened Text
  import opened SortedMap
  import opened SignContent
  import opened WxpayV2

  /** Keys that the printer can write so that the scanner recognises them again. */
  predicate XmlKey(k: string) {
    IsTag(k) && ']' !in k && k != "xml" && k != "/xml"
  }

  // ---- one element ----

  lemma CloseOccursOnlyAtEnd(k: string, v: string, tail: string)
    requires ']' !in k && !Occurs(v, Close(k))
    ensures Find(Wrapped(v) + (Close(k) + tail), Close(k)) == Some(|Wrapped(v)|)
  {
    var close, after := Close(k), Close(k) + tail;
    var body := Wrapped(v) + after;
    var n := |CDATA_START| + |v|;
    assert close[0] == '<' && close[1] == '/';
    assert forall x | 0 <= x < |close| :: close[x] != ']';
    assert body[1] == '!' && forall j | 1 <= j < |CDATA_START| :: body[j] != '<';
    assert body[n] == ']' && forall j | n <= j < n + 3 :: body[j] != '<';
    assert body == CDATA_START + v + (CDATA_END + after);
    forall j | 0 <= j < |Wrapped(v)| ensures !OccursAt(body, close, j) {
      OccurrenceChars(body, close, j);
      if |CDATA_START| <= j && j + |close| <= n {
        OccurrenceInside(CDATA_START, v, CDATA_END + after, close, j);
      }
    }
    assert body[|Wrapped(v)|..|Wrapped(v)| + |close|] == close;
    FirstOccurrence(body, close, |Wrapped(v)|);
  }

  lemma UnwrapWrapped(v: string)
    ensures Unwrap(Wrapped(v)) == v
  {
    var w := Wrapped(v);
    assert w[0] == '<' && w[|w| - 1] == '>';
    TrimNothing(w);
    assert StripPrefix(w, CDATA_START) == v + CDATA_END;
    assert (v + CDATA_END)[|v|..] == CDATA_END;
  }

  lemma TagOfPrefix(s: string, root: string)
    requires '>' !in root
    ensures StartsWith(s, root + ">") ==> Find(s, ">") == Some(|root|) && s[..|root|] == root
  {
    if StartsWith(s, root + ">") {
      var rest := s[|root| + 1..];
      assert s == root + ['>'] + rest;
      FindChar(root, '>', rest);
    }
  }

  lemma NotDeclaration(k: string, rest: string)
    requires XmlKey(k)
    ensures !IsRootTag(k + ['>'] + rest)
  {
    var s := k + ['>'] + rest;
    FindChar(k, '>', rest);
    assert s[..|k|] == k;
    assert "xml" + ">" == "xml>" && "/xml" + ">" == "/xml>";
    TagOfPrefix(s, "xml");
    TagOfPrefix(s, "/xml");
  }

  lemma OpensAt(before: string, rest: string)
    requires '<' !in before
    ensures Find(before + ['<'] + rest, "<") == Some(|before|)
    ensures (before + ['<'] + rest)[|before| + 1..] == rest
  {
    FindChar(before, '<', rest);
  }

  lemma OpensAtStart(text: string, rest: string)
    requires text == ['<'] + rest
    ensures NextTurn(text) == AfterOpen(rest)
  {
    FirstOccurrence(text, "<", 0);
    assert text[1..] == rest;
  }

  lemma ReadsTag(k: string, body: string)
    requires XmlKey(k)
    ensures AfterOpen(k + ['>'] + body) == AfterTag(k, body)
  {
    var s := k + ['>'] + body;
    NotDeclaration(k, body);
    FindChar(k, '>', body);
    assert s[..|k|] == k && s[|k| + 1..] == body;
  }

  lemma ReadsValue(k: string, v: string, tail: string)
    requires XmlKey(k) && !Occurs(v, Close(k))
    ensures AfterTag(k, Wrapped(v) + (Close(k) + tail)) == Take(k, v, tail)
  {
    var body := Wrapped(v) + (Close(k) + tail);
    CloseOccursOnlyAtEnd(k, v, tail);
    assert body[..|Wrapped(v)|] == Wrapped(v);
    assert body[|Wrapped(v)| + |Close(k)|..] == tail;
    UnwrapWrapped(v);
  }

  lemma ElementParts(k: string, v: string, tail: string)
    ensures Element(k, v) + tail == ['<'] + (k + ['>'] + (Wrapped(v) + (Close(k) + tail)))
  {
  }

  /** The scanner takes a printed element off the front of the text, whatever follows it. */
  lemma TakesElement(k: string, v: string, tail: string)
    requires XmlKey(k) && !Occurs(v, Close(k))
    ensures NextTurn(Element(k, v) + tail) == Take(k, v, tail)
  {
    var body := Wrapped(v) + (Close(k) + tail);
    ElementParts(k, v, tail);
    OpensAtStart(Element(k, v) + tail, k + ['>'] + body);
    ReadsTag(k, body);
    ReadsValue(k, v, tail);
  }

  // ---- a whole document ----

  lemma ScansEnd(text: string, acc: Params)
    requires text == "</xml>"
    ensures ParseFrom(text, acc) == acc
  {
    var rest := text[1..];
    OpensAtStart(text, rest);
    assert rest == "/xml>";
    assert forall i | 0 <= i < |rest| :: rest[i] != '<';
    FindNone(rest, '<');
    assert IsRootTag(rest);
    assert NextTurn(text) == Stop;
  }

  lemma {:induction false} ScansElements(ks: seq<string>, m: Params, acc: Params)
    requires forall k | k in ks :: k in m && XmlKey(k) && !Occurs(m[k], Close(k))
    ensures ParseFrom(Elements(ks, m) + "</xml>", acc) == acc + Restricted(m, ks)
  {
    if ks == [] {
      ScansEnd(Elements(ks, m) + "</xml>", acc);
    } else {
      var k, v, tail := ks[0], m[ks[0]], Elements(ks[1..], m) + "</xml>";
      assert Elements(ks, m) + "</xml>" == Element(k, v) + tail;
      TakesElement(k, v, tail);
      ScansElements(ks[1..], m, acc[k := v]);
      RestrictedStep(ks, m, acc);
    }
  }

  lemma StartsWithOpen(ks: seq<string>, m: Params)
    requires forall k | k in ks :: k in m
    ensures var body := Elements(ks, m) + "</xml>"; body != "" && body[0] == '<'
  {
    if ks != [] {
      assert Elements(ks, m)[0] == '<';
    }
  }

  lemma SkipsDeclaration(body: string)
    requires body != "" && body[0] == '<'
    ensures NextTurn("<xml>" + body) == Skip(body)
  {
    var root := "xml>";
    var rest := root + body;
    OpensAtStart("<xml>" + body, rest);
    assert rest == root + ['<'] + body[1..];
    assert root[0] != '<' && root[1] != '<' && root[2] != '<' && root[3] != '<';
    OpensAt(root, body[1..]);
    assert rest[4..] == body;
  }

  lemma ReadsBack(m: Params)
    requires forall k | k in m :: XmlKey(k) && !Occurs(m[k], Close(k))
    ensures ParseFrom(XmlText(m), map[]) == m
  {
    var ks := SortedKeys(m.Keys);
    var body := Elements(ks, m) + "</xml>";
    StartsWithOpen(ks, m);
    SkipsDeclaration(body);
    Assoc("<xml>", Elements(ks, m), "</xml>");
    ScansElements(ks, m, map[]);
    RestrictedAll(m);
  }

  // ---- what the scanner can produce at all ----

  lemma StripIsSlice(s: string, p: string)
    ensures IsSlice(StripPrefix(s, p), s) && IsSlice(StripSuffix(s, p), s)
  {
    var a, b := StripPrefix(s, p), StripSuffix(s, p);
    assert a == s[|s| - |a|..|s|];
    assert b == s[0..|b|];
  }

  lemma TrimIsSlice(s: string)
    ensures IsSlice(Trim(s), s)
  {
    var started, trimmed := TrimStart(s), Trim(s);
    var i := |s| - |started|;
    SliceOfSlice(s, i, |s|, 0, |trimmed|);
    assert trimmed == s[i..i + |trimmed|];
  }

  lemma UnwrapIsSlice(raw: string)
    ensures IsSlice(Unwrap(raw), raw)
  {
    var inner := StripPrefix(Trim(raw), CDATA_START);
    TrimIsSlice(raw);
    StripIsSlice(Trim(raw), CDATA_START);
    SliceTransitive(inner, Trim(raw), raw);
    StripIsSlice(inner, CDATA_END);
    SliceTransitive(Unwrap(raw), inner, raw);
  }

  lemma TakenValueIn(tag: string, body: string)
    requires AfterTag(tag, body).Take?
    ensures !Occurs(AfterTag(tag, body).value, Close(tag))
  {
    var closePos := Find(body, Close(tag)).value;
    NoneBeforeFirst(body, Close(tag), closePos);
    var value := Unwrap(body[..closePos]);
    UnwrapIsSlice(body[..closePos]);
    if Occurs(value, Close(tag)) {
      OccursInSlice(value, body[..closePos], Close(tag));
    }
  }

  lemma TakenAtTag(rest: string)
    requires AtTag(rest).Take?
    ensures !Occurs(AtTag(rest).value, Close(AtTag(rest).tag))
  {
    match Find(rest, ">")
    case None =>
    case Some(tagEnd) =>
      TakenValueIn(TrimEndSlash(rest[..tagEnd]), rest[tagEnd + 1..]);
  }

  lemma TakenValue(text: string)
    requires NextTurn(text).Take?
    ensures var t := NextTurn(text); IsTag(t.tag) && !Occurs(t.value, Close(t.tag))
  {
    match Find(text, "<")
    case None =>
    case Some(openStart) =>
      assert NextTurn(text) == AtTag(text[openStart + 1..]);
      TakenAtTag(text[openStart + 1..]);
  }

  /** On every text, the scanner only produces readable tags, and never a value that holds its own closing tag. */
  lemma {:induction false} ScannedFields(text: string, acc: Params)
    ensures forall k | k in ParseFrom(text, acc) ::
              var v := ParseFrom(text, acc)[k];
              (k in acc && acc[k] == v) || (IsTag(k) && !Occurs(v, Close(k)))
    decreases |text|
  {
    match NextTurn(text)
    case Stop =>
    case Skip(rest) => ScannedFields(rest, acc);
    case Take(tag, value, rest) =>
      TakenValue(text);
      ScannedFields(rest, acc[tag := value]);
  }

  /** Among maps with well-formed keys, printing and scanning gives the map back exactly when no value
      holds the closing tag of its own key. Spaces around values, empty values and `]]>` do no harm. */
  lemma XmlRoundTrip(m: Params)
    requires forall k | k in m :: XmlKey(k)
    ensures ParseFrom(XmlText(m), map[]) == m <==> forall k | k in m :: !Occurs(m[k], Close(k))
  {
    if forall k | k in m :: !Occurs(m[k], Close(k)) {
      ReadsBack(m);
    } else {
      ScannedFields(XmlText(m), map[]);
    }
  }

  // ---- signatures ----

  ghost predicate HexDigits(s: string) {
    forall i | 0 <= i < |s| :: '0' <= s[i] <= '9' || 'A' <= s[i] <= 'F'
  }

  function WithSign(md5HexUpper: string -> string, m: Params, apiKey: string): Params {
    m["sign" := Signature(md5HexUpper, m, apiKey)]
  }

  lemma SignFieldIgnored(m: Params, sign: string, apiKey: string)
    ensures SignBuffer(m["sign" := sign], apiKey) == SignBuffer(m, apiKey)
  {
    var n := m["sign" := sign];
    assert SignedPart(n, ALIPAY_SKIP) == SignedPart(m, ALIPAY_SKIP);
    SignedPartDetermines(n, m, ALIPAY_SKIP);
    var ks, ls := SignedKeys(n, ALIPAY_SKIP), SignedKeys(m, ALIPAY_SKIP);
    forall k ensures k in ks <==> k in ls {
      assert k in ks <==> k in SignedPart(n, ALIPAY_SKIP);
      assert k in ls <==> k in SignedPart(m, ALIPAY_SKIP);
    }
    SortedUnique(ks, ls);
  }

  lemma DigestHasNoTag(digest: string, k: string)
    requires HexDigits(digest)
    ensures !Occurs(digest, Close(k))
  {
    forall j ensures !OccursAt(digest, Close(k), j) {
      OccurrenceChars(digest, Close(k), j);
      assert Close(k)[0] == '<';
    }
  }

  lemma SignedFieldsAreXml(md5HexUpper: string -> string, m: Params, apiKey: string)
    requires HexDigits(Signature(md5HexUpper, m, apiKey))
    requires forall k | k in m :: XmlKey(k) && !Occurs(m[k], Close(k))
    ensures var n := WithSign(md5HexUpper, m, apiKey); forall k | k in n :: XmlKey(k) && !Occurs(n[k], Close(k))
  {
    DigestHasNoTag(Signature(md5HexUpper, m, apiKey), "sign");
    assert XmlKey("sign");
  }

  /** A signed request verifies after it has been printed and scanned. */
  lemma SignedRequestSurvives(md5HexUpper: string -> string, m: Params, apiKey: string)
    requires forall s :: HexDigits(md5HexUpper(s))
    requires forall k | k in m :: XmlKey(k) && !Occurs(m[k], Close(k))
    ensures Verify(md5HexUpper, ParseFrom(XmlText(WithSign(md5HexUpper, m, apiKey)), map[]), apiKey)
  {
    assert HexDigits(Signature(md5HexUpper, m, apiKey));
    SignedFieldsAreXml(md5HexUpper, m, apiKey);
    ReadsBack(WithSign(md5HexUpper, m, apiKey));
    SignFieldIgnored(m, Signature(md5HexUpper, m, apiKey), apiKey);
  }

  const REQUEST_KEYS: set<string> := {
    "appid", "mch_id", "nonce_str", "body", "out_trade_no", "total_fee", "spbill_create_ip", "notify_url",
    "trade_type", "openid" }

  /** The request fields of `unified_order`; the order of the insertions does not matter. */
  function UnifiedOrderParams(appid: string, mchId: string, nonce: string, body: string, outTradeNo: string,
                              totalFeeFen: int, notifyUrl: string, tradeType: string, clientIp: string,
                              openid: Option<string>): (m: Params)
    ensures m.Keys <= REQUEST_KEYS
  {
    var m := map["appid" := appid, "mch_id" := mchId, "nonce_str" := nonce, "body" := body,
                 "out_trade_no" := outTradeNo, "total_fee" := PrintInt(totalFeeFen),
                 "spbill_create_ip" := clientIp, "notify_url" := notifyUrl, "trade_type" := tradeType];
    if openid.Some? then m["openid" := openid.value] else m
  }

  predicate IsPlain(c: char) {
    'a' <= c <= 'z' || c == '_'
  }

  lemma PlainKey(k: string)
    requires |k| > 3 && forall i | 0 <= i < |k| :: IsPlain(k[i])
    ensures XmlKey(k)
  {
    assert k != "/xml" by { assert IsPlain(k[0]); }
    assert IsPlain(k[|k| - 1]);
  }

  lemma RequestKeysArePlain(k: string)
    requires k in REQUEST_KEYS
    ensures XmlKey(k)
  {
    PlainKey(k);
  }

  /** Every unified-order request verifies on arrival unless one of its values holds its own closing tag. */
  lemma UnifiedOrderSurvives(md5HexUpper: string -> string, m: Params, apiKey: string,
                             appid: string, mchId: string, nonce: string, body: string, outTradeNo: string,
                             totalFeeFen: int, notifyUrl: string, tradeType: string, clientIp: string,
                             openid: Option<string>)
    requires forall s :: HexDigits(md5HexUpper(s))
    requires m == UnifiedOrderParams(appid, mchId, nonce, body, outTradeNo, totalFeeFen, notifyUrl, tradeType,
                                     clientIp, openid)
    requires forall k | k in m :: !Occurs(m[k], Close(k))
    ensures Verify(md5HexUpper, ParseFrom(XmlText(WithSign(md5HexUpper, m, apiKey)), map[]), apiKey)
  {
    forall k | k in m ensures XmlKey(k) {
      RequestKeysArePlain(k);
    }
    SignedRequestSurvives(md5HexUpper, m, apiKey);
  }

  predicate Holds(m: Params, k: string, v: string) {
    k in m && m[k] == v
  }

  /** Each value of a request stands under its own name. */
  lemma RequestFields(appid: string, mchId: string, nonce: string, body: string, outTradeNo: string,
                      totalFeeFen: int, notifyUrl: string, tradeType: string, clientIp: string, openid: Option<string>)
    ensures var m := UnifiedOrderParams(appid, mchId, nonce, body, outTradeNo, totalFeeFen, notifyUrl, tradeType,
                                        clientIp, openid);
            && Holds(m, "appid", appid) && Holds(m, "mch_id", mchId) && Holds(m, "nonce_str", nonce)
            && Holds(m, "body", body) && Holds(m, "out_trade_no", outTradeNo)
            && Holds(m, "total_fee", PrintInt(totalFeeFen)) && Holds(m, "spbill_create_ip", clientIp)
            && Holds(m, "notify_url", notifyUrl) && Holds(m, "trade_type", tradeType)
            && ("openid" in m <==> openid.Some?) && (openid.Some? ==> Holds(m, "openid", openid.value))
  {
  }

  /** What the provider reads is the whole signed request. */
  lemma RequestArrives(md5HexUpper: string -> string, m: Params, apiKey: string)
    requires (forall s :: HexDigits(md5HexUpper(s))) && m.Keys <= REQUEST_KEYS
    requires forall k | k in m :: !Occurs(m[k], Close(k))
    ensures ParseFrom(XmlText(WithSign(md5HexUpper, m, apiKey)), map[]) == WithSign(md5HexUpper, m, apiKey)
  {
    forall k | k in m ensures XmlKey(k) {
      RequestKeysArePlain(k);
    }
    assert HexDigits(Signature(md5HexUpper, m, apiKey));
    SignedFieldsAreXml(md5HexUpper, m, apiKey);
    ReadsBack(WithSign(md5HexUpper, m, apiKey));
  }

  // ---- values that are not wrapped ----

  /** A value without CDATA is read as its trimmed text. */
  lemma UnwrapPlain(raw: string)
    requires !StartsWith(Trim(raw), "<![CDATA[") && !EndsWith(Trim(raw), "]]>")
    ensures Unwrap(raw) == Trim(raw)
  {
  }

  lemma TrimmedHasNo(raw: string, c: char)
    requires c !in raw
    ensures c !in Trim(raw)
  {
    TrimIsSlice(raw);
    var i, j :| 0 <= i <= j <= |raw| && Trim(raw) == raw[i..j];
    assert forall x | x in raw[i..j] :: x in raw;
  }

  lemma PlainClose(k: string, raw: string, tail: string)
    requires '<' !in raw
    ensures Find(raw + (Close(k) + tail), Close(k)) == Some(|raw|)
  {
    var body := raw + (Close(k) + tail);
    assert Close(k)[0] == '<';
    forall j | 0 <= j < |raw| ensures !OccursAt(body, Close(k), j) {
      OccurrenceChars(body, Close(k), j);
      assert body[j] == raw[j];
    }
    assert body[|raw|..|raw| + |Close(k)|] == Close(k);
    FirstOccurrence(body, Close(k), |raw|);
  }

  lemma ReadsPlainValue(k: string, raw: string, tail: string)
    requires k != "" && '<' !in raw && !EndsWith(Trim(raw), "]]>")
    ensures AfterTag(k, raw + (Close(k) + tail)) == Take(k, Trim(raw), tail)
  {
    var body := raw + (Close(k) + tail);
    PlainClose(k, raw, tail);
    assert body[..|raw|] == raw && body[|raw| + |Close(k)|..] == tail;
    TrimmedHasNo(raw, '<');
    assert "<![CDATA["[0] == '<';
    PrefixChars(Trim(raw), "<![CDATA[");
    UnwrapPlain(raw);
  }

  function PlainElement(k: string, raw: string): string {
    "<" + k + ">" + raw + "</" + k + ">"
  }

  lemma PlainParts(k: string, raw: string, tail: string)
    ensures PlainElement(k, raw) + tail == ['<'] + (k + ['>'] + (raw + (Close(k) + tail)))
  {
  }

  /** An element without CDATA is read with its trimmed text, whatever follows it. */
  lemma TakesPlainElement(k: string, raw: string, tail: string)
    requires XmlKey(k) && '<' !in raw && !EndsWith(Trim(raw), "]]>")
    ensures NextTurn(PlainElement(k, raw) + tail) == Take(k, Trim(raw), tail)
  {
    var body := raw + (Close(k) + tail);
    PlainParts(k, raw, tail);
    OpensAtStart(PlainElement(k, raw) + tail, k + ['>'] + body);
    ReadsTag(k, body);
    ReadsPlainValue(k, raw, tail);
  }

  function PlainElements(ks: seq<string>, m: Params): string
    requires forall k | k in ks :: k in m
  {
    if ks == [] then "" else PlainElement(ks[0], m[ks[0]]) + PlainElements(ks[1..], m)
  }

  ghost predicate IsPlainField(k: string, v: string) {
    XmlKey(k) && '<' !in v && !EndsWith(Trim(v), "]]>")
  }

  lemma {:induction false} ScansPlain(ks: seq<string>, m: Params, acc: Params)
    requires forall k | k in ks :: k in m && IsPlainField(k, m[k])
    ensures ParseFrom(PlainElements(ks, m) + "</xml>", acc) == acc + Trimmed(m, ks)
  {
    if ks == [] {
      ScansEnd(PlainElements(ks, m) + "</xml>", acc);
    } else {
      var k, tail := ks[0], PlainElements(ks[1..], m) + "</xml>";
      assert k in ks && forall j | j in ks[1..] :: j in ks;
      Assoc(PlainElement(k, m[k]), PlainElements(ks[1..], m), "</xml>");
      TakesPlainElement(k, m[k], tail);
      ScansPlain(ks[1..], m, acc[k := Trim(m[k])]);
      RestrictedStep(ks, TrimAll(m), acc);
    }
  }

  function TrimAll(m: Params): Params {
    map k | k in m :: Trim(m[k])
  }

  /** The trimmed values of the given keys. */
  ghost function Trimmed(m: Params, ks: seq<string>): Params {
    Restricted(TrimAll(m), ks)
  }

  lemma PlainStarts(ks: seq<string>, m: Params)
    requires forall k | k in ks :: k in m
    ensures var body := PlainElements(ks, m) + "</xml>"; body != "" && body[0] == '<'
  {
    if ks != [] {
      assert PlainElement(ks[0], m[ks[0]])[0] == '<';
      assert PlainElements(ks, m)[0] == '<';
    }
  }

  lemma NothingBefore(m: Params)
    ensures map[] + m == m
  {
  }

  /** A document without CDATA, such as WeChat sends for numbers, is read field by field. */
  lemma ReadsPlainDocument(ks: seq<string>, m: Params)
    requires forall k | k in ks :: k in m && IsPlainField(k, m[k])
    ensures ParseFrom("<xml>" + (PlainElements(ks, m) + "</xml>"), map[]) == Trimmed(m, ks)
  {
    var body := PlainElements(ks, m) + "</xml>";
    PlainStarts(ks, m);
    SkipsDeclaration(body);
    ScansPlain(ks, m, map[]);
    NothingBefore(Trimmed(m, ks));
  }

  /** The written form of a printed field. */
  lemma PrintedText(k: string, v: string)
    ensures XmlText(map[k := v]) == "<xml>" + ("<" + k + "><![CDATA[" + v + "]]></" + k + ">") + "</xml>"
  {
    var m := map[k := v];
    Trichotomy(k, k);
    SortedUnique(SortedKeys(m.Keys), [k]);
    assert Elements([k], m) == Element(k, v) + "";
    ElementText(k, v);
  }

  lemma ElementText(k: string, v: string)
    ensures Element(k, v) == "<" + k + "><![CDATA[" + v + "]]></" + k + ">"
  {
    var e := "<" + k + "><![CDATA[" + v + "]]></" + k + ">";
    assert "><![CDATA[" == ">" + "<![CDATA[" && "]]></" == "]]>" + "</";
    PushElement("", k, v);
    assert "" + "<" == "<" && "" + Element(k, v) == Element(k, v);
    Assoc("<" + k, ">", "<![CDATA[");
  }

  /** The written form of a request signature: the fields, and the key as a last one. */
  lemma SignedText(md5HexUpper: string -> string, k: string, v: string, l: string, x: string, apiKey: string)
    requires Less(k, l) && v != "" && x != "" && k != "sign" && l != "sign"
    ensures Signature(md5HexUpper, map[k := v, l := x], apiKey)
         == md5HexUpper(k + "=" + v + "&" + (l + "=" + x) + "&" + "key=" + apiKey)
  {
    ContentOfTwo(k, v, l, x, ALIPAY_SKIP);
    BufferIs(map[k := v, l := x], apiKey);
  }
}
