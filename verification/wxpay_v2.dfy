/** WeChat Pay v2 (src/wxpay_v2.rs): the request signature and the flat XML format. */
module WxpayV2 {
  import opened Wrappers
  import opened Text
  import opened SortedMap
  import opened SignContent

  // ---- signing ----

  /** What the signature covers: the Alipay-style content, a separator if it is not empty, and the key. */
  function SignBuffer(m: Params, apiKey: string): string {
    (if SignedKeys(m, ALIPAY_SKIP) == [] then "" else AlipayContent(m) + "&") + "key=" + apiKey
  }

  function Signature(md5HexUpper: string -> string, m: Params, apiKey: string): string {
    md5HexUpper(SignBuffer(m, apiKey))
  }

  /** The buffer in terms of the joined content alone. */
  lemma BufferIs(m: Params, apiKey: string)
    ensures SignBuffer(m, apiKey) == (if AlipayContent(m) == "" then "" else AlipayContent(m) + "&") + "key=" + apiKey
  {
    var fs := Fields(SignedKeys(m, ALIPAY_SKIP), m);
    if fs != [] { NonEmptyJoin(fs, "&"); }
  }

  /** `verify`. */
  function Verify(md5HexUpper: string -> string, m: Params, apiKey: string): bool {
    "sign" in m && Signature(md5HexUpper, m, apiKey) == m["sign"]
  }

  /** The fields with one `&` after each of them, as the signing loop leaves them. */
  ghost function Terminated(fs: seq<string>): string {
    if fs == [] then "" else Terminated(fs[..|fs| - 1]) + (fs[|fs| - 1] + "&")
  }

  lemma TerminatedSnoc(fs: seq<string>, f: string)
    ensures Terminated(fs + [f]) == Terminated(fs) + (f + "&")
  {
    assert (fs + [f])[..|fs|] == fs;
  }

  /** That is the joined form and a separator. */
  lemma {:induction false} TerminatedIsJoin(fs: seq<string>)
    requires fs != []
    ensures Terminated(fs) == Join(fs, "&") + "&"
  {
    var front, last := fs[..|fs| - 1], fs[|fs| - 1];
    assert fs == front + [last];
    if front == [] {
      assert fs == [last];
      TerminatedSnoc([], last);
    } else {
      TerminatedIsJoin(front);
      JoinSnoc(front, last, "&");
      Assoc(Join(front, "&"), "&", last + "&");
      Assoc(Join(front, "&"), "&" + last, "&");
      Assoc("&", last, "&");
    }
  }

  lemma {:induction false} SurvivingSnoc(ks: seq<string>, k: string, m: Params, skip: set<string>)
    requires forall j | j in ks + [k] :: j in m
    ensures forall j | j in ks :: j in m
    ensures Surviving(ks + [k], m, skip)
         == Surviving(ks, m, skip) + if m[k] != "" && k !in skip then [k] else []
  {
    assert forall j | j in ks :: j in ks + [k];
    if ks != [] {
      assert (ks + [k])[1..] == ks[1..] + [k];
      assert forall j | j in ks[1..] + [k] :: j in ks + [k];
      SurvivingSnoc(ks[1..], k, m, skip);
    }
  }

  lemma {:induction false} SurvivingInside(ks: seq<string>, m: Params, skip: set<string>)
    requires forall k | k in ks :: k in m
    ensures forall k | k in Surviving(ks, m, skip) :: k in ks
  {
    if ks != [] { SurvivingInside(ks[1..], m, skip); }
  }

  /** One step of the signing loop, stated on the keys visited so far. */
  ghost function LoopBuffer(ks: seq<string>, m: Params): string
    requires forall k | k in ks :: k in m
  {
    SurvivingInside(ks, m, ALIPAY_SKIP);
    Terminated(Fields(Surviving(ks, m, ALIPAY_SKIP), m))
  }

  lemma LoopBufferSnoc(ks: seq<string>, k: string, m: Params)
    requires forall j | j in ks + [k] :: j in m
    ensures forall j | j in ks :: j in m
    ensures LoopBuffer(ks + [k], m)
         == LoopBuffer(ks, m) + if m[k] != "" && k != "sign" then Field(k, m[k]) + "&" else ""
  {
    SurvivingSnoc(ks, k, m, ALIPAY_SKIP);
    SurvivingInside(ks, m, ALIPAY_SKIP);
    SurvivingInside(ks + [k], m, ALIPAY_SKIP);
    var s, t := Surviving(ks, m, ALIPAY_SKIP), Surviving(ks + [k], m, ALIPAY_SKIP);
    if m[k] != "" && k != "sign" {
      FieldsSnoc(s, k, m);
      TerminatedSnoc(Fields(s, m), Field(k, m[k]));
    } else {
      assert t == s;
    }
  }

  lemma FieldsSnoc(ks: seq<string>, k: string, m: Params)
    requires forall j | j in ks :: j in m
    requires k in m && forall j | j in ks + [k] :: j in m
    ensures Fields(ks + [k], m) == Fields(ks, m) + [Field(k, m[k])]
  {
  }

  lemma PushField(s: string, k: string, v: string)
    ensures s + k + "=" + v + "&" == s + (Field(k, v) + "&")
  {
    Assoc(s, k, "=");
    Assoc(s, k + "=", v);
    Assoc(s, k + "=" + v, "&");
  }

  /** After the last field comes the key. */
  lemma LoopEnds(m: Params, apiKey: string)
    ensures LoopBuffer(SortedKeys(m.Keys), m) + "key=" + apiKey == SignBuffer(m, apiKey)
  {
    var fs := Fields(SignedKeys(m, ALIPAY_SKIP), m);
    if fs != [] { TerminatedIsJoin(fs); }
  }

  /** The signing loop builds the buffer field by field and agrees with the joined form. */
  method Sign(md5HexUpper: string -> string, m: Params, apiKey: string) returns (signature: string)
    ensures signature == Signature(md5HexUpper, m, apiKey)
  {
    var ks := SortedKeys(m.Keys);
    var s := "";
    var i := 0;
    while i < |ks|
      invariant 0 <= i <= |ks|
      invariant forall k | k in ks[..i] :: k in m
      invariant s == LoopBuffer(ks[..i], m)
    {
      var k := ks[i];
      var v := m[k];
      assert ks[..i + 1] == ks[..i] + [k];
      LoopBufferSnoc(ks[..i], k, m);
      if v != "" && k != "sign" {
        PushField(s, k, v);
        s := s + k;
        s := s + "=";
        s := s + v;
        s := s + "&";
      }
      i := i + 1;
    }
    assert ks[..i] == ks;
    LoopEnds(m, apiKey);
    s := s + "key=";
    s := s + apiKey;
    signature := md5HexUpper(s);
  }

  // ---- printing ----

  function Open(k: string): string {
    "<" + k + ">"
  }

  function Close(k: string): string {
    "</" + k + ">"
  }

  const CDATA_START := "<![CDATA["
  const CDATA_END := "]]>"

  function Wrapped(v: string): string {
    CDATA_START + v + CDATA_END
  }

  function Element(k: string, v: string): string {
    Open(k) + Wrapped(v) + Close(k)
  }

  function Elements(ks: seq<string>, m: Params): string
    requires forall k | k in ks :: k in m
  {
    if ks == [] then "" else Element(ks[0], m[ks[0]]) + Elements(ks[1..], m)
  }

  function XmlText(m: Params): string {
    "<xml>" + Elements(SortedKeys(m.Keys), m) + "</xml>"
  }

  lemma {:induction false} ElementsSnoc(ks: seq<string>, k: string, m: Params)
    requires forall j | j in ks + [k] :: j in m
    ensures forall j | j in ks :: j in m
    ensures Elements(ks + [k], m) == Elements(ks, m) + Element(k, m[k])
  {
    assert forall j | j in ks :: j in ks + [k];
    if ks != [] {
      assert (ks + [k])[1..] == ks[1..] + [k];
      assert forall j | j in ks[1..] + [k] :: j in ks + [k];
      ElementsSnoc(ks[1..], k, m);
      Assoc(Element(ks[0], m[ks[0]]), Elements(ks[1..], m), Element(k, m[k]));
    }
  }

  ghost function XmlSoFar(ks: seq<string>, m: Params): string
    requires forall k | k in ks :: k in m
  {
    "<xml>" + Elements(ks, m)
  }

  lemma XmlSnoc(ks: seq<string>, k: string, m: Params)
    requires forall j | j in ks + [k] :: j in m
    ensures forall j | j in ks :: j in m
    ensures XmlSoFar(ks + [k], m) == XmlSoFar(ks, m) + Element(k, m[k])
  {
    ElementsSnoc(ks, k, m);
    Assoc("<xml>", Elements(ks, m), Element(k, m[k]));
  }

  lemma PushValue(x: string, a: string, v: string, b: string, c: string)
    ensures x + a + v + (b + c) == x + (a + v + b) + c
  {
    PushThree(x, a, v, b);
    Assoc(x + a + v, b, c);
  }

  /** The pieces that the loop pushes make one element. */
  lemma PushElement(x: string, k: string, v: string)
    ensures x + "<" + k + ">" + CDATA_START + v + "]]></" + k + ">" == x + Element(k, v)
  {
    PushThree(x, "<", k, ">");
    var y := x + Open(k);
    assert "]]></" == CDATA_END + "</";
    PushValue(y, CDATA_START, v, CDATA_END, "</");
    var z := y + Wrapped(v);
    PushThree(z, "</", k, ">");
    Assoc(x, Open(k), Wrapped(v));
    Assoc(x, Open(k) + Wrapped(v), Close(k));
  }

  /** `to_xml`. */
  method ToXml(m: Params) returns (xml: string)
    ensures xml == XmlText(m)
  {
    var ks := SortedKeys(m.Keys);
    xml := "<xml>";
    var i := 0;
    while i < |ks|
      invariant 0 <= i <= |ks|
      invariant forall k | k in ks[..i] :: k in m
      invariant xml == XmlSoFar(ks[..i], m)
    {
      assert ks[..i + 1] == ks[..i] + [ks[i]];
      XmlSnoc(ks[..i], ks[i], m);
      PushElement(xml, ks[i], m[ks[i]]);
      xml := xml + "<" + ks[i] + ">" + CDATA_START + m[ks[i]] + "]]></" + ks[i] + ">";
      i := i + 1;
    }
    assert ks[..i] == ks;
    xml := xml + "</xml>";
  }

  // ---- parsing ----

  function StripPrefix(s: string, p: string): string {
    if StartsWith(s, p) then s[|p|..] else s
  }

  function StripSuffix(s: string, p: string): string {
    if EndsWith(s, p) then s[..|s| - |p|] else s
  }

  function TrimEndSlash(tag: string): (r: string)
    ensures StartsWith(tag, r) && (r == "" || r[|r| - 1] != '/')
  {
    if tag != "" && tag[|tag| - 1] == '/' then
      var r := TrimEndSlash(tag[..|tag| - 1]);
      assert tag[..|tag| - 1][..|r|] == tag[..|r|];
      r
    else
      tag
  }

  function Unwrap(raw: string): string {
    StripSuffix(StripPrefix(Trim(raw), CDATA_START), CDATA_END)
  }

  /** What one turn of the scanning loop does with the text that is left. */
  datatype Turn = Stop | Skip(rest: string) | Take(tag: string, value: string, rest: string)

  function NextTurn(text: string): (t: Turn)
    ensures !t.Stop? ==> |t.rest| < |text|
    ensures t.Take? ==> IsTag(t.tag)
  {
    match Find(text, "<")
    case None => Stop
    case Some(openStart) => AfterOpen(text[openStart + 1..])
  }

  /** The text after a `<` opens or closes the document itself. */
  predicate IsRootTag(rest: string) {
    StartsWith(rest, "xml>") || StartsWith(rest, "/xml>")
  }

  function AfterOpen(rest: string): (t: Turn)
    ensures !t.Stop? ==> |t.rest| <= |rest|
    ensures t.Take? ==> IsTag(t.tag)
  {
    if IsRootTag(rest) then
      match Find(rest, "<")
      case None => Stop
      case Some(next) => Skip(rest[next..])
    else
      AtTag(rest)
  }

  function AtTag(rest: string): (t: Turn)
    ensures !t.Stop? ==> |t.rest| <= |rest|
    ensures t.Take? ==> IsTag(t.tag)
  {
    match Find(rest, ">")
    case None => Stop
    case Some(tagEnd) =>
      TagBeforeEnd(rest, tagEnd);
      AfterTag(TrimEndSlash(rest[..tagEnd]), rest[tagEnd + 1..])
  }

  function AfterTag(tag: string, rest: string): (t: Turn)
    ensures !t.Stop? ==> |t.rest| <= |rest|
    ensures t.Take? ==> t.tag == tag != ""
  {
    if tag == "" then Stop
    else
      match Find(rest, Close(tag))
      case None => Stop
      case Some(closePos) => Take(tag, Unwrap(rest[..closePos]), rest[closePos + |Close(tag)|..])
  }

  /** The tags that the scanner can read: not empty, up to the first `>`, without trailing slashes. */
  predicate IsTag(tag: string) {
    tag != "" && '>' !in tag && tag[|tag| - 1] != '/'
  }

  lemma TagBeforeEnd(rest: string, tagEnd: nat)
    requires Find(rest, ">") == Some(tagEnd)
    ensures tagEnd < |rest|
    ensures TrimEndSlash(rest[..tagEnd]) != "" ==> IsTag(TrimEndSlash(rest[..tagEnd]))
  {
    FindIsFirst(rest, ">");
    var tag := TrimEndSlash(rest[..tagEnd]);
    forall i | 0 <= i < |tag| ensures tag[i] != '>' {
      assert tag[i] == rest[i] && !OccursAt(rest, ">", i);
      assert rest[i..i + 1] == [rest[i]];
    }
  }

  /** The map that the scanner ends with, from the text that is left and what it has so far. */
  function ParseFrom(text: string, acc: Params): Params
    decreases |text|
  {
    match NextTurn(text)
    case Stop => acc
    case Skip(rest) => ParseFrom(rest, acc)
    case Take(tag, value, rest) => ParseFrom(rest, acc[tag := value])
  }

  /** The part of the scanning loop that reads a tag and its value. */
  method ReadElement(text: string) returns (turn: Turn)
    ensures turn == AtTag(text)
  {
    var tagEnd := Find(text, ">");
    if tagEnd.None? { return Stop; }
    var tag := TrimEndSlash(text[..tagEnd.value]);
    if tag == "" { return Stop; }
    var closeTag := Close(tag);
    var rest := text[tagEnd.value + 1..];
    var closePos := Find(rest, closeTag);
    if closePos.None? { return Stop; }
    var value := Trim(rest[..closePos.value]);
    value := StripPrefix(value, CDATA_START);
    value := StripSuffix(value, CDATA_END);
    return Take(tag, value, rest[closePos.value + |closeTag|..]);
  }

  /** `parse_flat_xml`: the hand-written scanner, which terminates on every input. */
  method ParseFlatXml(xml: string) returns (result: Params)
    ensures result == ParseFrom(xml, map[])
  {
    result := map[];
    var rest := xml;
    while true
      invariant ParseFrom(rest, result) == ParseFrom(xml, map[])
      decreases |rest|
    {
      var openStart := Find(rest, "<");
      if openStart.None? { assert NextTurn(rest) == Stop; break; }
      ghost var turn := NextTurn(rest);
      rest := rest[openStart.value + 1..];
      if IsRootTag(rest) {
        var next := Find(rest, "<");
        if next.None? { assert turn == Stop; break; }
        rest := rest[next.value..];
        assert turn == Skip(rest);
        continue;
      }
      var element := ReadElement(rest);
      assert turn == element;
      if element.Stop? { break; }
      result := result[element.tag := element.value];
      rest := element.rest;
    }
  }
}
