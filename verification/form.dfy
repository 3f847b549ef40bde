/** Query strings (WHATWG URL Standard, sections 5.1 and 5.2) and `parse_unique_params` (src/web.rs).
    In this module a string stands for its UTF-8 bytes, one character per byte. */
module Form {
  import opened Wrappers
  import opened Text
  import opened SortedMap
  import opened SignContent

  predicate IsBytes(s: string) {
    forall i | 0 <= i < |s| :: (s[i] as int) < 256
  }

  /** Well-formed UTF-8: exactly the bytes that lossy decoding leaves alone. */
  ghost predicate IsText(lossy: string -> string, s: string) {
    IsBytes(s) && lossy(s) == s
  }

  // ---- serialising ----

  predicate IsUnreserved(c: char) {
    IsDigit(c) || 'A' <= c <= 'Z' || 'a' <= c <= 'z' || c == '*' || c == '-' || c == '.' || c == '_'
  }

  function HexDigit(n: nat): char
    requires n < 16
  {
    if n < 10 then ('0' as int + n) as char else ('A' as int + (n - 10)) as char
  }

  function EncodeByte(c: char): string {
    if IsUnreserved(c) then [c]
    else if c == ' ' then "+"
    else ['%', HexDigit(c as int / 16 % 16), HexDigit(c as int % 16)]
  }

  function Encode(s: string): string {
    if s == "" then "" else EncodeByte(s[0]) + Encode(s[1..])
  }

  function EncodedPair(k: string, v: string): string {
    Encode(k) + "=" + Encode(v)
  }

  ghost predicate AllText(lossy: string -> string, m: Params) {
    forall k | k in m :: IsText(lossy, k) && IsText(lossy, m[k])
  }

  function EncodedPairs(ks: seq<string>, m: Params): (r: seq<string>)
    requires forall k | k in ks :: k in m
    ensures |r| == |ks| && forall i | 0 <= i < |ks| :: r[i] == EncodedPair(ks[i], m[ks[i]])
  {
    if ks == [] then [] else [EncodedPair(ks[0], m[ks[0]])] + EncodedPairs(ks[1..], m)
  }

  /** `form_urlencoded::Serializer::extend_pairs` over a sorted map. */
  function Query(m: Params): string {
    Join(EncodedPairs(SortedKeys(m.Keys), m), "&")
  }

  // ---- parsing ----

  predicate IsHex(c: char) {
    IsDigit(c) || 'A' <= c <= 'F' || 'a' <= c <= 'f'
  }

  function HexValue(c: char): (n: nat)
    requires IsHex(c)
    ensures n < 16
  {
    if IsDigit(c) then DigitValue(c)
    else if 'A' <= c <= 'F' then c as int - 'A' as int + 10
    else c as int - 'a' as int + 10
  }

  /** Plus signs become spaces and `%XX` becomes a byte; a stray `%` stays. */
  function DecodeBytes(s: string): string {
    if s == "" then ""
    else if s[0] == '%' && |s| >= 3 && IsHex(s[1]) && IsHex(s[2]) then
      [(HexValue(s[1]) * 16 + HexValue(s[2])) as char] + DecodeBytes(s[3..])
    else [if s[0] == '+' then ' ' else s[0]] + DecodeBytes(s[1..])
  }

  function DecodePair(lossy: string -> string, part: string): (string, string) {
    match Find(part, "=")
    case None => (lossy(DecodeBytes(part)), lossy(DecodeBytes("")))
    case Some(i) => (lossy(DecodeBytes(part[..i])), lossy(DecodeBytes(part[i + 1..])))
  }

  function DecodePairs(lossy: string -> string, parts: seq<string>): seq<(string, string)> {
    if parts == [] then []
    else if parts[0] == "" then DecodePairs(lossy, parts[1..])
    else [DecodePair(lossy, parts[0])] + DecodePairs(lossy, parts[1..])
  }

  /** `form_urlencoded::parse`. */
  function Pairs(lossy: string -> string, bytes: string): seq<(string, string)> {
    DecodePairs(lossy, Split(bytes, '&'))
  }

  const MAX_BODY := 16 * 1024
  const MAX_KEY := 64
  const MAX_VALUE := 4096

  predicate FitsField(k: string, v: string) {
    |k| <= MAX_KEY && |v| <= MAX_VALUE
  }

  function CheckPairs(pairs: seq<(string, string)>, acc: Params): Result<Params, string> {
    if pairs == [] then Ok(acc)
    else
      var (k, v) := pairs[0];
      if k in acc then Err("duplicate field")
      else if !FitsField(k, v) then Err("field too large")
      else CheckPairs(pairs[1..], acc[k := v])
  }

  function ParsedParams(lossy: string -> string, bytes: string): Result<Params, string> {
    if |bytes| > MAX_BODY then Err("request too large") else CheckPairs(Pairs(lossy, bytes), map[])
  }

  /** `parse_unique_params`. */
  method ParseUniqueParams(lossy: string -> string, bytes: string) returns (r: Result<Params, string>)
    ensures r == ParsedParams(lossy, bytes)
  {
    if |bytes| > MAX_BODY {
      return Err("request too large");
    }
    var result: Params := map[];
    var seen: set<string> := {};
    var pairs := Pairs(lossy, bytes);
    var i := 0;
    while i < |pairs|
      invariant 0 <= i <= |pairs|
      invariant seen == result.Keys
      invariant CheckPairs(pairs[i..], result) == CheckPairs(pairs, map[])
    {
      var (k, v) := pairs[i];
      if k in seen {
        return Err("duplicate field");
      }
      seen := seen + {k};
      if |k| > MAX_KEY || |v| > MAX_VALUE {
        return Err("field too large");
      }
      result := result[k := v];
      i := i + 1;
    }
    return Ok(result);
  }

  // ---- what the parser accepts ----

  ghost predicate Distinct(pairs: seq<(string, string)>) {
    forall i, j | 0 <= i < j < |pairs| :: pairs[i].0 != pairs[j].0
  }

  function InsertAll(pairs: seq<(string, string)>, acc: Params): Params {
    if pairs == [] then acc else InsertAll(pairs[1..], acc[pairs[0].0 := pairs[0].1])
  }

  /** Accepted bodies are exactly the small enough ones without repeated or oversized fields, and nothing is
      lost or overwritten on the way into the map. */
  lemma {:induction false} AcceptsExactly(pairs: seq<(string, string)>, acc: Params)
    ensures CheckPairs(pairs, acc).Ok?
       <==> && Distinct(pairs)
            && forall i | 0 <= i < |pairs| :: pairs[i].0 !in acc && FitsField(pairs[i].0, pairs[i].1)
    ensures CheckPairs(pairs, acc).Ok? ==> CheckPairs(pairs, acc).value == InsertAll(pairs, acc)
  {
    if pairs != [] {
      var (k, v) := pairs[0];
      var rest := pairs[1..];
      AcceptsExactly(rest, acc[k := v]);
      assert forall i | 0 <= i < |rest| :: rest[i] == pairs[i + 1];
      assert Distinct(pairs) <==> Distinct(rest) && forall i | 0 <= i < |rest| :: rest[i].0 != k;
    }
  }

  // ---- the two are inverse ----

  lemma HexBack(n: nat)
    requires n < 16
    ensures IsHex(HexDigit(n)) && HexValue(HexDigit(n)) == n
  {
  }

  lemma DecodePlain(c: char, rest: string)
    requires IsUnreserved(c) || c == ' '
    ensures DecodeBytes(EncodeByte(c) + rest) == [c] + DecodeBytes(rest)
  {
    var e := EncodeByte(c) + rest;
    assert e[1..] == rest && e[0] == (if c == ' ' then '+' else c);
  }

  lemma DecodeEscaped(c: char, rest: string)
    requires (c as int) < 256 && !IsUnreserved(c) && c != ' '
    ensures DecodeBytes(EncodeByte(c) + rest) == [c] + DecodeBytes(rest)
  {
    var n := c as int;
    var high, low := n / 16, n % 16;
    assert high < 16 && low < 16 && n == high * 16 + low && high % 16 == high;
    HexBack(high);
    HexBack(low);
    var e := EncodeByte(c) + rest;
    assert e[0] == '%' && e[1] == HexDigit(high) && e[2] == HexDigit(low) && e[3..] == rest;
  }

  lemma DecodeByteBack(c: char, rest: string)
    requires (c as int) < 256
    ensures DecodeBytes(EncodeByte(c) + rest) == [c] + DecodeBytes(rest)
  {
    if IsUnreserved(c) || c == ' ' { DecodePlain(c, rest); } else { DecodeEscaped(c, rest); }
  }

  lemma {:induction false} DecodeEncoded(s: string)
    requires IsBytes(s)
    ensures DecodeBytes(Encode(s)) == s
  {
    if s != "" {
      DecodeByteBack(s[0], Encode(s[1..]));
      DecodeEncoded(s[1..]);
    }
  }

  lemma {:induction false} EncodedAlphabet(s: string)
    ensures '&' !in Encode(s) && '=' !in Encode(s) && '#' !in Encode(s)
  {
    if s != "" {
      EncodedAlphabet(s[1..]);
      assert '&' !in EncodeByte(s[0]) && '=' !in EncodeByte(s[0]) && '#' !in EncodeByte(s[0]);
    }
  }

  lemma DecodesPair(lossy: string -> string, k: string, v: string)
    requires IsText(lossy, k) && IsText(lossy, v)
    ensures DecodePair(lossy, EncodedPair(k, v)) == (k, v)
  {
    EncodedAlphabet(k);
    var part := EncodedPair(k, v);
    assert part == Encode(k) + ['='] + Encode(v);
    FindChar(Encode(k), '=', Encode(v));
    assert part[..|Encode(k)|] == Encode(k) && part[|Encode(k)| + 1..] == Encode(v);
    DecodeEncoded(k);
    DecodeEncoded(v);
  }

  function PairsOf(ks: seq<string>, m: Params): (r: seq<(string, string)>)
    requires forall k | k in ks :: k in m
    ensures |r| == |ks| && forall i | 0 <= i < |ks| :: r[i] == (ks[i], m[ks[i]])
  {
    if ks == [] then [] else [(ks[0], m[ks[0]])] + PairsOf(ks[1..], m)
  }

  lemma {:induction false} DecodesPairs(lossy: string -> string, ks: seq<string>, m: Params)
    requires AllText(lossy, m) && forall k | k in ks :: k in m
    ensures DecodePairs(lossy, EncodedPairs(ks, m)) == PairsOf(ks, m)
  {
    if ks != [] {
      DecodesPair(lossy, ks[0], m[ks[0]]);
      DecodesPairs(lossy, ks[1..], m);
      assert EncodedPair(ks[0], m[ks[0]])[|Encode(ks[0])|] == '=';
      assert EncodedPairs(ks, m)[1..] == EncodedPairs(ks[1..], m);
    }
  }

  lemma PairsSeparable(ks: seq<string>, m: Params)
    requires forall k | k in ks :: k in m
    ensures forall p | p in EncodedPairs(ks, m) :: '&' !in p
  {
    forall i | 0 <= i < |ks| ensures '&' !in EncodedPairs(ks, m)[i] {
      EncodedAlphabet(ks[i]);
      EncodedAlphabet(m[ks[i]]);
    }
  }

  lemma NoPairs(lossy: string -> string, text: string)
    requires text == ""
    ensures Pairs(lossy, text) == []
  {
    assert Split(text, '&') == [""];
    assert Split(text, '&')[1..] == [];
  }

  lemma QueryPairs(lossy: string -> string, m: Params)
    requires AllText(lossy, m)
    ensures Pairs(lossy, Query(m)) == PairsOf(SortedKeys(m.Keys), m)
  {
    var ks := SortedKeys(m.Keys);
    var parts := EncodedPairs(ks, m);
    DecodesPairs(lossy, ks, m);
    if ks == [] {
      NoPairs(lossy, Query(m));
    } else {
      PairsSeparable(ks, m);
      SplitOfJoin(parts, '&');
    }
  }

  lemma {:induction false} InsertsAll(ks: seq<string>, m: Params, acc: Params)
    requires forall k | k in ks :: k in m
    ensures InsertAll(PairsOf(ks, m), acc) == acc + Restricted(m, ks)
  {
    if ks != [] {
      InsertsAll(ks[1..], m, acc[ks[0] := m[ks[0]]]);
      assert PairsOf(ks, m)[1..] == PairsOf(ks[1..], m);
      RestrictedStep(ks, m, acc);
    }
  }

  /** The limits that `parse_unique_params` puts on a serialised map. */
  ghost predicate FitsLimits(m: Params) {
    |Query(m)| <= MAX_BODY && forall k | k in m :: FitsField(k, m[k])
  }

  /** Parsing a serialised map gives the same map back, exactly when it fits the limits. */
  lemma QueryRoundTrip(lossy: string -> string, m: Params)
    requires AllText(lossy, m)
    ensures ParsedParams(lossy, Query(m)) == Ok(m) <==> FitsLimits(m)
    ensures ParsedParams(lossy, Query(m)).Ok? <==> FitsLimits(m)
    ensures FitsLimits(m) <==> |Query(m)| <= 16384 && forall k | k in m :: |k| <= 64 && |m[k]| <= 4096
  {
    var ks := SortedKeys(m.Keys);
    var pairs := PairsOf(ks, m);
    QueryPairs(lossy, m);
    AcceptsExactly(pairs, map[]);
    InsertsAll(ks, m, map[]);
    RestrictedAll(m);
    SortedPairs(m);
    FittingPairs(ks, m, pairs);
  }

  lemma SortedPairs(m: Params)
    ensures Distinct(PairsOf(SortedKeys(m.Keys), m))
  {
    var ks := SortedKeys(m.Keys);
    var pairs := PairsOf(ks, m);
    forall i, j | 0 <= i < j < |pairs| ensures pairs[i].0 != pairs[j].0 {
      Trichotomy(ks[i], ks[j]);
    }
  }

  lemma FittingPairs(ks: seq<string>, m: Params, pairs: seq<(string, string)>)
    requires forall k :: k in ks <==> k in m
    requires |pairs| == |ks| && forall i | 0 <= i < |ks| :: pairs[i] == (ks[i], m[ks[i]])
    ensures (forall i | 0 <= i < |pairs| :: FitsField(pairs[i].0, pairs[i].1))
       <==> forall k | k in m :: FitsField(k, m[k])
  {
    if forall i | 0 <= i < |pairs| :: FitsField(pairs[i].0, pairs[i].1) {
      forall k | k in m ensures FitsField(k, m[k]) {
        var i :| 0 <= i < |ks| && ks[i] == k;
        assert pairs[i] == (k, m[k]);
      }
    } else {
      var i :| 0 <= i < |ks| && !FitsField(pairs[i].0, pairs[i].1);
      assert ks[i] in m;
    }
  }

  // ---- signed callbacks ----

  /** The parameters of a signed merchant callback: the order's fields plus `sign` and `sign_type`. */
  function SignedCallback(md5Hex: string -> string, m: Params, key: string): Params {
    m["sign" := SignMd5(md5Hex, m, key)]["sign_type" := "MD5"]
  }

  /** A merchant that parses the callback query gets the parameters that were sent, and the signature verifies. */
  lemma SignedCallbackSurvives(lossy: string -> string, md5Hex: string -> string, m: Params, key: string)
    requires AllText(lossy, SignedCallback(md5Hex, m, key))
    ensures var sent := SignedCallback(md5Hex, m, key);
            && (ParsedParams(lossy, Query(sent)) == Ok(sent) <==> FitsLimits(sent))
            && VerifyMd5(md5Hex, sent, key, sent["sign"])
  {
    QueryRoundTrip(lossy, SignedCallback(md5Hex, m, key));
    SignatureFieldsIgnored(m, SignMd5(md5Hex, m, key), "MD5");
  }

  /** The written form of a byte (WHATWG URL Standard, section 5.2): letters, digits and `*-._` stay, a space is a plus
      sign, and every other byte is a percent sign and two upper-case hexadecimal digits. */
  lemma EncodedForm(c: char)
    requires (c as int) < 256
    ensures var e, n := EncodeByte(c), c as int;
            if '0' <= c <= '9' || 'A' <= c <= 'Z' || 'a' <= c <= 'z' || c in "*-._" then e == [c]
            else if c == ' ' then e == "+"
            else |e| == 3 && e[0] == '%' && IsUpperHex(e[1]) && IsUpperHex(e[2])
                 && HexValue(e[1]) == n / 16 && HexValue(e[2]) == n % 16
  {
    if !IsUnreserved(c) && c != ' ' {
      var n := c as int;
      assert n / 16 < 16 && n / 16 % 16 == n / 16;
      HexBack(n / 16);
      HexBack(n % 16);
    }
    assert "*-._" == ['*', '-', '.', '_'];
  }

  predicate IsUpperHex(c: char) {
    IsDigit(c) || 'A' <= c <= 'F'
  }
}
