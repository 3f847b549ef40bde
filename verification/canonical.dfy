/** The iteration order of a `BTreeMap<String, String>`: keys in ascending order. */
module SortedMap {
  type Params = map<string, string>

  predicate Less(a: string, b: string) {
    b != "" && (a == "" || a[0] < b[0] || (a[0] == b[0] && Less(a[1..], b[1..])))
  }

  ghost predicate StrictlySorted(ks: seq<string>) {
    forall i, j | 0 <= i < j < |ks| :: Less(ks[i], ks[j])
  }

  lemma {:induction false} Trichotomy(a: string, b: string)
    ensures Less(a, b) || a == b || Less(b, a)
    ensures !(Less(a, b) && Less(b, a))
    ensures !Less(a, a)
    decreases a
  {
    if a != "" {
      Trichotomy(a[1..], a[1..]);
      if b != "" {
        Trichotomy(a[1..], b[1..]);
        assert a == [a[0]] + a[1..] && b == [b[0]] + b[1..];
      }
    }
  }

  lemma {:induction false} Transitive(a: string, b: string, c: string)
    requires Less(a, b) && Less(b, c)
    ensures Less(a, c)
  {
    if a != "" && a[0] == b[0] == c[0] {
      Transitive(a[1..], b[1..], c[1..]);
    }
  }

  predicate IsLeast(k: string, keys: set<string>) {
    k in keys && forall j | j in keys :: j == k || Less(k, j)
  }

  lemma {:induction false} LeastExists(keys: set<string>)
    requires keys != {}
    ensures exists k :: IsLeast(k, keys)
    ensures forall k, l | IsLeast(k, keys) && IsLeast(l, keys) :: k == l
  {
    var x :| x in keys;
    var rest := keys - {x};
    if rest == {} {
      assert keys == {x};
      assert IsLeast(x, keys);
    } else {
      LeastExists(rest);
      var y :| IsLeast(y, rest);
      Trichotomy(x, y);
      var k := if Less(x, y) then x else y;
      forall j | j in keys ensures j == k || Less(k, j) {
        if k == x && j != x && j != y { Transitive(x, y, j); }
      }
      assert IsLeast(k, keys);
    }
    forall k, l | IsLeast(k, keys) && IsLeast(l, keys) ensures k == l {
      Trichotomy(k, l);
    }
  }

  /** `BTreeMap::iter`, as far as the order of the keys goes. */
  function SortedKeys(keys: set<string>): (ks: seq<string>)
    ensures StrictlySorted(ks)
    ensures forall k :: k in ks <==> k in keys
  {
    if keys == {} then []
    else
      LeastExists(keys);
      var k :| IsLeast(k, keys);
      [k] + SortedKeys(keys - {k})
  }

  /** A set of keys has only one ascending order. */
  lemma {:induction false} SortedUnique(a: seq<string>, b: seq<string>)
    requires StrictlySorted(a) && StrictlySorted(b)
    requires forall k :: k in a <==> k in b
    ensures a == b
  {
    if a == [] {
      assert forall i | 0 <= i < |b| :: b[i] in b;
    } else {
      assert a[0] in b;
      assert b[0] in a;
      var i :| 0 <= i < |b| && b[i] == a[0];
      var j :| 0 <= j < |a| && a[j] == b[0];
      Trichotomy(a[0], b[0]);
      assert a[0] == b[0];
      forall k ensures k in a[1..] <==> k in b[1..] {
        Trichotomy(a[0], a[0]);
        if k in a[1..] { assert k in b && k != b[0]; }
        if k in b[1..] { assert k in a && k != a[0]; }
      }
      SortedUnique(a[1..], b[1..]);
      assert a == [a[0]] + a[1..] && b == [b[0]] + b[1..];
    }
  }

  /** The part of a map at the given keys. */
  ghost function Restricted(m: Params, ks: seq<string>): Params {
    map k | k in ks && k in m :: m[k]
  }

  lemma RestrictedStep(ks: seq<string>, m: Params, acc: Params)
    requires ks != [] && ks[0] in m
    ensures acc[ks[0] := m[ks[0]]] + Restricted(m, ks[1..]) == acc + Restricted(m, ks)
  {
    assert forall j :: j in ks <==> j == ks[0] || j in ks[1..];
  }

  lemma RestrictedAll(m: Params)
    ensures map[] + Restricted(m, SortedKeys(m.Keys)) == m
  {
  }
}

/** Canonical sign strings (src/protocol.rs): ascending keys, `k=v` joined with `&`. */
module SignContent {
  import opened Text
  import opened SortedMap

  /** `filter(...)` over the iteration: drops empty values and the keys in `skip`. */
  function Surviving(ks: seq<string>, m: Params, skip: set<string>): seq<string>
    requires forall k | k in ks :: k in m
  {
    if ks == [] then []
    else
      var rest := Surviving(ks[1..], m, skip);
      if m[ks[0]] != "" && ks[0] !in skip then [ks[0]] + rest else rest
  }

  function Field(k: string, v: string): string {
    k + "=" + v
  }

  function Fields(ks: seq<string>, m: Params): (fs: seq<string>)
    requires forall k | k in ks :: k in m
    ensures |fs| == |ks| && forall i | 0 <= i < |ks| :: fs[i] == Field(ks[i], m[ks[i]])
  {
    if ks == [] then [] else [Field(ks[0], m[ks[0]])] + Fields(ks[1..], m)
  }

  lemma {:induction false} SurvivingKeys(ks: seq<string>, m: Params, skip: set<string>)
    requires forall k | k in ks :: k in m
    requires StrictlySorted(ks)
    ensures StrictlySorted(Surviving(ks, m, skip))
    ensures forall k :: k in Surviving(ks, m, skip) <==> k in ks && m[k] != "" && k !in skip
  {
    if ks != [] {
      SurvivingKeys(ks[1..], m, skip);
      assert ks == [ks[0]] + ks[1..];
      var rest := Surviving(ks[1..], m, skip);
      forall j | 0 <= j < |rest| ensures Less(ks[0], rest[j]) {
        assert rest[j] in ks[1..];
      }
    }
  }

  /** The ascending keys of the fields that get signed. */
  function SignedKeys(m: Params, skip: set<string>): (ks: seq<string>)
    ensures StrictlySorted(ks)
    ensures forall k :: k in ks <==> k in m && m[k] != "" && k !in skip
  {
    SurvivingKeys(SortedKeys(m.Keys), m, skip);
    Surviving(SortedKeys(m.Keys), m, skip)
  }

  function Content(m: Params, skip: set<string>): string {
    Join(Fields(SignedKeys(m, skip), m), "&")
  }

  const MERCHANT_SKIP: set<string> := {"sign", "sign_type"}
  const ALIPAY_SKIP: set<string> := {"sign"}

  /** `sign_content`, for the merchant protocol. */
  function MerchantContent(m: Params): string {
    Content(m, MERCHANT_SKIP)
  }

  /** `sign_content_alipay`, which also signs `sign_type`. */
  function AlipayContent(m: Params): string {
    Content(m, ALIPAY_SKIP)
  }

  /** `sign_md5`: the hexadecimal digest of the content followed by the key. */
  function SignMd5(md5Hex: string -> string, m: Params, key: string): string {
    md5Hex(MerchantContent(m) + key)
  }

  function VerifyMd5(md5Hex: string -> string, m: Params, key: string, signature: string): bool {
    SignMd5(md5Hex, m, key) == signature
  }

  // ---- what a sign string determines ----

  /** The part of a map that is signed. */
  function SignedPart(m: Params, skip: set<string>): Params {
    map k | k in m && m[k] != "" && k !in skip :: m[k]
  }

  /** Fields that the separators `&` and `=` cannot confuse. */
  ghost predicate Separable(m: Params) {
    forall k | k in m :: '=' !in k && '&' !in k && '&' !in m[k]
  }

  lemma FieldInjective(k: string, v: string, l: string, w: string)
    requires '=' !in k && '=' !in l && Field(k, v) == Field(l, w)
    ensures k == l && v == w
  {
    var s := Field(k, v);
    assert s == k + ['='] + v == l + ['='] + w;
    FindChar(k, '=', v);
    FindChar(l, '=', w);
    assert s[..|k|] == k && s[..|l|] == l;
    assert s[|k| + 1..] == v && s[|l| + 1..] == w;
  }

  lemma NonEmptyJoin(fs: seq<string>, sep: string)
    requires fs != [] && fs[0] != ""
    ensures Join(fs, sep) != ""
  {
  }

  lemma FieldsSeparable(m: Params, skip: set<string>)
    requires Separable(SignedPart(m, skip))
    ensures forall f | f in Fields(SignedKeys(m, skip), m) :: '&' !in f
  {
    var ks := SignedKeys(m, skip);
    forall i | 0 <= i < |ks| ensures '&' !in Fields(ks, m)[i] {
      assert ks[i] in SignedPart(m, skip);
    }
  }

  lemma FieldsAgree(m: Params, n: Params, skip: set<string>)
    requires Separable(SignedPart(m, skip)) && Separable(SignedPart(n, skip))
    requires Fields(SignedKeys(m, skip), m) == Fields(SignedKeys(n, skip), n)
    ensures SignedKeys(m, skip) == SignedKeys(n, skip)
    ensures forall k | k in SignedKeys(m, skip) :: m[k] == n[k]
  {
    var ks, ls := SignedKeys(m, skip), SignedKeys(n, skip);
    assert |ks| == |Fields(ks, m)| == |ls|;
    forall i | 0 <= i < |ks| ensures ks[i] == ls[i] && m[ks[i]] == n[ls[i]] {
      assert ks[i] in SignedPart(m, skip) && ls[i] in SignedPart(n, skip);
      assert Fields(ks, m)[i] == Fields(ls, n)[i];
      FieldInjective(ks[i], m[ks[i]], ls[i], n[ls[i]]);
    }
  }

  lemma SignedPartIsRestricted(m: Params, skip: set<string>)
    ensures SignedPart(m, skip) == Restricted(m, SignedKeys(m, skip))
  {
    var a, b := SignedPart(m, skip), Restricted(m, SignedKeys(m, skip));
    forall k ensures k in a <==> k in b {
      assert k in b <==> k in SignedKeys(m, skip) && k in m;
    }
  }

  lemma RestrictedEqual(m: Params, n: Params, ks: seq<string>)
    requires forall k | k in ks :: k in m && k in n && m[k] == n[k]
    ensures Restricted(m, ks) == Restricted(n, ks)
  {
  }

  lemma FieldsDetermine(m: Params, n: Params, skip: set<string>)
    requires Separable(SignedPart(m, skip)) && Separable(SignedPart(n, skip))
    requires Fields(SignedKeys(m, skip), m) == Fields(SignedKeys(n, skip), n)
    ensures SignedPart(m, skip) == SignedPart(n, skip)
  {
    FieldsAgree(m, n, skip);
    SignedPartIsRestricted(m, skip);
    SignedPartIsRestricted(n, skip);
    RestrictedEqual(m, n, SignedKeys(m, skip));
  }

  /** The content is a function of the signed part alone. */
  lemma SignedPartDetermines(m: Params, n: Params, skip: set<string>)
    requires SignedPart(m, skip) == SignedPart(n, skip)
    ensures Content(m, skip) == Content(n, skip)
  {
    var ks, ls := SignedKeys(m, skip), SignedKeys(n, skip);
    forall k ensures k in ks <==> k in ls {
      assert k in ks <==> k in SignedPart(m, skip);
      assert k in ls <==> k in SignedPart(n, skip);
    }
    SortedUnique(ks, ls);
    forall i | 0 <= i < |ks| ensures m[ks[i]] == n[ks[i]] {
      assert SignedPart(m, skip)[ks[i]] == SignedPart(n, skip)[ks[i]];
    }
    assert Fields(ks, m) == Fields(ls, n);
  }

  /** For separable fields, equal sign strings mean equal signed parts, and conversely. */
  lemma ContentInjective(m: Params, n: Params, skip: set<string>)
    requires Separable(SignedPart(m, skip)) && Separable(SignedPart(n, skip))
    ensures Content(m, skip) == Content(n, skip) <==> SignedPart(m, skip) == SignedPart(n, skip)
  {
    if SignedPart(m, skip) == SignedPart(n, skip) {
      SignedPartDetermines(m, n, skip);
    } else if Content(m, skip) == Content(n, skip) {
      var fs, gs := Fields(SignedKeys(m, skip), m), Fields(SignedKeys(n, skip), n);
      if fs != [] { NonEmptyJoin(fs, "&"); }
      if gs != [] { NonEmptyJoin(gs, "&"); }
      if fs != [] && gs != [] {
        FieldsSeparable(m, skip);
        FieldsSeparable(n, skip);
        SplitOfJoin(fs, '&');
        SplitOfJoin(gs, '&');
      }
      FieldsDetermine(m, n, skip);
    }
  }

  /** Adding the signature fields does not change what the merchant protocol signs. */
  lemma SignatureFieldsIgnored(m: Params, sign: string, signType: string)
    ensures MerchantContent(m["sign" := sign]["sign_type" := signType]) == MerchantContent(m)
    ensures AlipayContent(m["sign" := sign]) == AlipayContent(m)
  {
    var n := m["sign" := sign]["sign_type" := signType];
    assert SignedPart(n, MERCHANT_SKIP) == SignedPart(m, MERCHANT_SKIP);
    SignedPartDetermines(n, m, MERCHANT_SKIP);
    assert SignedPart(m["sign" := sign], ALIPAY_SKIP) == SignedPart(m, ALIPAY_SKIP);
    SignedPartDetermines(m["sign" := sign], m, ALIPAY_SKIP);
  }

  // ---- which fields are signed ----

  /** The value of a field; a field that is missing counts as empty. */
  function ValueOr(m: Params, k: string): string {
    if k in m then m[k] else ""
  }

  ghost predicate AgreeOutside(m: Params, n: Params, skip: set<string>) {
    forall k | k !in skip :: ValueOr(m, k) == ValueOr(n, k)
  }

  lemma SameSignedPart(m: Params, n: Params, skip: set<string>)
    ensures SignedPart(m, skip) == SignedPart(n, skip) <==> AgreeOutside(m, n, skip)
  {
    var a, b := SignedPart(m, skip), SignedPart(n, skip);
    if a == b {
      forall k | k !in skip ensures ValueOr(m, k) == ValueOr(n, k) {
        assert (k in a <==> k in b) && (k in a ==> a[k] == b[k]);
      }
    } else if AgreeOutside(m, n, skip) {
      forall k ensures (k in a <==> k in b) && (k in a ==> a[k] == b[k]) {
        assert k !in skip ==> ValueOr(m, k) == ValueOr(n, k);
      }
    }
  }

  /** The two maps say the same, but for the two signature fields. */
  ghost predicate SameForMerchant(m: Params, n: Params) {
    forall k | k != "sign" && k != "sign_type" :: ValueOr(m, k) == ValueOr(n, k)
  }

  ghost predicate SeparableForMerchant(m: Params) {
    forall k | k in m && m[k] != "" && k != "sign" && k != "sign_type" :: '=' !in k && '&' !in k && '&' !in m[k]
  }

  ghost predicate SameForAlipay(m: Params, n: Params) {
    forall k | k != "sign" :: ValueOr(m, k) == ValueOr(n, k)
  }

  ghost predicate SeparableForAlipay(m: Params) {
    forall k | k in m && m[k] != "" && k != "sign" :: '=' !in k && '&' !in k && '&' !in m[k]
  }

  /** The merchant's sign string covers every non-empty field but `sign` and `sign_type`. */
  lemma MerchantContentCovers(m: Params, n: Params)
    requires SeparableForMerchant(m) && SeparableForMerchant(n)
    ensures MerchantContent(m) == MerchantContent(n) <==> SameForMerchant(m, n)
  {
    assert forall k :: k in MERCHANT_SKIP <==> k == "sign" || k == "sign_type";
    ContentInjective(m, n, MERCHANT_SKIP);
    SameSignedPart(m, n, MERCHANT_SKIP);
  }

  /** The Alipay sign string covers every non-empty field but `sign`. */
  lemma AlipayContentCovers(m: Params, n: Params)
    requires SeparableForAlipay(m) && SeparableForAlipay(n)
    ensures AlipayContent(m) == AlipayContent(n) <==> SameForAlipay(m, n)
  {
    assert forall k :: k in ALIPAY_SKIP <==> k == "sign";
    ContentInjective(m, n, ALIPAY_SKIP);
    SameSignedPart(m, n, ALIPAY_SKIP);
  }

  ghost predicate IsInjective(digest: string -> string) {
    forall a, b | digest(a) == digest(b) :: a == b
  }

  lemma SameEnds(a: string, b: string, x: string, y: string)
    requires a + x == b + y && |x| == |y|
    ensures a == b && x == y
  {
    assert a == (a + x)[..|a|] && b == (b + y)[..|a|];
    assert x == (a + x)[|a|..] && y == (b + y)[|a|..];
  }

  /** With a digest without collisions and keys of one length, a signature verifies only under the key that made it, and
      only for the fields that were signed. */
  lemma MerchantSignatureBinds(md5Hex: string -> string, m: Params, key: string, n: Params, other: string)
    requires IsInjective(md5Hex) && |key| == |other| && SeparableForMerchant(m) && SeparableForMerchant(n)
    ensures VerifyMd5(md5Hex, n, other, SignMd5(md5Hex, m, key)) <==> key == other && SameForMerchant(m, n)
  {
    MerchantContentCovers(m, n);
    if VerifyMd5(md5Hex, n, other, SignMd5(md5Hex, m, key)) {
      SameEnds(MerchantContent(n), MerchantContent(m), other, key);
    }
  }

  lemma TwoSignedKeys(k: string, v: string, l: string, x: string, skip: set<string>)
    requires Less(k, l) && v != "" && x != "" && k !in skip && l !in skip
    ensures SignedKeys(map[k := v, l := x], skip) == [k, l]
  {
    var m := map[k := v, l := x];
    Trichotomy(k, l);
    forall j ensures j in SignedKeys(m, skip) <==> j in [k, l] {
    }
    SortedUnique(SignedKeys(m, skip), [k, l]);
  }

  lemma ContentOfTwo(k: string, v: string, l: string, x: string, skip: set<string>)
    requires Less(k, l) && v != "" && x != "" && k !in skip && l !in skip
    ensures Content(map[k := v, l := x], skip) == Field(k, v) + "&" + Field(l, x)
  {
    var m := map[k := v, l := x];
    Trichotomy(k, l);
    TwoSignedKeys(k, v, l, x, skip);
    assert Fields([k, l], m) == [Field(k, v)] + [Field(l, x)];
    JoinCons(Field(k, v), [Field(l, x)], "&");
  }

  /** The written form: `k=v` in ascending order of the keys, joined with `&`, and the key right behind. */
  lemma SignTextOfTwo(md5Hex: string -> string, k: string, v: string, l: string, x: string, key: string)
    requires Less(k, l) && v != "" && x != ""
    requires k != "sign" && k != "sign_type" && l != "sign" && l != "sign_type"
    ensures MerchantContent(map[k := v, l := x]) == k + "=" + v + "&" + (l + "=" + x)
    ensures AlipayContent(map[k := v, l := x]) == k + "=" + v + "&" + (l + "=" + x)
    ensures SignMd5(md5Hex, map[k := v, l := x], key) == md5Hex(k + "=" + v + "&" + (l + "=" + x) + key)
  {
    ContentOfTwo(k, v, l, x, MERCHANT_SKIP);
    ContentOfTwo(k, v, l, x, ALIPAY_SKIP);
  }
}
