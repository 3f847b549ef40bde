/** Optional values and answers that may be an error. */
module Wrappers {
  datatype Option<+T> = None | Some(value: T)

  datatype Result<+T, +E> = Ok(value: T) | Err(error: E)
}

/** The string operations of the Rust standard library that the gateway relies on:
    searching, splitting, joining, trimming, and printing and reading decimal numbers. */
module Text {
  import opened Wrappers

  // ---- searching ----

  predicate OccursAt(s: string, p: string, i: int) {
    0 <= i && i + |p| <= |s| && s[i..i + |p|] == p
  }

  ghost predicate Occurs(s: string, p: string) {
    exists i :: OccursAt(s, p, i)
  }

  function FindFrom(s: string, p: string, i: nat): (r: Option<nat>)
    requires i <= |s|
    ensures r.Some? ==> r.value + |p| <= |s|
    decreases |s| - i
  {
    if OccursAt(s, p, i) then Some(i)
    else if i == |s| then None
    else FindFrom(s, p, i + 1)
  }

  /** `str::find`. */
  function Find(s: string, p: string): (r: Option<nat>) {
    FindFrom(s, p, 0)
  }

  lemma {:induction false} FindFromSpec(s: string, p: string, i: nat)
    requires i <= |s|
    ensures var r := FindFrom(s, p, i);
            if r.Some? then i <= r.value && OccursAt(s, p, r.value) && forall j | i <= j < r.value :: !OccursAt(s, p, j)
            else forall j | i <= j :: !OccursAt(s, p, j)
    decreases |s| - i
  {
    if !OccursAt(s, p, i) && i < |s| {
      FindFromSpec(s, p, i + 1);
    }
  }

  /** `Find` gives the first place where `p` occurs in `s`, if there is one. */
  lemma FindIsFirst(s: string, p: string)
    ensures var r := Find(s, p);
            if r.Some? then OccursAt(s, p, r.value) && forall j | j < r.value :: !OccursAt(s, p, j)
            else !Occurs(s, p)
  {
    FindFromSpec(s, p, 0);
  }

  lemma FirstOccurrence(s: string, p: string, i: nat)
    requires OccursAt(s, p, i)
    requires forall j | 0 <= j < i :: !OccursAt(s, p, j)
    ensures Find(s, p) == Some(i)
  {
    FindIsFirst(s, p);
    assert Occurs(s, p);
  }

  lemma FindChar(p: string, c: char, rest: string)
    requires c !in p
    ensures Find(p + [c] + rest, [c]) == Some(|p|)
  {
    var s := p + [c] + rest;
    forall j | 0 <= j < |p| ensures !OccursAt(s, [c], j) {
      assert s[j..j + 1][0] == p[j];
    }
    assert s[|p|..|p| + 1] == [c];
    FirstOccurrence(s, [c], |p|);
  }

  lemma OccurrenceChars(s: string, p: string, j: int)
    ensures OccursAt(s, p, j) ==> forall x | 0 <= x < |p| :: p[x] == s[j + x]
  {
  }

  lemma FindNone(s: string, c: char)
    requires c !in s
    ensures Find(s, [c]) == None
  {
    forall j ensures !OccursAt(s, [c], j) {
      OccurrenceChars(s, [c], j);
      assert [c][0] == c;
    }
    FindIsFirst(s, [c]);
  }

  lemma OccurrenceInside(a: string, s: string, b: string, p: string, j: int)
    requires |a| <= j && j + |p| <= |a| + |s|
    ensures OccursAt(a + s + b, p, j) ==> OccursAt(s, p, j - |a|)
  {
    OccurrenceChars(a + s + b, p, j);
    var i := j - |a|;
    if OccursAt(a + s + b, p, j) {
      assert forall x | 0 <= x < |p| :: p[x] == s[i + x];
    }
  }

  lemma SliceOfSlice(s: string, i: nat, j: nat, k: nat, l: nat)
    requires i <= j <= |s| && k <= l <= j - i
    ensures s[i..j][k..l] == s[i + k..i + l]
  {
    var t := s[i..j];
    var a, b := t[k..l], s[i + k..i + l];
    forall x | 0 <= x < |a| ensures a[x] == b[x] {
      assert t[k + x] == s[i + (k + x)];
    }
  }

  ghost predicate IsSlice(r: string, s: string) {
    exists i, j :: 0 <= i <= j <= |s| && r == s[i..j]
  }

  lemma SliceTransitive(q: string, r: string, s: string)
    requires IsSlice(q, r) && IsSlice(r, s)
    ensures IsSlice(q, s)
  {
    var i, j :| 0 <= i <= j <= |s| && r == s[i..j];
    var k, l :| 0 <= k <= l <= |r| && q == r[k..l];
    SliceOfSlice(s, i, j, k, l);
  }

  lemma OccursInSlice(r: string, s: string, p: string)
    requires IsSlice(r, s) && Occurs(r, p)
    ensures Occurs(s, p)
  {
    var i, j :| 0 <= i <= j <= |s| && r == s[i..j];
    var k :| OccursAt(r, p, k);
    SliceOfSlice(s, i, j, k, k + |p|);
    assert OccursAt(s, p, i + k);
  }

  lemma NoneBeforeFirst(s: string, p: string, pos: nat)
    requires p != "" && Find(s, p) == Some(pos)
    ensures pos + |p| <= |s| && !Occurs(s[..pos], p)
  {
    FindIsFirst(s, p);
    if Occurs(s[..pos], p) {
      var x :| OccursAt(s[..pos], p, x);
      SliceOfSlice(s, 0, pos, x, x + |p|);
      assert OccursAt(s, p, x);
    }
  }

  predicate StartsWith(s: string, p: string) {
    |p| <= |s| && s[..|p|] == p
  }

  lemma PrefixChars(s: string, p: string)
    ensures StartsWith(s, p) ==> forall i | 0 <= i < |p| :: s[i] == p[i]
  {
  }

  predicate EndsWith(s: string, p: string) {
    |p| <= |s| && s[|s| - |p|..] == p
  }

  // ---- trimming ----

  /** `char::is_whitespace`: the Unicode property White_Space. */
  predicate IsWhitespace(c: char) {
    var n := c as int;
    0x09 <= n <= 0x0D || n == 0x20 || n == 0x85 || n == 0xA0 || n == 0x1680 || 0x2000 <= n <= 0x200A
    || n == 0x2028 || n == 0x2029 || n == 0x202F || n == 0x205F || n == 0x3000
  }

  function TrimStart(s: string): (r: string)
    ensures EndsWith(s, r)
    ensures r == "" || !IsWhitespace(r[0])
  {
    if s != "" && IsWhitespace(s[0]) then
      var r := TrimStart(s[1..]);
      assert s[1..][|s[1..]| - |r|..] == s[|s| - |r|..];
      r
    else
      s
  }

  function TrimEnd(s: string): (r: string)
    ensures StartsWith(s, r)
    ensures r == "" || !IsWhitespace(r[|r| - 1])
  {
    if s != "" && IsWhitespace(s[|s| - 1]) then
      var r := TrimEnd(s[..|s| - 1]);
      assert s[..|s| - 1][..|r|] == s[..|r|];
      r
    else
      s
  }

  function Trim(s: string): string {
    TrimEnd(TrimStart(s))
  }

  lemma TrimNothing(s: string)
    requires s == "" || (!IsWhitespace(s[0]) && !IsWhitespace(s[|s| - 1]))
    ensures Trim(s) == s
  {
  }

  // ---- splitting at a character and joining ----

  function Split(s: string, c: char): (parts: seq<string>)
    ensures |parts| > 0
    ensures forall p | p in parts :: c !in p
  {
    if s == "" then [""]
    else
      var rest := Split(s[1..], c);
      if s[0] == c then [""] + rest else [[s[0]] + rest[0]] + rest[1..]
  }

  function Join(parts: seq<string>, sep: string): string {
    if parts == [] then ""
    else if |parts| == 1 then parts[0]
    else parts[0] + sep + Join(parts[1..], sep)
  }

  lemma {:induction false} SplitHead(p: string, rest: string, c: char)
    requires c !in p
    ensures Split(p + [c] + rest, c) == [p] + Split(rest, c)
  {
    if p == "" {
      assert (p + [c] + rest)[1..] == rest;
    } else {
      SplitHead(p[1..], rest, c);
      assert (p + [c] + rest)[1..] == p[1..] + [c] + rest;
      assert p == [p[0]] + p[1..];
    }
  }

  lemma {:induction false} SplitConcat(a: string, b: string, c: char)
    ensures Split(a + [c] + b, c) == Split(a, c) + Split(b, c)
  {
    if a == "" {
      assert (a + [c] + b)[1..] == b;
    } else {
      var s := a + [c] + b;
      var front, back := Split(a[1..], c), Split(b, c);
      SplitConcat(a[1..], b, c);
      assert s[1..] == a[1..] + [c] + b && s[0] == a[0];
      if a[0] == c {
        assert [""] + (front + back) == ([""] + front) + back;
      } else {
        assert (front + back)[0] == front[0] && (front + back)[1..] == front[1..] + back;
      }
    }
  }

  lemma {:induction false} SplitWhole(p: string, c: char)
    requires c !in p
    ensures Split(p, c) == [p]
  {
    if p != "" {
      SplitWhole(p[1..], c);
      assert p == [p[0]] + p[1..];
    }
  }

  lemma {:induction false} SplitOfJoin(parts: seq<string>, c: char)
    requires parts != [] && forall p | p in parts :: c !in p
    ensures Split(Join(parts, [c]), c) == parts
  {
    if |parts| == 1 {
      SplitWhole(parts[0], c);
    } else {
      SplitOfJoin(parts[1..], c);
      SplitHead(parts[0], Join(parts[1..], [c]), c);
      assert parts == [parts[0]] + parts[1..];
    }
  }

  lemma Assoc(a: string, b: string, c: string)
    ensures a + b + c == a + (b + c)
  {
  }

  lemma PushThree(x: string, a: string, b: string, c: string)
    ensures x + a + b + c == x + (a + b + c)
  {
    Assoc(x, a, b);
    Assoc(x, a + b, c);
  }

  lemma {:induction false} JoinSnoc(parts: seq<string>, last: string, sep: string)
    requires parts != []
    ensures Join(parts + [last], sep) == Join(parts, sep) + (sep + last)
  {
    var longer, rest := parts + [last], parts[1..];
    assert longer[1..] == rest + [last];
    if rest == [] {
      assert longer[1..] == [last];
      Assoc(parts[0], sep, last);
    } else {
      JoinSnoc(rest, last, sep);
      Assoc(parts[0] + sep, Join(rest, sep), sep + last);
    }
  }

  lemma JoinCons(part: string, rest: seq<string>, sep: string)
    requires rest != []
    ensures Join([part] + rest, sep) == part + sep + Join(rest, sep)
  {
    assert ([part] + rest)[1..] == rest;
  }

  lemma JoinFirst(c: char, part: string, rest: seq<string>, sep: string)
    ensures Join([[c] + part] + rest, sep) == [c] + Join([part] + rest, sep)
  {
    if rest != [] {
      JoinCons([c] + part, rest, sep);
      JoinCons(part, rest, sep);
      Assoc([c], part, sep);
      Assoc([c], part + sep, Join(rest, sep));
    }
  }

  lemma {:induction false} JoinOfSplit(s: string, c: char)
    ensures Join(Split(s, c), [c]) == s
  {
    if s != "" {
      var rest := Split(s[1..], c);
      JoinOfSplit(s[1..], c);
      assert s == [s[0]] + s[1..];
      if s[0] == c {
        JoinCons("", rest, [c]);
      } else {
        assert rest == [rest[0]] + rest[1..];
        JoinFirst(s[0], rest[0], rest[1..], [c]);
      }
    }
  }

  // ---- decimal numbers ----

  const I64_MAX: int := 0x7FFF_FFFF_FFFF_FFFF
  const I64_MIN: int := -0x8000_0000_0000_0000

  predicate IsDigit(c: char) {
    '0' <= c <= '9'
  }

  predicate AllDigits(s: string) {
    forall i | 0 <= i < |s| :: IsDigit(s[i])
  }

  function DigitValue(c: char): (d: nat)
    requires IsDigit(c)
    ensures d < 10
  {
    c as int - '0' as int
  }

  function DigitChar(d: nat): (c: char)
    requires d < 10
    ensures IsDigit(c) && DigitValue(c) == d
  {
    ('0' as int + d) as char
  }

  /** The decimal text of a number, without leading zeros. */
  function Decimal(n: nat): (s: string)
    ensures s != "" && AllDigits(s)
  {
    if n < 10 then [DigitChar(n)] else Decimal(n / 10) + [DigitChar(n % 10)]
  }

  /** The number that a run of digits denotes; leading zeros are allowed. */
  function Value(s: string): nat
    requires AllDigits(s)
  {
    if s == "" then 0 else Value(s[..|s| - 1]) * 10 + DigitValue(s[|s| - 1])
  }

  /** `i64::to_string`. */
  function PrintInt(n: int): string {
    if n < 0 then "-" + Decimal(-n) else Decimal(n)
  }

  /** `str::parse::<i64>`: one optional sign, at least one digit, and a value in range. */
  function ParseI64(s: string): Option<int> {
    var digits := if s != "" && (s[0] == '-' || s[0] == '+') then s[1..] else s;
    if digits == "" || !AllDigits(digits) then None
    else
      var n: int := if s[0] == '-' then -(Value(digits) as int) else Value(digits);
      if I64_MIN <= n <= I64_MAX then Some(n) else None
  }

  predicate NoLeadingZero(s: string) {
    |s| == 1 || (s != "" && s[0] != '0')
  }

  lemma {:induction false} ValueOfDecimal(n: nat)
    ensures Value(Decimal(n)) == n
    ensures NoLeadingZero(Decimal(n))
    ensures n > 0 ==> Decimal(n)[0] != '0'
  {
    if n < 10 {
      assert Decimal(n)[..0] == "";
    } else {
      ValueOfDecimal(n / 10);
      assert Decimal(n)[..|Decimal(n)| - 1] == Decimal(n / 10);
    }
  }

  lemma DecimalSnoc(n: nat, d: nat)
    requires n > 0 && d < 10
    ensures Decimal(n * 10 + d) == Decimal(n) + [DigitChar(d)]
  {
    assert (n * 10 + d) / 10 == n && (n * 10 + d) % 10 == d;
  }

  lemma DigitBack(c: char)
    requires IsDigit(c)
    ensures DigitChar(DigitValue(c)) == c
  {
  }

  lemma {:induction false} DecimalOfValue(s: string)
    requires AllDigits(s) && NoLeadingZero(s)
    ensures Decimal(Value(s)) == s
    ensures s[0] != '0' ==> Value(s) > 0
  {
    var front, last := s[..|s| - 1], s[|s| - 1];
    assert s == front + [last];
    DigitBack(last);
    if |s| > 1 {
      assert front[0] == s[0];
      DecimalOfValue(front);
      DecimalSnoc(Value(front), DigitValue(last));
    } else {
      assert Value(front) == 0;
    }
  }

  lemma ParseOfDigits(s: string)
    requires s != "" && AllDigits(s)
    ensures ParseI64(s) == if Value(s) <= I64_MAX then Some(Value(s) as int) else None
  {
    assert IsDigit(s[0]);
  }

  lemma ParseOfPrint(n: int)
    requires I64_MIN <= n <= I64_MAX
    ensures ParseI64(PrintInt(n)) == Some(n)
  {
    if n < 0 {
      ValueOfDecimal(-n);
      assert PrintInt(n)[1..] == Decimal(-n);
    } else {
      ValueOfDecimal(n);
      ParseOfDigits(Decimal(n));
    }
  }

  lemma PrintHasNo(n: int, c: char)
    requires c != '-' && !IsDigit(c)
    ensures c !in PrintInt(n)
  {
    var digits := Decimal(if n < 0 then -n else n);
    assert c !in digits;
  }

  /** Two's complement wrap-around of a 64-bit signed sum. */
  function WrapI64(n: int): (r: int)
    ensures I64_MIN <= r <= I64_MAX
    ensures I64_MIN <= n <= I64_MAX ==> r == n
    ensures (r - n) % 0x1_0000_0000_0000_0000 == 0
  {
    (n - I64_MIN) % 0x1_0000_0000_0000_0000 + I64_MIN
  }

  // ---- what the readers accept ----

  /** An optional plus sign and digits, or a minus sign and digits, that denote the number. */
  ghost predicate WritesInt(s: string, n: int) {
    exists digits :: digits != "" && AllDigits(digits)
      && ((s == digits && n == Value(digits)) || (s == "+" + digits && n == Value(digits))
          || (s == "-" + digits && n == -(Value(digits) as int)))
  }

  lemma ParseI64Reads(s: string, n: int)
    ensures ParseI64(s) == Some(n) <==> I64_MIN <= n <= I64_MAX && WritesInt(s, n)
  {
    if ParseI64(s) == Some(n) {
      var digits := if s[0] == '-' || s[0] == '+' then s[1..] else s;
      assert s == (if s[0] == '-' then "-" + digits else if s[0] == '+' then "+" + digits else digits);
      assert digits != "" && AllDigits(digits);
    }
    if WritesInt(s, n) {
      var digits :| digits != "" && AllDigits(digits)
        && ((s == digits && n == Value(digits)) || (s == "+" + digits && n == Value(digits))
            || (s == "-" + digits && n == -(Value(digits) as int)));
      assert IsDigit(digits[0]);
      if s != digits { assert s[1..] == digits; }
    }
  }

  /** White space around a text that has none at its ends is trimmed away, and nothing else. */
  lemma {:induction false} TrimStartOf(a: string, v: string)
    requires (forall i | 0 <= i < |a| :: IsWhitespace(a[i])) && v != "" && !IsWhitespace(v[0])
    ensures TrimStart(a + v) == v
  {
    if a == "" {
      assert a + v == v;
    } else {
      TrimStartOf(a[1..], v);
      assert (a + v)[1..] == a[1..] + v;
    }
  }

  lemma {:induction false} TrimEndOf(v: string, b: string)
    requires (forall i | 0 <= i < |b| :: IsWhitespace(b[i])) && v != "" && !IsWhitespace(v[|v| - 1])
    ensures TrimEnd(v + b) == v
  {
    if b == "" {
      assert v + b == v;
    } else {
      TrimEndOf(v, b[..|b| - 1]);
      assert (v + b)[..|v + b| - 1] == v + b[..|b| - 1];
    }
  }

  lemma TrimSpaces(a: string, v: string, b: string)
    requires (forall i | 0 <= i < |a| :: IsWhitespace(a[i])) && (forall i | 0 <= i < |b| :: IsWhitespace(b[i]))
    requires v != "" && !IsWhitespace(v[0]) && !IsWhitespace(v[|v| - 1])
    ensures Trim(a + (v + b)) == v
  {
    TrimStartOf(a, v + b);
    TrimEndOf(v, b);
  }
}
