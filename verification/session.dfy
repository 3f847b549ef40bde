/** Signed session tokens `subject.role.expiry.hmac` (src/session.rs). */
module Session {
  import opened Wrappers
  import opened Text

  datatype Role = Admin | Merchant

  function RoleText(r: Role): string {
    match r
    case Admin => "admin"
    case Merchant => "merchant"
  }

  function RoleOf(s: string): Option<Role> {
    if s == "admin" then Some(Admin) else if s == "merchant" then Some(Merchant) else None
  }

  function Payload(subject: string, role: Role, expiry: int): string {
    subject + "." + RoleText(role) + "." + PrintInt(expiry)
  }

  /** `encode`, with the clock as a parameter; the expiry is a wrapping 64-bit sum. */
  function Encode(mac: string -> string, subject: string, role: Role, ttl: int, now: int): string {
    var payload := Payload(subject, role, WrapI64(now + ttl));
    payload + "." + mac(payload)
  }

  /** `rsplitn(2, '.')`: the text before and after the last dot. */
  function SplitLast(s: string): Option<(string, string)> {
    if s == "" then None
    else if s[|s| - 1] == '.' then Some((s[..|s| - 1], ""))
    else
      match SplitLast(s[..|s| - 1])
      case None => None
      case Some((before, after)) => Some((before, after + [s[|s| - 1]]))
  }

  /** `decode`, with the clock as a parameter. */
  function Decode(mac: string -> string, token: string, now: int): Option<(string, Role)> {
    match SplitLast(token)
    case None => None
    case Some((payload, sig)) =>
      if sig != mac(payload) then None
      else
        var fields := Split(payload, '.');
        if |fields| < 2 then None
        else
          match RoleOf(fields[1])
          case None => None
          case Some(role) =>
            if |fields| < 3 then None
            else
              match ParseI64(fields[2])
              case None => None
              case Some(expiry) => if now > expiry then None else Some((fields[0], role))
  }

  lemma {:induction false} SplitLastOf(payload: string, sig: string)
    requires '.' !in sig
    ensures SplitLast(payload + "." + sig) == Some((payload, sig))
  {
    var s := payload + "." + sig;
    if sig == "" {
      assert s[..|s| - 1] == payload;
    } else {
      var front := sig[..|sig| - 1];
      assert s[..|s| - 1] == payload + "." + front;
      SplitLastOf(payload, front);
      assert sig == front + [sig[|sig| - 1]];
    }
  }

  lemma {:induction false} SplitLastParts(s: string)
    ensures SplitLast(s).Some? ==> s == SplitLast(s).value.0 + "." + SplitLast(s).value.1
  {
    if s != "" {
      var front := s[..|s| - 1];
      SplitLastParts(front);
      assert s == front + [s[|s| - 1]];
    }
  }

  lemma PayloadFields(subject: string, role: Role, expiry: int)
    ensures Split(Payload(subject, role, expiry), '.')
         == Split(subject, '.') + [RoleText(role), PrintInt(expiry)]
  {
    PrintHasNo(expiry, '.');
    SplitThree(subject, RoleText(role), PrintInt(expiry), '.');
  }

  lemma SplitThree(a: string, b: string, d: string, c: char)
    requires c !in b && c !in d
    ensures Split(a + [c] + b + [c] + d, c) == Split(a, c) + [b, d]
  {
    SplitWhole(d, c);
    SplitHead(b, d, c);
    SplitConcat(a, b + [c] + d, c);
    assert a + [c] + b + [c] + d == a + [c] + (b + [c] + d);
    assert Split(a, c) + ([b] + [d]) == Split(a, c) + [b, d];
  }

  /** A token decodes to the subject and role it was made for exactly when the subject has no dot and the
      expiry has not passed. */
  lemma RoundTrip(mac: string -> string, subject: string, role: Role, ttl: int, made: int, now: int)
    requires forall p :: '.' !in mac(p)
    ensures Decode(mac, Encode(mac, subject, role, ttl, made), now) == Some((subject, role))
       <==> '.' !in subject && now <= WrapI64(made + ttl)
  {
    var expiry := WrapI64(made + ttl);
    var payload := Payload(subject, role, expiry);
    SplitLastOf(payload, mac(payload));
    PayloadFields(subject, role, expiry);
    ParseOfPrint(expiry);
    if '.' !in subject {
      SplitWhole(subject, '.');
    } else {
      assert Split(payload, '.')[0] == Split(subject, '.')[0];
      assert '.' !in Split(subject, '.')[0];
    }
  }

  /** Dot-free subjects give distinct payloads for distinct sessions. */
  lemma PayloadInjective(s: string, r: Role, e: int, s': string, r': Role, e': int)
    requires '.' !in s && '.' !in s' && I64_MIN <= e <= I64_MAX && I64_MIN <= e' <= I64_MAX
    requires Payload(s, r, e) == Payload(s', r', e')
    ensures s == s' && r == r' && e == e'
  {
    SplitWhole(s, '.');
    SplitWhole(s', '.');
    PayloadFields(s, r, e);
    PayloadFields(s', r', e');
    var f, f' := Split(Payload(s, r, e), '.'), Split(Payload(s', r', e'), '.');
    assert f[0] == s && f'[0] == s' && f[1] == RoleText(r) && f'[1] == RoleText(r');
    assert f[2] == PrintInt(e) && f'[2] == PrintInt(e');
    ParseOfPrint(e);
    ParseOfPrint(e');
  }

  /** The tokens that can be accepted: dot-separated fields followed by their own signature. */
  ghost predicate IsAccepted(mac: string -> string, fields: seq<string>, token: string, subject: string,
                             role: Role, now: int)
  {
    && |fields| >= 3 && (forall f | f in fields :: '.' !in f)
    && token == Join(fields, ".") + "." + mac(Join(fields, "."))
    && fields[0] == subject && fields[1] == RoleText(role)
    && ParseI64(fields[2]).Some? && now <= ParseI64(fields[2]).value
  }

  /** Nothing decodes but a signed, unexpired token whose leading fields name the subject and the role. */
  lemma DecodesExactly(mac: string -> string, token: string, subject: string, role: Role, now: int)
    requires forall p :: '.' !in mac(p)
    ensures Decode(mac, token, now) == Some((subject, role))
       <==> exists fields :: IsAccepted(mac, fields, token, subject, role, now)
  {
    if Decode(mac, token, now) == Some((subject, role)) {
      var (payload, sig) := SplitLast(token).value;
      SplitLastParts(token);
      JoinOfSplit(payload, '.');
      assert IsAccepted(mac, Split(payload, '.'), token, subject, role, now);
    }
    forall fields | IsAccepted(mac, fields, token, subject, role, now)
      ensures Decode(mac, token, now) == Some((subject, role))
    {
      var payload := Join(fields, ".");
      SplitLastOf(payload, mac(payload));
      SplitOfJoin(fields, '.');
      assert RoleOf(RoleText(role)) == Some(role);
    }
  }

  /** The written form of a token. */
  lemma TokenText(mac: string -> string, subject: string, role: Role, ttl: int, now: int)
    requires I64_MIN <= now + ttl <= I64_MAX
    ensures var payload := subject + "." + (if role == Admin then "admin" else "merchant") + "." + PrintInt(now + ttl);
            Encode(mac, subject, role, ttl, now) == payload + "." + mac(payload)
  {
  }
}
