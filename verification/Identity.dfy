/** The payload of the signed identity cookie. Byte strings are texts whose characters are below 256;
    the keyed hash is a parameter. */
module Identity {
  import opened Basics
  import opened Texts

  predicate Bytes(s: string) {
    forall i :: 0 <= i < |s| ==> s[i] as int < 256
  }

  const VERSION := "v1"

  // Escaping one field --------------------------------------------------------------------

  predicate Alnum(c: char) {
    'a' <= c <= 'z' || 'A' <= c <= 'Z' || '0' <= c <= '9'
  }

  function HexDigit(n: nat): char
    requires n < 16
  {
    if n < 10 then '0' + n as char else 'A' + (n - 10) as char
  }

  function HexValue(c: char): Option<nat> {
    if '0' <= c <= '9' then Some(c as int - '0' as int)
    else if 'A' <= c <= 'F' then Some(c as int - 'A' as int + 10)
    else if 'a' <= c <= 'f' then Some(c as int - 'a' as int + 10)
    else None
  }

  /** url.QueryEscape on one byte. */
  function EscapedByte(c: char): string
    requires c as int < 256
  {
    if Alnum(c) || c in {'-', '_', '.', '~'} then [c]
    else if c == ' ' then "+"
    else ['%', HexDigit(c as int / 16), HexDigit(c as int % 16)]
  }

  function QueryEscape(s: string): string
    requires Bytes(s)
  {
    if s == "" then "" else EscapedByte(s[0]) + QueryEscape(s[1..])
  }

  /** strings.ReplaceAll(s, ".", "%2E") */
  function ReplaceDots(s: string): string {
    if s == "" then "" else (if s[0] == '.' then "%2E" else [s[0]]) + ReplaceDots(s[1..])
  }

  /** artifactIdentityField */
  function Field(s: string): string
    requires Bytes(s)
  {
    ReplaceDots(QueryEscape(s))
  }

  /** url.QueryUnescape */
  function QueryUnescape(s: string): Option<string> {
    if s == "" then Some("")
    else if s[0] == '%' then
      if |s| < 3 || HexValue(s[1]).None? || HexValue(s[2]).None? then None
      else Prepend((16 * HexValue(s[1]).value + HexValue(s[2]).value) as char, QueryUnescape(s[3..]))
    else Prepend(if s[0] == '+' then ' ' else s[0], QueryUnescape(s[1..]))
  }

  function Prepend(c: char, rest: Option<string>): Option<string> {
    match rest
    case None => None
    case Some(s) => Some([c] + s)
  }

  // The cookie ------------------------------------------------------------------------------

  function Payload(uid: int, exp: int, username: string): string
    requires Bytes(username)
  {
    Join([VERSION, FormatInt(uid), FormatInt(exp), Field(username)], ':')
  }

  /** The payload of cookies from before the username was added. */
  function LegacyPayload(uid: int, exp: int): string {
    Join([FormatInt(uid), FormatInt(exp)], ':')
  }

  function Cookie(payload: string, sign: string -> string): string {
    payload + "." + sign(payload)
  }

  datatype Visitor = Visitor(uid: int, exp: int, username: string)

  /** strings.Cut at the first dot. */
  function Cut(s: string): Option<(string, string)> {
    if s == "" then None
    else if s[0] == '.' then Some(("", s[1..]))
    else
      match Cut(s[1..])
      case None => None
      case Some(p) => Some(([s[0]] + p.0, p.1))
  }

  /** The fields of a payload: uid, expiry and the decoded username. */
  function PayloadFields(payload: string): Option<(string, string, string)> {
    var fields := Split(payload, ':');
    if |fields| == 2 then Some((fields[0], fields[1], ""))
    else if |fields| == 4 && fields[0] == VERSION then
      match QueryUnescape(fields[3])
      case None => None
      case Some(username) => Some((fields[1], fields[2], username))
    else None
  }

  /** readCookie at the time `now`, in seconds and fractions of one. */
  function ReadCookie(value: string, now: real, sign: string -> string): Option<Visitor> {
    match Cut(value)
    case None => None
    case Some((payload, signature)) =>
      if payload == "" || signature == "" || sign(payload) != signature then None
      else
        match PayloadFields(payload)
        case None => None
        case Some((uidPart, expPart, username)) =>
          match (ParseInt64(uidPart), ParseInt64(expPart))
          case (Some(uid), Some(exp)) => if uid <= 0 || exp as real < now then None else Some(Visitor(uid, exp, username))
          case _ => None
  }

  // Escaped fields are harmless and reversible ------------------------------------------------

  predicate Plain(s: string) {
    '.' !in s && ':' !in s
  }

  lemma HexRoundTrip(n: nat)
    requires n < 256
    ensures HexValue(HexDigit(n / 16)) == Some(n / 16) && HexValue(HexDigit(n % 16)) == Some(n % 16)
    ensures Alnum(HexDigit(n / 16)) && Alnum(HexDigit(n % 16))
  {
  }

  lemma {:induction false} ReplaceDotsSplits(a: string, b: string)
    ensures ReplaceDots(a + b) == ReplaceDots(a) + ReplaceDots(b)
  {
    if a == "" {
      assert a + b == b;
    } else {
      assert (a + b)[1..] == a[1..] + b;
      ReplaceDotsSplits(a[1..], b);
    }
  }

  lemma {:induction false} KeepsDotless(s: string)
    requires '.' !in s
    ensures ReplaceDots(s) == s
  {
    if s != "" { KeepsDotless(s[1..]); }
  }

  lemma ByteRoundTrip(c: char, rest: string)
    requires c as int < 256
    ensures var e := ReplaceDots(EscapedByte(c)); Plain(e) && QueryUnescape(e + rest) == Prepend(c, QueryUnescape(rest))
  {
    HexRoundTrip(c as int);
    var e := EscapedByte(c);
    if |e| == 3 {
      KeepsDotless(e);
      assert (e + rest)[3..] == rest;
      assert (16 * (c as int / 16) + c as int % 16) == c as int;
    } else {
      assert e[1..] == "";
      if e == "." {
        assert ReplaceDots(e) == "%2E";
        assert ("%2E" + rest)[3..] == rest;
      } else {
        assert ReplaceDots(e) == e;
        assert (e + rest)[1..] == rest;
      }
    }
  }

  /** A field has no dot and no colon of its own, and decodes to the bytes it came from. */
  lemma {:induction false} FieldRoundTrip(s: string)
    requires Bytes(s)
    ensures Plain(Field(s)) && QueryUnescape(Field(s)) == Some(s)
  {
    if s != "" {
      FieldRoundTrip(s[1..]);
      ReplaceDotsSplits(EscapedByte(s[0]), QueryEscape(s[1..]));
      ByteRoundTrip(s[0], Field(s[1..]));
      assert [s[0]] + s[1..] == s;
    }
  }

  lemma FormatIsPlain(n: int)
    ensures Plain(FormatInt(n))
  {
    FormatIntParses(n);
    forall i | 0 <= i < |FormatInt(n)| ensures FormatInt(n)[i] != '.' && FormatInt(n)[i] != ':' {
      assert Digit(FormatInt(n)[i]) || FormatInt(n)[i] == '-';
    }
  }

  /** A v1 payload has no dot and splits into exactly its four fields. */
  lemma PayloadHasFourFields(uid: int, exp: int, username: string)
    requires Bytes(username)
    ensures '.' !in Payload(uid, exp, username)
    ensures Split(Payload(uid, exp, username), ':') == [VERSION, FormatInt(uid), FormatInt(exp), Field(username)]
  {
    FormatIsPlain(uid);
    FormatIsPlain(exp);
    FieldRoundTrip(username);
    var parts := [VERSION, FormatInt(uid), FormatInt(exp), Field(username)];
    SplitJoin(parts, ':');
    NoDots(parts);
  }

  /** A legacy payload has no dot and splits into two fields: it is never read as v1. */
  lemma LegacyHasTwoFields(uid: int, exp: int)
    ensures '.' !in LegacyPayload(uid, exp) && Split(LegacyPayload(uid, exp), ':') == [FormatInt(uid), FormatInt(exp)]
  {
    FormatIsPlain(uid);
    FormatIsPlain(exp);
    SplitJoin([FormatInt(uid), FormatInt(exp)], ':');
    NoDots([FormatInt(uid), FormatInt(exp)]);
  }

  lemma {:induction false} NoDots(parts: seq<string>)
    requires parts != [] && forall i :: 0 <= i < |parts| ==> '.' !in parts[i]
    ensures '.' !in Join(parts, ':')
  {
    if |parts| > 1 {
      NoDots(parts[1..]);
    }
  }

  lemma {:induction false} CutAtFirstDot(a: string, b: string)
    requires '.' !in a
    ensures Cut(a + "." + b) == Some((a, b))
  {
    var s := a + "." + b;
    if a == "" {
      assert s[1..] == b;
    } else {
      assert a[0] in a && s[0] == a[0];
      assert s[1..] == a[1..] + "." + b;
      CutAtFirstDot(a[1..], b);
      assert [a[0]] + a[1..] == a;
    }
  }

  /** The cookie issued for a user is read back as that user, expiry and name, until it expires. */
  lemma CookieRoundTrip(uid: int, exp: int, username: string, now: real, sign: string -> string)
    requires 0 < uid && IsInt64(uid) && IsInt64(exp) && Bytes(username) && sign(Payload(uid, exp, username)) != ""
    ensures ReadCookie(Cookie(Payload(uid, exp, username), sign), now, sign)
            == if now <= exp as real then Some(Visitor(uid, exp, username)) else None
  {
    var payload := Payload(uid, exp, username);
    PayloadHasFourFields(uid, exp, username);
    CutAtFirstDot(payload, sign(payload));
    FieldRoundTrip(username);
    FormatIntParses(uid);
    FormatIntParses(exp);
    assert payload != "" by { assert VERSION != "" && payload[0] == 'v'; }
  }

  /** A legacy cookie still reads as its user, without a name. */
  lemma LegacyRoundTrip(uid: int, exp: int, now: real, sign: string -> string)
    requires 0 < uid && IsInt64(uid) && IsInt64(exp) && sign(LegacyPayload(uid, exp)) != ""
    ensures ReadCookie(Cookie(LegacyPayload(uid, exp), sign), now, sign) == if now <= exp as real then Some(Visitor(uid, exp, "")) else None
  {
    var payload := LegacyPayload(uid, exp);
    LegacyHasTwoFields(uid, exp);
    CutAtFirstDot(payload, sign(payload));
    FormatIntParses(uid);
    FormatIntParses(exp);
  }

  /** Only a payload under its own signature is read, and what is read is positive and unexpired. */
  lemma ReadIsSigned(value: string, now: real, sign: string -> string)
    ensures var r := ReadCookie(value, now, sign);
      r.Some? ==> 0 < r.value.uid && now <= r.value.exp as real
                  && exists payload :: value == Cookie(payload, sign) && '.' !in payload && PayloadFields(payload).Some?
  {
    CutJoins(value);
    if ReadCookie(value, now, sign).Some? {
      var payload := Cut(value).value.0;
      assert value == Cookie(payload, sign);
    }
  }

  lemma {:induction false} CutJoins(s: string)
    ensures Cut(s).Some? ==> s == Cut(s).value.0 + "." + Cut(s).value.1 && '.' !in Cut(s).value.0
  {
    if s != "" && s[0] != '.' {
      CutJoins(s[1..]);
      assert [s[0]] + s[1..] == s;
    }
  }

  /** The payload says who the visitor is: a uid and an expiry and nothing else, or the version, both, and
      the escaped name. */
  predicate Tells(payload: string, v: Visitor) {
    var fields := Split(payload, ':');
    if |fields| == 2 then ParseInt64(fields[0]) == Some(v.uid) && ParseInt64(fields[1]) == Some(v.exp) && v.username == ""
    else |fields| == 4 && fields[0] == "v1" && ParseInt64(fields[1]) == Some(v.uid) && ParseInt64(fields[2]) == Some(v.exp)
         && QueryUnescape(fields[3]) == Some(v.username)
  }

  /** A cookie is read as a visitor exactly if it is a payload without a dot under its own signature, neither
      of them empty, that tells of that visitor, with a positive uid and an expiry that is not past. */
  lemma ReadExactly(value: string, now: real, sign: string -> string, v: Visitor)
    ensures ReadCookie(value, now, sign) == Some(v)
            <==> 0 < v.uid && now <= v.exp as real && exists payload :: Carries(value, payload, sign) && Tells(payload, v)
  {
    hide Split, ParseInt64, QueryUnescape, Cut;
    CutJoins(value);
    if ReadCookie(value, now, sign) == Some(v) {
      assert Carries(value, Cut(value).value.0, sign);
    }
    forall payload | Carries(value, payload, sign) ensures Cut(value) == Some((payload, sign(payload))) {
      CutAtFirstDot(payload, sign(payload));
    }
  }

  predicate Carries(value: string, payload: string, sign: string -> string) {
    value == payload + "." + sign(payload) && '.' !in payload && payload != "" && sign(payload) != ""
  }
}
