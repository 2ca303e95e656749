/** JSON Pointer (RFC 6901) as the runtime patch code parses it. */
module JsonPointer {
  import opened Basics
  import opened Texts

  // Printing, as sections 3 and 4 of RFC 6901 define it ---------------------------

  function EscapedChar(c: char): string {
    if c == '~' then "~0" else if c == '/' then "~1" else [c]
  }

  function Escape(segment: string): string {
    if segment == "" then "" else EscapedChar(segment[0]) + Escape(segment[1..])
  }

  function Print(segments: seq<string>): string {
    if segments == [] then "" else "/" + Escape(segments[0]) + Print(segments[1..])
  }

  // Parsing -----------------------------------------------------------------------

  function Unescape(part: string): Option<string> {
    if part == "" then Some("")
    else if part[0] != '~' then Prepend(part[0], Unescape(part[1..]))
    else if |part| < 2 || (part[1] != '0' && part[1] != '1') then None
    else Prepend(if part[1] == '0' then '~' else '/', Unescape(part[2..]))
  }

  function Prepend(c: char, rest: Option<string>): Option<string> {
    match rest
    case None => None
    case Some(s) => Some([c] + s)
  }

  function UnescapeAll(parts: seq<string>): Option<seq<string>> {
    if parts == [] then Some([])
    else
      match (Unescape(parts[0]), UnescapeAll(parts[1..]))
      case (Some(first), Some(rest)) => Some([first] + rest)
      case _ => None
  }

  const MAX_BYTES := 1024
  const MAX_SEGMENTS := 64

  function Parse(s: string): Option<seq<string>> {
    if ByteLen(s) > MAX_BYTES then None
    else if s == "" then Some([])
    else if s[0] != '/' then None
    else
      var parts := Split(s[1..], '/');
      if |parts| > MAX_SEGMENTS then None else UnescapeAll(parts)
  }

  /** The inner loop, over one part: `decoded` is the builder. */
  method DecodePart(part: string) returns (segment: Option<string>)
    ensures segment == Unescape(part)
  {
    var decoded := "";
    var offset := 0;
    assert part[0..] == part;
    assert Unescape(part).Some? ==> "" + Unescape(part).value == Unescape(part).value;
    while offset < |part|
      invariant offset <= |part|
      invariant Unescape(part) == Append(decoded, Unescape(part[offset..]))
    {
      if part[offset] != '~' {
        assert part[offset..][1..] == part[offset + 1..];
        AppendNext(decoded, part[offset], Unescape(part[offset + 1..]));
        decoded := decoded + [part[offset]];
        offset := offset + 1;
        continue;
      }
      if offset + 1 >= |part| || (part[offset + 1] != '0' && part[offset + 1] != '1') {
        return None;
      }
      offset := offset + 1;
      assert part[offset - 1..][2..] == part[offset + 1..];
      var c := if part[offset] == '0' then '~' else '/';
      AppendNext(decoded, c, Unescape(part[offset + 1..]));
      decoded := decoded + [c];
      offset := offset + 1;
    }
    assert decoded + "" == decoded;
    segment := Some(decoded);
  }

  function Append(decoded: string, rest: Option<string>): Option<string> {
    match rest
    case None => None
    case Some(s) => Some(decoded + s)
  }

  lemma AppendNext(decoded: string, c: char, rest: Option<string>)
    ensures Append(decoded, Prepend(c, rest)) == Append(decoded + [c], rest)
  {
    if rest.Some? {
      assert decoded + ([c] + rest.value) == decoded + [c] + rest.value;
    }
  }

  /** artifactRuntimeJSONPointer */
  method Decode(s: string) returns (segments: Option<seq<string>>)
    ensures segments == Parse(s)
  {
    if ByteLen(s) > MAX_BYTES {
      return None;
    }
    if s == "" {
      return Some([]);
    }
    if s[0] != '/' {
      return None;
    }
    var parts := Split(s[1..], '/');
    if |parts| > MAX_SEGMENTS {
      return None;
    }
    var decoded: seq<string> := [];
    var index := 0;
    assert parts[0..] == parts;
    assert UnescapeAll(parts).Some? ==> [] + UnescapeAll(parts).value == UnescapeAll(parts).value;
    while index < |parts|
      invariant index <= |parts|
      invariant UnescapeAll(parts) == AppendAll(decoded, UnescapeAll(parts[index..]))
    {
      assert parts[index..][1..] == parts[index + 1..];
      var part := DecodePart(parts[index]);
      if part.None? {
        return None;
      }
      AppendAllNext(decoded, part.value, UnescapeAll(parts[index + 1..]));
      decoded := decoded + [part.value];
      index := index + 1;
    }
    assert decoded + [] == decoded;
    segments := Some(decoded);
  }

  function AppendAll(decoded: seq<string>, rest: Option<seq<string>>): Option<seq<string>> {
    match rest
    case None => None
    case Some(s) => Some(decoded + s)
  }

  lemma AppendAllNext(decoded: seq<string>, part: string, rest: Option<seq<string>>)
    ensures AppendAll(decoded, if rest.Some? then Some([part] + rest.value) else None) == AppendAll(decoded + [part], rest)
  {
    if rest.Some? {
      assert decoded + ([part] + rest.value) == decoded + [part] + rest.value;
    }
  }

  // Printing and parsing are inverse ------------------------------------------------

  lemma {:induction false} UnescapeEscape(segment: string)
    ensures Unescape(Escape(segment)) == Some(segment) && '/' !in Escape(segment)
  {
    if segment != "" {
      UnescapeEscape(segment[1..]);
      var first, rest := EscapedChar(segment[0]), Escape(segment[1..]);
      assert (first + rest)[|first|..] == rest;
      assert [segment[0]] + segment[1..] == segment;
    }
  }

  lemma {:induction false} EscapeUnescape(part: string)
    requires '/' !in part
    ensures Unescape(part).Some? ==> Escape(Unescape(part).value) == part
    decreases |part|
  {
    if part != "" && Unescape(part).Some? {
      var n := if part[0] == '~' then 2 else 1;
      EscapeUnescape(part[n..]);
      var segment := Unescape(part).value;
      assert segment[1..] == Unescape(part[n..]).value;
      assert EscapedChar(segment[0]) == part[..n];
      assert part[..n] + part[n..] == part;
    }
  }

  /** Printed pointers are the joined escapes. */
  lemma {:induction false} PrintIsJoin(segments: seq<string>, parts: seq<string>)
    requires segments != [] && |parts| == |segments|
    requires forall i :: 0 <= i < |segments| ==> parts[i] == Escape(segments[i])
    ensures Print(segments) == "/" + Join(parts, '/')
  {
    if |segments| > 1 {
      PrintIsJoin(segments[1..], parts[1..]);
    } else {
      assert Print(segments[1..]) == "";
    }
  }

  lemma {:induction false} UnescapeAllExactly(parts: seq<string>, segments: seq<string>)
    requires Without(parts, '/')
    ensures UnescapeAll(parts) == Some(segments)
            <==> |parts| == |segments| && forall i :: 0 <= i < |segments| ==> parts[i] == Escape(segments[i])
  {
    if parts != [] && segments != [] {
      UnescapeAllExactly(parts[1..], segments[1..]);
      UnescapeEscape(segments[0]);
      EscapeUnescape(parts[0]);
      if forall i :: 0 <= i < |segments| ==> |parts| == |segments| && parts[i] == Escape(segments[i]) {
        forall i | 0 <= i < |segments[1..]| ensures parts[1..][i] == Escape(segments[1..][i]) {
          assert parts[i + 1] == Escape(segments[i + 1]);
        }
        assert [segments[0]] + segments[1..] == segments;
      }
      if UnescapeAll(parts) == Some(segments) {
        assert segments[1..] == UnescapeAll(parts[1..]).value;
        forall i | 0 <= i < |segments| ensures parts[i] == Escape(segments[i]) {
          if i > 0 { assert parts[1..][i - 1] == Escape(segments[1..][i - 1]); }
        }
      }
    }
  }

  function EscapeAll(segments: seq<string>): (parts: seq<string>)
    ensures |parts| == |segments| && forall i :: 0 <= i < |segments| ==> parts[i] == Escape(segments[i])
  {
    seq(|segments|, i requires 0 <= i < |segments| => Escape(segments[i]))
  }

  /** The parser accepts exactly the printed forms of at most 64 segments and at most 1024 bytes, and
      gives back the segments that were printed. */
  lemma ParseExactly(s: string, segments: seq<string>)
    ensures Parse(s) == Some(segments) <==> s == Print(segments) && |segments| <= 64 && ByteLen(s) <= 1024
  {
    if segments == [] {
      if s != "" {
        var parts := Split(s[1..], '/');
        if UnescapeAll(parts) == Some([]) {
          JoinSplit(s[1..], '/');
          UnescapeAllExactly(parts, []);
        }
      }
    } else {
      var printed := EscapeAll(segments);
      forall i | 0 <= i < |printed| ensures '/' !in printed[i] { UnescapeEscape(segments[i]); }
      PrintIsJoin(segments, printed);
      SplitJoin(printed, '/');
      if s != "" && s[0] == '/' {
        var parts := Split(s[1..], '/');
        JoinSplit(s[1..], '/');
        UnescapeAllExactly(parts, segments);
        if UnescapeAll(parts) == Some(segments) {
          assert parts == printed;
          assert "/" + s[1..] == s;
        }
        if s == Print(segments) {
          assert s[1..] == Join(printed, '/');
        }
      }
    }
  }
}
