/** Splitting and joining texts, and decimal numbers. */
module Texts {
  import opened Basics

  // Splitting -------------------------------------------------------------------------

  /** strings.Split at a one-character separator: never empty. */
  function Split(s: string, sep: char): (parts: seq<string>)
    ensures parts != []
  {
    if s == "" then [""]
    else
      var rest := Split(s[1..], sep);
      if s[0] == sep then [""] + rest else [[s[0]] + rest[0]] + rest[1..]
  }

  function Join(parts: seq<string>, sep: char): string
    requires parts != []
  {
    if |parts| == 1 then parts[0] else parts[0] + [sep] + Join(parts[1..], sep)
  }

  predicate Without(parts: seq<string>, sep: char) {
    forall i :: 0 <= i < |parts| ==> sep !in parts[i]
  }

  lemma {:induction false} JoinSplit(s: string, sep: char)
    ensures Join(Split(s, sep), sep) == s && Without(Split(s, sep), sep)
  {
    if s != "" {
      JoinSplit(s[1..], sep);
      var rest, parts := Split(s[1..], sep), Split(s, sep);
      assert [s[0]] + s[1..] == s;
      if s[0] == sep {
        assert parts[1..] == rest;
      } else if |rest| > 1 {
        assert parts[1..] == rest[1..];
        assert ([s[0]] + rest[0]) + [sep] + Join(rest[1..], sep) == [s[0]] + (rest[0] + [sep] + Join(rest[1..], sep));
      }
    }
  }

  /** A first character that is no separator goes to the first part. */
  lemma SplitOther(c: char, rest: string, sep: char)
    requires c != sep
    ensures var parts := Split(rest, sep); Split([c] + rest, sep) == [[c] + parts[0]] + parts[1..]
  {
    assert ([c] + rest)[1..] == rest;
  }

  lemma SplitSeparator(rest: string, sep: char)
    ensures Split([sep] + rest, sep) == [""] + Split(rest, sep)
  {
    assert ([sep] + rest)[1..] == rest;
  }

  lemma JoinCharacter(c: char, first: string, rest: seq<string>, sep: char)
    ensures Join([[c] + first] + rest, sep) == [c] + Join([first] + rest, sep)
  {
    assert ([[c] + first] + rest)[1..] == rest == ([first] + rest)[1..];
    if rest != [] {
      assert ([c] + first) + [sep] + Join(rest, sep) == [c] + (first + [sep] + Join(rest, sep));
    }
  }

  lemma JoinSeparator(rest: seq<string>, sep: char)
    requires rest != []
    ensures Join([""] + rest, sep) == [sep] + Join(rest, sep)
  {
    assert ([""] + rest)[1..] == rest;
  }

  lemma {:induction false} SplitJoin(parts: seq<string>, sep: char)
    requires parts != [] && Without(parts, sep)
    ensures Split(Join(parts, sep), sep) == parts
    decreases |parts|, |parts[0]|
  {
    var first, rest := parts[0], parts[1..];
    assert parts == [first] + rest;
    if first == "" {
      if rest == [] {
        assert Join(parts, sep) == "";
      } else {
        SplitJoin(rest, sep);
        JoinSeparator(rest, sep);
        SplitSeparator(Join(rest, sep), sep);
      }
    } else {
      var shorter := [first[1..]] + rest;
      assert first == [first[0]] + first[1..] && first[0] in parts[0];
      forall i | 0 <= i < |shorter| ensures sep !in shorter[i] {
        assert sep !in parts[i];
      }
      SplitJoin(shorter, sep);
      JoinCharacter(first[0], first[1..], rest, sep);
      SplitOther(first[0], Join(shorter, sep), sep);
    }
  }

  // Decimal numbers ---------------------------------------------------------------------

  predicate Digit(c: char) { '0' <= c <= '9' }

  predicate AllDigits(s: string) {
    s != "" && forall i :: 0 <= i < |s| ==> Digit(s[i])
  }

  function Decimal(s: string): nat
    requires forall i :: 0 <= i < |s| ==> Digit(s[i])
  {
    if s == "" then 0
    else assert Digit(s[|s| - 1]); 10 * Decimal(s[..|s| - 1]) + (s[|s| - 1] as int - '0' as int)
  }

  /** An optionally signed number. */
  function ParseInt(s: string): Option<int> {
    if AllDigits(s) then Some(Decimal(s))
    else if s != "" && s[0] == '+' && AllDigits(s[1..]) then Some(Decimal(s[1..]))
    else if s != "" && s[0] == '-' && AllDigits(s[1..]) then Some(0 - Decimal(s[1..]) as int)
    else None
  }

  predicate IsInt64(n: int) {
    -0x8000_0000_0000_0000 <= n < 0x8000_0000_0000_0000
  }

  /** strconv.ParseInt(s, 10, 64) */
  function ParseInt64(s: string): Option<int> {
    match ParseInt(s)
    case None => None
    case Some(n) => if IsInt64(n) then Some(n) else None
  }

  function FormatNat(n: nat): string {
    if n < 10 then ['0' + n as char] else FormatNat(n / 10) + ['0' + (n % 10) as char]
  }

  function FormatInt(n: int): string {
    if n < 0 then "-" + FormatNat(-n) else FormatNat(n)
  }

  lemma {:induction false} FormatNatParses(n: nat)
    ensures AllDigits(FormatNat(n)) && Decimal(FormatNat(n)) == n
  {
    if n >= 10 {
      FormatNatParses(n / 10);
      var s := FormatNat(n);
      assert s[..|s| - 1] == FormatNat(n / 10);
    }
  }

  /** Printed integers parse back, and consist of digits and perhaps a leading minus. */
  lemma FormatIntParses(n: int)
    ensures ParseInt(FormatInt(n)) == Some(n)
    ensures forall i :: 0 <= i < |FormatInt(n)| ==> Digit(FormatInt(n)[i]) || FormatInt(n)[i] == '-'
  {
    if n < 0 {
      FormatNatParses(-n);
      assert FormatInt(n)[1..] == FormatNat(-n);
      assert !Digit(FormatInt(n)[0]);
    } else {
      FormatNatParses(n);
    }
  }

  // Trimming and counting ---------------------------------------------------------------

  predicate AllSpaces(s: string) {
    forall i :: 0 <= i < |s| ==> IsSpace(s[i])
  }

  predicate Tight(s: string) {
    s == "" || (!IsSpace(s[0]) && !IsSpace(s[|s| - 1]))
  }

  /** `inner` is what stands between the spaces at both ends. */
  predicate Trimmed(s: string, inner: string) {
    Tight(inner) && exists i, j :: 0 <= i <= j <= |s| && s[i..j] == inner && AllSpaces(s[..i]) && AllSpaces(s[j..])
  }

  /** Trimming removes exactly the spaces at both ends. */
  lemma TrimSpaceExactly(s: string, inner: string)
    ensures inner == TrimSpace(s) <==> Trimmed(s, inner)
  {
    TrimSpaceTrims(s);
    if Trimmed(s, inner) { TrimmedIsUnique(s, inner, TrimSpace(s)); }
  }

  lemma {:induction false} TrimLeftTrims(s: string) returns (i: nat)
    ensures i <= |s| && TrimLeft(s) == s[i..] && AllSpaces(s[..i]) && (TrimLeft(s) == "" || !IsSpace(TrimLeft(s)[0]))
  {
    hide IsSpace;
    if s != "" && IsSpace(s[0]) {
      i := TrimLeftTrims(s[1..]);
      i := i + 1;
      forall k | 0 <= k < i ensures IsSpace(s[..i][k]) {
        if k > 0 { assert s[1..][..i - 1][k - 1] == s[k]; }
      }
    } else {
      i := 0;
    }
  }

  lemma {:induction false} TrimRightTrims(s: string) returns (j: nat)
    ensures j <= |s| && TrimRight(s) == s[..j] && AllSpaces(s[j..]) && (TrimRight(s) == "" || !IsSpace(TrimRight(s)[|TrimRight(s)| - 1]))
  {
    hide IsSpace;
    if s != "" && IsSpace(s[|s| - 1]) {
      var most := s[..|s| - 1];
      j := TrimRightTrims(most);
      assert most[..j] == s[..j];
      forall k | 0 <= k < |s[j..]| ensures IsSpace(s[j..][k]) {
        if k < |most[j..]| { assert most[j..][k] == s[j..][k]; }
      }
    } else {
      j := |s|;
    }
  }

  lemma TrimSpaceTrims(s: string)
    ensures Trimmed(s, TrimSpace(s))
  {
    hide IsSpace, TrimLeft, TrimRight;
    var i := TrimLeftTrims(s);
    var left := TrimLeft(s);
    var j := TrimRightTrims(left);
    assert s[i..i + j] == left[..j] && s[i + j..] == left[j..];
    if TrimRight(left) != "" { assert TrimRight(left)[0] == left[0]; }
    assert s[i..i + j] == TrimSpace(s) && AllSpaces(s[..i]) && AllSpaces(s[i + j..]);
  }

  lemma TrimmedIsUnique(s: string, a: string, b: string)
    requires Trimmed(s, a) && Trimmed(s, b)
    ensures a == b
  {
    hide IsSpace;
    var i, j :| 0 <= i <= j <= |s| && s[i..j] == a && AllSpaces(s[..i]) && AllSpaces(s[j..]);
    var k, l :| 0 <= k <= l <= |s| && s[k..l] == b && AllSpaces(s[..k]) && AllSpaces(s[l..]);
    hide AllSpaces, Tight;
    if i < j { InsideSpaces(s, i, j, k, l); }
    if k < l { InsideSpaces(s, k, l, i, j); }
  }

  /** What is tight stands inside what has spaces around it. */
  lemma InsideSpaces(s: string, i: nat, j: nat, k: nat, l: nat)
    requires i < j <= |s| && k <= l <= |s| && Tight(s[i..j]) && AllSpaces(s[..k]) && AllSpaces(s[l..])
    ensures k <= i && j <= l
  {
    hide IsSpace;
    forall p | 0 <= p < k ensures IsSpace(s[p]) { assert s[..k][p] == s[p]; }
    forall p | l <= p < |s| ensures IsSpace(s[p]) { assert s[l..][p - l] == s[p]; }
    assert s[i..j][0] == s[i] && s[i..j][j - i - 1] == s[j - 1];
  }

  lemma TrimTwice(s: string)
    ensures TrimSpace(TrimSpace(s)) == TrimSpace(s)
  {
    hide IsSpace, TrimSpace;
    var inner := TrimSpace(s);
    TrimSpaceTrims(s);
    assert inner[0..|inner|] == inner && AllSpaces(inner[..0]) && AllSpaces(inner[|inner|..]);
    TrimSpaceExactly(inner, inner);
  }

  /** The length in bytes adds up over the characters, which take one to four. */
  lemma {:induction false} ByteLenAdds(a: string, b: string)
    ensures ByteLen(a + b) == ByteLen(a) + ByteLen(b)
    ensures forall c: char :: ByteLen([c]) == if c < '\U{80}' then 1 else if c < '\U{800}' then 2 else if c < '\U{10000}' then 3 else 4
  {
    forall c: char ensures ByteLen([c]) == if c < '\U{80}' then 1 else if c < '\U{800}' then 2 else if c < '\U{10000}' then 3 else 4 {
      assert [c][..0] == "";
    }
    if b == "" {
      assert a + b == a;
    } else {
      assert (a + b)[..|a + b| - 1] == a + b[..|b| - 1];
      ByteLenAdds(a, b[..|b| - 1]);
    }
  }

  /** Truncating keeps the longest prefix of at most so many characters. */
  lemma TruncateExactly(s: string, runes: nat, kept: string)
    requires 0 < runes
    ensures kept == Truncate(s, runes) <==> kept <= s && |kept| == if |s| < runes then |s| else runes
  {
  }
}
