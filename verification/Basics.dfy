/** Vocabulary shared by the stores of the artifact writeback protocol. */
module Basics {

  datatype Option<+T> = None | Some(value: T)

  /** An instant. Only its order and the addition of durations matter. */
  type Time = int

  /** A preview connection: one socket on one Hub node. */
  datatype Route = Route(nodeID: string, connectionID: string) {
    predicate Known() {
      nodeID != "" && connectionID != ""
    }

    predicate Matches(other: Route) {
      Known() && nodeID == other.nodeID && connectionID == other.connectionID
    }
  }

  /** The server-validated identity of one active Artifact. */
  datatype Artifact = Artifact(id: string, title: string, kind: string, url: string, publishVersion: int)

  /** The entry at `key`, or the empty string a Go map yields for a missing key. */
  function Lookup<K>(m: map<K, string>, key: K): string {
    if key in m then m[key] else ""
  }

  // Identifier shapes -------------------------------------------------------

  predicate OpaqueChar(c: char) {
    'A' <= c <= 'Z' || 'a' <= c <= 'z' || '0' <= c <= '9' || c == '_' || c == '-'
  }

  /** `prefix` followed by the 43 characters that encode 32 random bytes. */
  predicate OpaqueID(prefix: string, s: string) {
    |s| == |prefix| + 43 && prefix <= s && forall i :: |prefix| <= i < |s| ==> OpaqueChar(s[i])
  }

  /** A sample identifier. */
  function Opaque(prefix: string, c: char): (s: string)
    requires OpaqueChar(c)
    ensures OpaqueID(prefix, s) && s != "" && s[|prefix|] == c
  {
    prefix + seq(43, i requires 0 <= i < 43 => c)
  }

  predicate LowerAlnum(c: char) {
    'a' <= c <= 'z' || '0' <= c <= '9'
  }

  predicate ValidArtifactID(s: string) {
    0 < |s| <= 64 && LowerAlnum(s[0]) && LowerAlnum(s[|s| - 1])
    && forall i :: 0 <= i < |s| ==> LowerAlnum(s[i]) || s[i] in {'.', '_', '-'}
  }

  /** Dotted lower-case names with a version, such as "notes.add.v2". */
  predicate ValidSinkID(s: string) {
    exists k :: 0 < k < |s| - 2 && NameShape(s[..k]) && s[k] == '.' && s[k + 1] == 'v' && VersionShape(s[k + 2..])
  }

  predicate NameShape(s: string) {
    s != "" && 'a' <= s[0] <= 'z' && LowerAlnum(s[|s| - 1])
    && (forall i :: 0 <= i < |s| ==> LowerAlnum(s[i]) || s[i] in {'.', '_', '-'})
    && (forall i :: 0 < i < |s| && !LowerAlnum(s[i]) ==> LowerAlnum(s[i - 1]))
  }

  predicate VersionShape(s: string) {
    s != "" && s[0] != '0' && forall i :: 0 <= i < |s| ==> '0' <= s[i] <= '9'
  }

  lemma SubsetSize<T>(a: set<T>, b: set<T>)
    requires a <= b
    ensures |a| <= |b|
  {
    if a != {} {
      var x :| x in a;
      SubsetSize(a - {x}, b - {x});
    }
  }

  // Text --------------------------------------------------------------------

  /** The characters strings.TrimSpace removes. Strings are sequences of Unicode scalar values. */
  predicate IsSpace(c: char) {
    '\t' <= c <= '\r' || c == ' ' || c == '\U{85}' || c == '\U{A0}' || c == '\U{1680}'
    || '\U{2000}' <= c <= '\U{200A}' || c == '\U{2028}' || c == '\U{2029}' || c == '\U{202F}'
    || c == '\U{205F}' || c == '\U{3000}'
  }

  function TrimLeft(s: string): string {
    if s != "" && IsSpace(s[0]) then TrimLeft(s[1..]) else s
  }

  function TrimRight(s: string): string {
    if s != "" && IsSpace(s[|s| - 1]) then TrimRight(s[..|s| - 1]) else s
  }

  function TrimSpace(s: string): string {
    TrimRight(TrimLeft(s))
  }

  /** The length of the UTF-8 encoding, which is what Go's len reports. */
  function ByteLen(s: string): nat {
    if s == "" then 0
    else ByteLen(s[..|s| - 1]) + (var c := s[|s| - 1];
      if c < '\U{80}' then 1 else if c < '\U{800}' then 2 else if c < '\U{10000}' then 3 else 4)
  }

  function Truncate(s: string, runes: nat): string {
    if |s| <= runes then s else s[..runes]
  }
}
