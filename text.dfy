/** String operations the source takes from JavaScript's String.prototype:
    `trim`, ASCII case folding (what a `/i` regular expression over an
    ASCII-only pattern compares) and `slice`. */
module Text {

  /** JavaScript's WhiteSpace and LineTerminator code points (what `trim` removes). */
  predicate IsWhitespace(c: char) {
    c == '\t' || c == '\n' || c == '\U{000B}' || c == '\U{000C}' || c == '\r' || c == ' '
    || c == '\U{00A0}' || c == '\U{1680}' || ('\U{2000}' <= c <= '\U{200A}')
    || c == '\U{2028}' || c == '\U{2029}' || c == '\U{202F}' || c == '\U{205F}'
    || c == '\U{3000}' || c == '\U{FEFF}'
  }

  /** `s` without its leading whitespace. */
  function TrimStart(s: string): (r: string)
    ensures |r| <= |s| && r == s[|s| - |r|..]
    ensures r == [] || !IsWhitespace(r[0])
    ensures forall i :: 0 <= i < |s| - |r| ==> IsWhitespace(s[i])
  {
    if s != [] && IsWhitespace(s[0]) then TrimStart(s[1..]) else s
  }

  /** `s` without its trailing whitespace. */
  function TrimEnd(s: string): (r: string)
    ensures |r| <= |s| && r == s[..|r|]
    ensures r == [] || !IsWhitespace(r[|r| - 1])
    ensures forall i :: |r| <= i < |s| ==> IsWhitespace(s[i])
  {
    if s != [] && IsWhitespace(s[|s| - 1]) then TrimEnd(s[..|s| - 1]) else s
  }

  /** String.prototype.trim. */
  function Trim(s: string): string {
    TrimEnd(TrimStart(s))
  }

  /** The trimmed string is no longer than the input and has no whitespace at either edge. */
  lemma TrimEdges(s: string)
    ensures |Trim(s)| <= |s|
    ensures Trim(s) == [] || (!IsWhitespace(Trim(s)[0]) && !IsWhitespace(Trim(s)[|Trim(s)| - 1]))
  {
    var a := TrimStart(s);
    var r := TrimEnd(a);
    if r != [] {
      assert r[0] == a[0];
    }
  }

  /** The trimmed string is the piece of the input after its leading whitespace. */
  lemma TrimSlice(s: string)
    ensures var k := |s| - |TrimStart(s)|;
      k + |Trim(s)| <= |s| && Trim(s) == s[k..k + |Trim(s)|]
  {
    var a := TrimStart(s);
    var k := |s| - |a|;
    var r := TrimEnd(a);
    assert a == s[k..] && r == a[..|r|];
  }

  /** Everything `trim` cuts off on either side is whitespace. */
  lemma TrimCuts(s: string)
    ensures var k := |s| - |TrimStart(s)|;
      (forall i :: 0 <= i < k ==> IsWhitespace(s[i]))
      && (forall i :: k + |Trim(s)| <= i < |s| ==> IsWhitespace(s[i]))
  {
    var a := TrimStart(s);
    var k := |s| - |a|;
    assert a == s[k..];
    AllShifted(s, k, |TrimEnd(a)|, IsWhitespace);
  }

  /** A property of every character of a suffix from some offset on, read in the whole string. */
  lemma AllShifted(s: string, k: nat, from: nat, p: char -> bool)
    requires k <= |s|
    requires forall i :: from <= i < |s[k..]| ==> p(s[k..][i])
    ensures forall i :: k + from <= i < |s| ==> p(s[i])
  {
    forall i | k + from <= i < |s|
      ensures p(s[i])
    {
      assert s[i] == s[k..][i - k];
    }
  }

  /** The whole contract of `trim`: a contiguous piece of the input with no whitespace at
      either edge, everything cut off being whitespace. */
  lemma TrimSpec(s: string)
    ensures |Trim(s)| <= |s|
    ensures Trim(s) == [] || (!IsWhitespace(Trim(s)[0]) && !IsWhitespace(Trim(s)[|Trim(s)| - 1]))
    ensures var k := |s| - |TrimStart(s)|;
      k + |Trim(s)| <= |s| && Trim(s) == s[k..k + |Trim(s)|]
      && (forall i :: 0 <= i < k ==> IsWhitespace(s[i]))
      && (forall i :: k + |Trim(s)| <= i < |s| ==> IsWhitespace(s[i]))
  {
    TrimEdges(s);
    TrimSlice(s);
    TrimCuts(s);
  }

  /** Trimming twice is trimming once. */
  lemma TrimIdempotent(s: string)
    ensures Trim(Trim(s)) == Trim(s)
  {
    var r := Trim(s);
    TrimSpec(s);
    assert TrimStart(r) == r;
  }

  /** ASCII lower-casing; other characters are unchanged. */
  function LowerAscii(c: char): (r: char)
    ensures 'A' <= c <= 'Z' ==> r as int == c as int + 32
    ensures !('A' <= c <= 'Z') ==> r == c
  {
    if 'A' <= c <= 'Z' then (c as int + 32) as char else c
  }

  function LowerAsciiString(s: string): (r: string)
    ensures |r| == |s|
    ensures forall i :: 0 <= i < |s| ==> r[i] == LowerAscii(s[i])
  {
    if s == [] then [] else [LowerAscii(s[0])] + LowerAsciiString(s[1..])
  }

  /** A pattern of lower-case letters, digits and spaces (what the keyword alternatives are). */
  predicate LowerPattern(p: string) {
    forall i :: 0 <= i < |p| ==> !('A' <= p[i] <= 'Z') && p[i] as int < 128
  }

  /** Whether `s` matches the ASCII pattern `p` exactly under the `/i` flag: character by
      character, where a pattern letter also accepts its upper-case form. A non-ASCII input
      character never matches an ASCII pattern character under JavaScript's non-Unicode
      case canonicalisation. */
  predicate MatchesIgnoringCase(s: string, p: string)
    decreases |p|
  {
    |s| == |p| &&
    (p == [] || ((s[0] == p[0] || ('a' <= p[0] <= 'z' && s[0] as int == p[0] as int - 32))
                 && MatchesIgnoringCase(s[1..], p[1..])))
  }

  /** The `/i` match against a lower-case pattern is equality after lower-casing the input. */
  lemma {:induction false} MatchesIgnoringCaseIsLowerEquality(s: string, p: string)
    requires LowerPattern(p)
    ensures MatchesIgnoringCase(s, p) <==> LowerAsciiString(s) == p
    decreases |p|
  {
    if |s| == |p| && p != [] {
      LowerPatternTail(p);
      MatchesIgnoringCaseIsLowerEquality(s[1..], p[1..]);
      ConsEquality(LowerAscii(s[0]), LowerAsciiString(s[1..]), p);
    } else if |s| != |p| {
      assert |LowerAsciiString(s)| != |p|;
    }
  }

  lemma LowerPatternTail(p: string)
    requires p != [] && LowerPattern(p)
    ensures LowerPattern(p[1..])
  {
    forall i | 0 <= i < |p[1..]| ensures !('A' <= p[1..][i] <= 'Z') && p[1..][i] as int < 128 {
      assert p[1..][i] == p[i + 1];
    }
  }

  /** A sequence equals a non-empty one exactly when heads and tails agree. */
  lemma ConsEquality(x: char, t: string, p: string)
    requires p != []
    ensures [x] + t == p <==> x == p[0] && t == p[1..]
  {
    if x == p[0] && t == p[1..] {
      assert p == [p[0]] + p[1..];
    }
  }

  /** String.prototype.slice(0, end): a negative `end` counts from the end of the string. */
  function SliceTo(s: string, end: int): (r: string)
    ensures 0 <= end <= |s| ==> r == s[..end]
    ensures end > |s| ==> r == s
    ensures end < 0 ==> r == s[..if |s| + end < 0 then 0 else |s| + end]
  {
    var e := if end < 0 then (if |s| + end < 0 then 0 else |s| + end)
             else if end > |s| then |s| else end;
    s[..e]
  }
}
