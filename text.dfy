/** String operations of the JavaScript runtime that the source relies on:
    the `\s` character class and `String.prototype.trim`, `startsWith`,
    ASCII case-insensitive prefix matching (a regular expression with the
    `i` flag and an ASCII pattern), `toLowerCase` on ASCII letters,
    `replace` with a string pattern (first occurrence only) and the
    decimal rendering of an integer by `String(n)`. */
module Text {

  /** JavaScript's WhiteSpace and LineTerminator code points: what `\s`
      matches and what `trim()` removes. */
  predicate IsSpace(c: char) {
    c == '\t' || c == '\n' || c == '\U{000B}' || c == '\U{000C}' || c == '\r' || c == ' '
    || c == '\U{00A0}' || c == '\U{1680}' || ('\U{2000}' <= c <= '\U{200A}')
    || c == '\U{2028}' || c == '\U{2029}' || c == '\U{202F}' || c == '\U{205F}'
    || c == '\U{3000}' || c == '\U{FEFF}'
  }

  /** The code points that `.` in a regular expression without the `s` flag
      does not match. */
  predicate IsLineTerminator(c: char) {
    c == '\n' || c == '\r' || c == '\U{2028}' || c == '\U{2029}'
  }

  predicate AllSpace(s: string) {
    forall i :: 0 <= i < |s| ==> IsSpace(s[i])
  }

  predicate StartsWith(s: string, prefix: string) {
    |prefix| <= |s| && s[..|prefix|] == prefix
  }

  /** Number of leading white-space characters. */
  function LeadingSpace(s: string): (n: nat)
    ensures n <= |s|
    ensures AllSpace(s[..n])
    ensures n < |s| ==> !IsSpace(s[n])
    ensures n == |s| <==> AllSpace(s)
  {
    if s == [] || !IsSpace(s[0]) then 0
    else
      var k := LeadingSpace(s[1..]);
      assert s[1..][..k] == s[1..k + 1];
      1 + k
  }

  /** Number of trailing white-space characters. */
  function TrailingSpace(s: string): (n: nat)
    ensures n <= |s|
    ensures AllSpace(s[|s| - n..])
    ensures n < |s| ==> !IsSpace(s[|s| - n - 1])
    ensures n == |s| <==> AllSpace(s)
  {
    if s == [] || !IsSpace(s[|s| - 1]) then 0
    else
      var t := s[..|s| - 1];
      var k := TrailingSpace(t);
      var tail := s[|s| - (k + 1)..];
      forall i | 0 <= i < |tail| ensures IsSpace(tail[i]) {
        if i < k { assert tail[i] == t[|t| - k..][i]; }
      }
      assert AllSpace(tail);
      1 + k
  }

  /** `s.trimStart()`: drop the leading white space. */
  function TrimStart(s: string): (r: string)
    ensures |r| <= |s| && r == s[|s| - |r|..]
    ensures AllSpace(s[..|s| - |r|])
    ensures r != [] ==> !IsSpace(r[0])
    ensures r == [] <==> AllSpace(s)
  {
    s[LeadingSpace(s)..]
  }

  /** `s.trimEnd()`: drop the trailing white space. */
  function TrimEnd(s: string): (r: string)
    ensures |r| <= |s| && r == s[..|r|]
    ensures AllSpace(s[|r|..])
    ensures r != [] ==> !IsSpace(r[|r| - 1])
    ensures r == [] <==> AllSpace(s)
  {
    s[..|s| - TrailingSpace(s)]
  }

  /** `s.trim()`: the slice left after dropping leading and trailing white
      space. */
  function Trim(s: string): (r: string)
    ensures |r| <= |s|
    ensures r != [] ==> !IsSpace(r[0]) && !IsSpace(r[|r| - 1])
    ensures r == [] <==> AllSpace(s)
  {
    var t := TrimStart(s);
    var r := TrimEnd(t);
    assert r != [] ==> r[0] == t[0];
    assert AllSpace(t) <==> t == [];
    r
  }

  /** Trimming twice is trimming once. */
  lemma TrimIdempotent(s: string)
    ensures Trim(Trim(s)) == Trim(s)
  {
    var r := Trim(s);
    assert LeadingSpace(r) == 0;
    assert TrimStart(r) == r;
    assert TrailingSpace(r) == 0;
    assert r[..|r| - 0] == r;
  }

  /** A string that neither starts nor ends with white space is its own
      trim. */
  lemma TrimBare(s: string)
    requires s != [] && !IsSpace(s[0]) && !IsSpace(s[|s| - 1])
    ensures Trim(s) == s
  {
    assert LeadingSpace(s) == 0;
    assert TrimStart(s) == s;
    assert TrailingSpace(s) == 0;
    assert s[..|s| - 0] == s;
  }

  /** Trimming removes exactly the white space around a string that
      neither starts nor ends with white space. */
  lemma TrimAround(pre: string, s: string, post: string)
    requires AllSpace(pre) && AllSpace(post)
    requires s != [] && !IsSpace(s[0]) && !IsSpace(s[|s| - 1])
    ensures Trim(pre + s + post) == s
  {
    var x := pre + s + post;
    var n := LeadingSpace(x);
    assert x[|pre|] == s[0];
    assert n == |pre|;
    var t := x[n..];
    assert t == s + post;
    var m := TrailingSpace(t);
    assert t[|s| - 1] == s[|s| - 1];
    assert m == |post|;
    assert t[..|t| - m] == s;
  }

  /** JavaScript truthiness of a string: only "" is falsy. */
  predicate Truthy(s: string) { s != "" }

  /** `c.toLowerCase()` for ASCII; other code points are left as they are. */
  function LowerChar(c: char): (r: char)
    ensures 'A' <= c <= 'Z' ==> 'a' <= r <= 'z'
    ensures !('A' <= c <= 'Z') ==> r == c
  {
    if 'A' <= c <= 'Z' then (c as int - 'A' as int + 'a' as int) as char else c
  }

  function Lower(s: string): (r: string)
    ensures |r| == |s|
    ensures forall i :: 0 <= i < |s| ==> r[i] == LowerChar(s[i])
  {
    seq(|s|, i requires 0 <= i < |s| => LowerChar(s[i]))
  }

  predicate IsAsciiLetter(c: char) {
    ('a' <= c <= 'z') || ('A' <= c <= 'Z')
  }

  /** Whether `s` begins with the lower-case pattern `p` when ASCII letters
      are compared without regard to case (the `i` flag). */
  predicate StartsWithIgnoringCase(s: string, p: string) {
    |p| <= |s| && Lower(s[..|p|]) == p
  }

  /** `s.replace(/^(p1|p2|...):/i, "")`: drop the first alternative (all in
      lower case) that matches at the start, else leave `s` alone. */
  function StripFirstPrefix(s: string, prefixes: seq<string>): (r: string)
    ensures |r| <= |s|
    ensures r == s || exists k :: 0 <= k < |prefixes| && StartsWithIgnoringCase(s, prefixes[k]) && r == s[|prefixes[k]|..]
    ensures (forall k :: 0 <= k < |prefixes| ==> !StartsWithIgnoringCase(s, prefixes[k])) ==> r == s
  {
    if prefixes == [] then s
    else if StartsWithIgnoringCase(s, prefixes[0]) then s[|prefixes[0]|..]
    else
      var r := StripFirstPrefix(s, prefixes[1..]);
      assert forall k :: 0 <= k < |prefixes| - 1 ==> prefixes[1..][k] == prefixes[k + 1];
      r
  }

  predicate OccursAt(s: string, pat: string, k: int) {
    0 <= k <= |s| - |pat| && s[k..k + |pat|] == pat
  }

  /** Index of the first occurrence of `pat` in `s`, or -1. */
  function IndexOf(s: string, pat: string): (r: int)
    ensures r < 0 ==> r == -1 && forall k :: !OccursAt(s, pat, k)
    ensures r >= 0 ==> OccursAt(s, pat, r) && forall k :: 0 <= k < r ==> !OccursAt(s, pat, k)
    decreases |s|
  {
    if |s| < |pat| then -1
    else if s[..|pat|] == pat then 0
    else
      var k := IndexOf(s[1..], pat);
      assert forall j :: 1 <= j ==> (OccursAt(s, pat, j) <==> OccursAt(s[1..], pat, j - 1)) by {
        forall j | 1 <= j ensures OccursAt(s, pat, j) <==> OccursAt(s[1..], pat, j - 1) {
          if j <= |s| - |pat| { assert s[1..][j - 1..j - 1 + |pat|] == s[j..j + |pat|]; }
        }
      }
      if k < 0 then -1 else k + 1
  }

  /** `s.replace(pat, rep)` with a string pattern: only the first
      occurrence is replaced. */
  function ReplaceFirst(s: string, pat: string, rep: string): (r: string)
    ensures IndexOf(s, pat) < 0 ==> r == s
    ensures IndexOf(s, pat) >= 0 ==>
      r == s[..IndexOf(s, pat)] + rep + s[IndexOf(s, pat) + |pat|..]
  {
    var i := IndexOf(s, pat);
    if i < 0 then s else s[..i] + rep + s[i + |pat|..]
  }

  function DigitChar(d: nat): char
    requires d < 10
  {
    ['0', '1', '2', '3', '4', '5', '6', '7', '8', '9'][d]
  }

  /** `String(n)` for a natural number: its decimal digits. */
  function NatToString(n: nat): (r: string)
    ensures r != ""
    ensures forall i :: 0 <= i < |r| ==> '0' <= r[i] <= '9'
  {
    if n < 10 then [DigitChar(n)] else NatToString(n / 10) + [DigitChar(n % 10)]
  }

  /** `String(n)` for an integer-valued number. */
  function IntToString(n: int): (r: string)
    ensures r != ""
    ensures forall i :: 0 <= i < |r| ==> !IsSpace(r[i])
  {
    if n < 0 then "-" + NatToString(-n) else NatToString(n)
  }

  /** The concatenation `parts.join("")`. */
  function Join(parts: seq<string>): (r: string)
  {
    if parts == [] then "" else parts[0] + Join(parts[1..])
  }

  /** Appending one part extends the joined string by that part. */
  lemma {:induction false} JoinAppend(parts: seq<string>, last: string)
    ensures Join(parts + [last]) == Join(parts) + last
  {
    if parts != [] {
      assert (parts + [last])[1..] == parts[1..] + [last];
      JoinAppend(parts[1..], last);
    }
  }

  /** The joined string is as long as all parts together. */
  lemma {:induction false} JoinLength(parts: seq<string>, k: nat)
    requires k <= |parts|
    ensures |Join(parts[..k])| <= |Join(parts)|
    ensures Join(parts) == Join(parts[..k]) + Join(parts[k..])
  {
    if k > 0 {
      assert parts[..k][1..] == parts[1..][..k - 1];
      assert parts[k..] == parts[1..][k - 1..];
      JoinLength(parts[1..], k - 1);
    } else {
      assert parts[..0] == [] && parts[0..] == parts;
    }
  }

  /** Concatenation is associative; stated once for any element type, so
      that proofs about sequences of strings need not compare them
      element by element. */
  lemma AppendAssoc<T>(a: seq<T>, b: seq<T>, c: seq<T>)
    ensures a + (b + c) == (a + b) + c
  {
  }
}
