/**
  The JavaScript string operations the application relies on: `trim`, the `\s` class,
  ASCII case mapping, `startsWith`, `includes` and `split(" ")`.
 */
module Text {
  import opened Common

  /** ECMAScript WhiteSpace and LineTerminator code points: the set `String.prototype.trim`
      strips and the regular-expression class `\s` matches. */
  predicate IsSpace(c: char) {
    || c == ' ' || c == '\t' || c == '\n' || c == '\r'
    || c == '\U{000B}' || c == '\U{000C}' || c == '\U{00A0}' || c == '\U{1680}'
    || ('\U{2000}' <= c <= '\U{200A}')
    || c == '\U{2028}' || c == '\U{2029}' || c == '\U{202F}' || c == '\U{205F}'
    || c == '\U{3000}' || c == '\U{FEFF}'
  }

  /** The UTF-16 code units of one character: two for a character outside the Basic
      Multilingual Plane (a surrogate pair), one otherwise. */
  function CodeUnits(c: char): nat {
    if c as int > 0xFFFF then 2 else 1
  }

  /** `s.length` in JavaScript: the number of UTF-16 code units. */
  function JsLength(s: string): (n: nat)
    ensures |s| <= n <= 2 * |s|
  {
    if s == [] then 0 else CodeUnits(s[0]) + JsLength(s[1..])
  }

  /** Lengths add up over concatenation. */
  lemma {:induction false} JsLengthAppend(a: string, b: string)
    ensures JsLength(a + b) == JsLength(a) + JsLength(b)
    decreases |a|
  {
    if a != [] {
      assert (a + b)[0] == a[0];
      assert (a + b)[1..] == a[1..] + b;
      JsLengthAppend(a[1..], b);
    } else {
      assert a + b == b;
    }
  }

  /** Lengths add up over any cut of a text. */
  lemma {:induction false} JsLengthSplit(s: string, k: nat)
    requires k <= |s|
    ensures JsLength(s) == JsLength(s[..k]) + JsLength(s[k..])
    decreases k
  {
    if k == 0 {
      assert s[..k] == [] && s[k..] == s;
    } else {
      JsLengthSplit(s[1..], k - 1);
      assert s[..k][0] == s[0];
      assert s[..k][1..] == s[1..][..k - 1];
      assert s[1..][k - 1..] == s[k..];
    }
  }

  /** An infix is no longer than the whole. */
  lemma {:induction false} JsLengthInfix(s: string, lo: int, hi: int)
    requires 0 <= lo <= hi <= |s|
    ensures JsLength(s[lo..hi]) <= JsLength(s)
    decreases lo
  {
    if lo == 0 {
      JsLengthSplit(s, hi);
      assert s[..hi] == s[lo..hi];
    } else {
      JsLengthInfix(s[1..], lo - 1, hi - 1);
      assert s[1..][lo - 1..hi - 1] == s[lo..hi];
    }
  }

  /** Text inside the Basic Multilingual Plane has one code unit per character. */
  lemma {:induction false} JsLengthBmp(s: string)
    requires forall i :: 0 <= i < |s| ==> s[i] as int <= 0xFFFF
    ensures JsLength(s) == |s|
  {
    if s != [] {
      JsLengthBmp(s[1..]);
    }
  }

  /** Text made of characters outside the Basic Multilingual Plane counts two code units
      per character. */
  lemma {:induction false} JsLengthAstral(s: string)
    requires forall i :: 0 <= i < |s| ==> s[i] as int > 0xFFFF
    ensures JsLength(s) == 2 * |s|
  {
    if s != [] {
      JsLengthAstral(s[1..]);
    }
  }

  /** `!s.trim()` in JavaScript: the string is empty or all white space. */
  predicate IsBlank(s: string) {
    forall i :: 0 <= i < |s| ==> IsSpace(s[i])
  }

  /** Number of white-space characters `trim` removes from the front. */
  function LeadingSpaces(s: string): (n: nat)
    ensures n <= |s|
    ensures forall i :: 0 <= i < n ==> IsSpace(s[i])
    ensures n < |s| ==> !IsSpace(s[n])
  {
    if s == [] || !IsSpace(s[0]) then 0 else 1 + LeadingSpaces(s[1..])
  }

  /** Number of white-space characters `trim` removes from the back. */
  function TrailingSpaces(s: string): (n: nat)
    ensures n <= |s|
    ensures forall i :: |s| - n <= i < |s| ==> IsSpace(s[i])
    ensures n < |s| ==> !IsSpace(s[|s| - n - 1])
  {
    if s == [] || !IsSpace(s[|s| - 1]) then 0 else 1 + TrailingSpaces(s[..|s| - 1])
  }

  /** Neither end of `s` is white space: what `trim` returns. */
  predicate Trimmed(s: string) {
    s == [] || (!IsSpace(s[0]) && !IsSpace(s[|s| - 1]))
  }

  /** `String.prototype.trim`: the infix of `s` left after removing white space at both ends. */
  function Trim(s: string): (r: string)
    ensures LeadingSpaces(s) + |r| <= |s|
    ensures r == s[LeadingSpaces(s)..LeadingSpaces(s) + |r|]
    ensures r == [] <==> IsBlank(s)
    ensures r != [] ==> !IsSpace(r[0]) && !IsSpace(r[|r| - 1])
    ensures forall i :: 0 <= i < LeadingSpaces(s) ==> IsSpace(s[i])
    ensures forall i :: LeadingSpaces(s) + |r| <= i < |s| ==> IsSpace(s[i])
  {
    var lo := LeadingSpaces(s);
    if lo == |s| then [] else s[lo..|s| - TrailingSpaces(s)]
  }

  /** `trim` is fixed by its shape: an infix with only white space around it and none at
      either of its own ends is what `trim` returns. */
  lemma TrimUnique(s: string, lo: nat, hi: nat)
    requires lo <= hi <= |s|
    requires forall i :: 0 <= i < lo ==> IsSpace(s[i])
    requires forall i :: hi <= i < |s| ==> IsSpace(s[i])
    requires Trimmed(s[lo..hi])
    ensures Trim(s) == s[lo..hi]
  {
    if lo == hi {
      assert IsBlank(s);
    } else {
      assert s[lo..hi][0] == s[lo];
      assert s[lo..hi][hi - lo - 1] == s[hi - 1];
      assert LeadingSpaces(s) == lo;
      assert TrailingSpaces(s) == |s| - hi;
    }
  }

  /** White space added around a text changes nothing once it is trimmed. */
  lemma TrimIgnoresPadding(a: string, s: string, b: string)
    requires IsBlank(a) && IsBlank(b)
    ensures Trim(a + s + b) == Trim(s)
  {
    var lo := LeadingSpaces(s);
    var hi := lo + |Trim(s)|;
    PaddedTrim(a, s, b, lo, hi);
  }

  /** The trimmed infix of `s` is also what `trim` leaves of `s` padded with white space. */
  lemma PaddedTrim(a: string, s: string, b: string, lo: nat, hi: nat)
    requires IsBlank(a) && IsBlank(b) && lo <= hi <= |s|
    requires forall i :: 0 <= i < lo ==> IsSpace(s[i])
    requires forall i :: hi <= i < |s| ==> IsSpace(s[i])
    requires Trimmed(s[lo..hi])
    ensures Trim(a + s + b) == s[lo..hi]
  {
    PaddedSpaces(a, s, b, lo, hi);
    TrimUnique(a + s + b, |a| + lo, |a| + hi);
  }

  /** The white space around an infix of `s` stays white space once `s` is padded. */
  lemma PaddedSpaces(a: string, s: string, b: string, lo: nat, hi: nat)
    requires IsBlank(a) && IsBlank(b) && lo <= hi <= |s|
    requires forall i :: 0 <= i < lo ==> IsSpace(s[i])
    requires forall i :: hi <= i < |s| ==> IsSpace(s[i])
    ensures (a + s + b)[|a| + lo..|a| + hi] == s[lo..hi]
    ensures forall i :: 0 <= i < |a| + lo ==> IsSpace((a + s + b)[i])
    ensures forall i :: |a| + hi <= i < |a + s + b| ==> IsSpace((a + s + b)[i])
  {
    var t := a + s + b;
    forall i | 0 <= i < |a| + lo ensures IsSpace(t[i]) {
      if i >= |a| {
        assert t[i] == s[i - |a|];
      }
    }
    forall i | |a| + hi <= i < |t| ensures IsSpace(t[i]) {
      if i < |a| + |s| {
        assert t[i] == s[i - |a|];
      } else {
        assert t[i] == b[i - |a| - |s|];
      }
    }
  }

  /** Trimming never lengthens a text. */
  lemma TrimJsLength(s: string)
    ensures JsLength(Trim(s)) <= JsLength(s)
  {
    JsLengthInfix(s, LeadingSpaces(s), LeadingSpaces(s) + |Trim(s)|);
  }

  /** Trimming is idempotent. */
  lemma TrimIdempotent(s: string)
    ensures Trim(Trim(s)) == Trim(s)
  {
    var r := Trim(s);
    assert r[0..|r|] == r;
    TrimUnique(r, 0, |r|);
  }

  predicate IsAsciiUpper(c: char) { 'A' <= c <= 'Z' }

  predicate IsAsciiLower(c: char) { 'a' <= c <= 'z' }

  predicate IsAsciiDigit(c: char) { '0' <= c <= '9' }

  function LowerChar(c: char): (d: char)
    ensures !IsAsciiUpper(d)
    ensures IsSpace(d) <==> IsSpace(c)
  {
    if IsAsciiUpper(c) then (c as int + 32) as char else c
  }

  function UpperChar(c: char): (d: char)
    ensures !IsAsciiLower(d)
    ensures IsAsciiLower(c) ==> IsAsciiUpper(d)
  {
    if IsAsciiLower(c) then (c as int - 32) as char else c
  }

  /** `toLowerCase`, restricted to the ASCII letters. */
  function ToLower(s: string): (r: string)
    ensures |r| == |s|
    ensures forall i :: 0 <= i < |s| ==> r[i] == LowerChar(s[i])
    ensures forall i :: 0 <= i < |r| ==> !IsAsciiUpper(r[i]) && (IsSpace(r[i]) <==> IsSpace(s[i]))
  {
    seq(|s|, i requires 0 <= i < |s| => LowerChar(s[i]))
  }

  /** Lower-casing keeps a trimmed text trimmed. */
  lemma LowerKeepsTrimmed(s: string)
    requires Trimmed(s)
    ensures Trimmed(ToLower(s))
  {
    if s != [] {
      assert IsSpace(ToLower(s)[0]) <==> IsSpace(s[0]);
      assert IsSpace(ToLower(s)[|s| - 1]) <==> IsSpace(s[|s| - 1]);
    }
  }

  /** Lower-casing twice is lower-casing once. */
  lemma ToLowerIdempotent(s: string)
    ensures ToLower(ToLower(s)) == ToLower(s)
  {
    assert forall i :: 0 <= i < |s| ==> LowerChar(LowerChar(s[i])) == LowerChar(s[i]);
  }

  /** Lower-casing and trimming commute: case mapping never turns a character into white
      space or back. */
  lemma LowerTrimCommute(s: string)
    ensures ToLower(Trim(s)) == Trim(ToLower(s))
  {
    var u := ToLower(s);
    var r := Trim(s);
    var lo := LeadingSpaces(s);
    var hi := lo + |r|;
    assert u[lo..hi] == ToLower(r);
    LowerKeepsTrimmed(r);
    TrimUnique(u, lo, hi);
  }

  /** `toUpperCase`, restricted to the ASCII letters. */
  function ToUpper(s: string): (r: string)
    ensures |r| == |s|
    ensures forall i :: 0 <= i < |s| ==> r[i] == UpperChar(s[i])
  {
    seq(|s|, i requires 0 <= i < |s| => UpperChar(s[i]))
  }

  /** `s.startsWith(p)`. */
  predicate StartsWith(s: string, p: string) {
    |p| <= |s| && s[..|p|] == p
  }

  /** `needle` occurs in `hay` starting at offset `i`. */
  predicate OccursAt(hay: string, needle: string, i: int) {
    0 <= i <= |hay| - |needle| && hay[i..i + |needle|] == needle
  }

  /** `hay.includes(needle)`: `needle` occurs at some offset of `hay`. */
  predicate Contains(hay: string, needle: string) {
    exists i | 0 <= i <= |hay| :: OccursAt(hay, needle, i)
  }

  /** Every string includes the empty string. */
  lemma ContainsEmpty(hay: string)
    ensures Contains(hay, "")
  {
    assert OccursAt(hay, "", 0);
  }

  /** Index of the first occurrence of `c`, or `|s|` when there is none. */
  function IndexOf(s: string, c: char): (i: nat)
    ensures i <= |s|
    ensures i < |s| ==> s[i] == c
    ensures forall j :: 0 <= j < i ==> s[j] != c
  {
    if |s| == 0 then 0
    else if s[0] == c then 0
    else 1 + IndexOf(s[1..], c)
  }

  /** `s.split(" ")`: the maximal space-free pieces between single spaces. */
  function Split(s: string): (r: seq<string>)
    ensures |r| >= 1
    decreases |s|
  {
    var i := IndexOf(s, ' ');
    if i == |s| then [s] else [s[..i]] + Split(s[i + 1..])
  }

  /** `pieces.join(" ")`. */
  function Join(pieces: seq<string>): string
    requires |pieces| >= 1
  {
    if |pieces| == 1 then pieces[0] else pieces[0] + " " + Join(pieces[1..])
  }

  /** Joining the pieces of a split gives back the original string. */
  lemma {:induction false} SplitJoin(s: string)
    ensures Join(Split(s)) == s
    decreases |s|
  {
    var i := IndexOf(s, ' ');
    if i < |s| {
      SplitJoin(s[i + 1..]);
      JoinAfterSpace(s, i);
    }
  }

  /** One step of `SplitJoin`: the piece before the first space, the space, and the join of
      the rest's pieces. */
  lemma JoinAfterSpace(s: string, i: nat)
    requires i == IndexOf(s, ' ') && i < |s|
    requires Join(Split(s[i + 1..])) == s[i + 1..]
    ensures Join(Split(s)) == s
  {
    SplitAtSpace(s, i);
    JoinFirst(s[..i], Split(s[i + 1..]));
    RejoinAtSpace(s, i);
  }

  /** No piece of a split contains a space. */
  lemma {:induction false} SplitPiecesSpaceFree(s: string)
    ensures forall k :: 0 <= k < |Split(s)| ==> ' ' !in Split(s)[k]
    decreases |s|
  {
    var i := IndexOf(s, ' ');
    if i < |s| {
      SplitPiecesSpaceFree(s[i + 1..]);
      SplitAtSpace(s, i);
      assert ' ' !in s[..i];
    }
  }

  lemma SplitAtSpace(s: string, i: nat)
    requires i == IndexOf(s, ' ') && i < |s|
    ensures Split(s) == [s[..i]] + Split(s[i + 1..])
  {
  }

  lemma JoinFirst(a: string, rest: seq<string>)
    requires |rest| >= 1
    ensures Join([a] + rest) == a + " " + Join(rest)
  {
    assert ([a] + rest)[1..] == rest;
  }

  lemma RejoinAtSpace(s: string, i: nat)
    requires i < |s| && s[i] == ' '
    ensures s[..i] + " " + s[i + 1..] == s
  {
    assert s[i..] == " " + s[i + 1..];
    assert s[..i] + s[i..] == s;
  }

  /** `s.split(" ")[k]`, or `None` (JavaScript `undefined`) when there are fewer pieces. */
  function Field(s: string, k: nat): Option<string> {
    var pieces := Split(s);
    if k < |pieces| then Some(pieces[k]) else None
  }

  /** The second space-separated piece of `p + " " + t` is `t` when `p` and `t` hold no space. */
  lemma SecondFieldOfJoined(p: string, t: string)
    requires ' ' !in p && ' ' !in t
    ensures Field(p + " " + t, 1) == Some(t)
  {
    var s := p + " " + t;
    assert IndexOf(s, ' ') == |p| by {
      assert s[|p|] == ' ';
      assert forall j :: 0 <= j < |p| ==> s[j] == p[j];
    }
    assert s[|p| + 1..] == t;
    assert s[..|p|] == p;
    assert IndexOf(t, ' ') == |t|;
    assert Split(t) == [t];
    assert Split(s) == [p] + Split(t);
  }
}
