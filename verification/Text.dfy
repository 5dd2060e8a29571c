/** The parts of Go's `strings` and `unicode` packages that the extractor relies on, over strings
    seen as sequences of characters. */
module Text {

  /** `unicode.IsSpace`: the complete White_Space property. */
  predicate IsSpace(c: char) {
    || c == ' ' || '\t' <= c <= '\r' || c == '\U{85}' || c == '\U{A0}' || c == '\U{1680}'
    || '\U{2000}' <= c <= '\U{200A}' || c == '\U{2028}' || c == '\U{2029}' || c == '\U{202F}'
    || c == '\U{205F}' || c == '\U{3000}'
  }

  /** All of White_Space, one by one. */
  const WHITE_SPACE: seq<char> :=
    ['\t', '\n', '\U{0B}', '\U{0C}', '\r', ' ', '\U{85}', '\U{A0}', '\U{1680}', '\U{2000}', '\U{2001}', '\U{2002}',
     '\U{2003}', '\U{2004}', '\U{2005}', '\U{2006}', '\U{2007}', '\U{2008}', '\U{2009}', '\U{200A}', '\U{2028}',
     '\U{2029}', '\U{202F}', '\U{205F}', '\U{3000}']

  lemma WhiteSpaceExact(c: char)
    ensures IsSpace(c) <==> c in WHITE_SPACE
  {
    if IsSpace(c) {
      SpaceInBlock(c);
    }
  }

  lemma SpaceInBlock(c: char)
    ensures '\U{2000}' <= c <= '\U{200A}' ==> c in WHITE_SPACE
    ensures '\t' <= c <= '\r' ==> c in WHITE_SPACE
  {
    var k, n := c as int - 0x2000, c as int - 9;
    if 0 <= k <= 10 {
      assert WHITE_SPACE[9 + k] == c;
    } else if 0 <= n <= 4 {
      assert WHITE_SPACE[n] == c;
    }
  }

  predicate IsDigit(c: char) { '0' <= c <= '9' }

  predicate AllSpace(s: string) { forall i :: 0 <= i < |s| ==> IsSpace(s[i]) }

  predicate NoSpace(s: string) { forall i :: 0 <= i < |s| ==> !IsSpace(s[i]) }

  function TrimLeft(s: string): (t: string)
    ensures |t| <= |s| && t == s[|s| - |t|..]
    ensures t != [] ==> !IsSpace(t[0])
    ensures AllSpace(s[..|s| - |t|])
  {
    if s != [] && IsSpace(s[0]) then
      var t := TrimLeft(s[1..]);
      assert s[..|s| - |t|] == [s[0]] + s[1..][..|s| - 1 - |t|];
      t
    else s
  }

  function TrimRight(s: string): (t: string)
    ensures t <= s
    ensures t != [] ==> !IsSpace(t[|t| - 1])
    ensures AllSpace(s[|t|..])
  {
    if s != [] && IsSpace(s[|s| - 1]) then
      var t := TrimRight(s[..|s| - 1]);
      assert s[|t|..] == s[..|s| - 1][|t|..] + [s[|s| - 1]];
      t
    else s
  }

  /** `strings.TrimSpace`. */
  function TrimSpace(s: string): (t: string)
    ensures t != [] ==> !IsSpace(t[0]) && !IsSpace(t[|t| - 1])
    ensures |t| <= |s|
  {
    var l := TrimLeft(s);
    var t := TrimRight(l);
    assert t != [] ==> t[0] == l[0];
    t
  }

  /** What is between two runs of white space, when its own ends are not white space, is what
      `TrimSpace` returns. */
  lemma TrimSpaceExact(a: string, s: string, b: string)
    requires AllSpace(a) && AllSpace(b)
    requires s != [] ==> !IsSpace(s[0]) && !IsSpace(s[|s| - 1])
    ensures TrimSpace(a + s + b) == s
  {
    if s == [] {
      TrimLeftSkip(a + b, []);
      assert a + s + b == a + b + [];
    } else {
      TrimLeftSkip(a, s + b);
      assert a + s + b == a + (s + b);
      TrimRightSkip(s, b);
    }
  }

  lemma TrimLeftSkip(a: string, s: string)
    requires AllSpace(a)
    requires s != [] ==> !IsSpace(s[0])
    ensures TrimLeft(a + s) == s
  {
    if a == [] {
      assert a + s == s;
    } else {
      assert (a + s)[1..] == a[1..] + s;
      TrimLeftSkip(a[1..], s);
    }
  }

  lemma TrimRightSkip(s: string, b: string)
    requires AllSpace(b)
    requires s != [] ==> !IsSpace(s[|s| - 1])
    ensures TrimRight(s + b) == s
  {
    if b == [] {
      assert s + b == s;
    } else {
      assert (s + b)[..|s + b| - 1] == s + b[..|b| - 1];
      TrimRightSkip(s, b[..|b| - 1]);
    }
  }

  lemma TrimSpaceOfTrimmed(t: string)
    requires t != [] ==> !IsSpace(t[0]) && !IsSpace(t[|t| - 1])
    ensures TrimSpace(t) == t
  {
    assert [] + t + [] == t;
    TrimSpaceExact([], t, []);
  }

  /** Length of the leading run of characters that are not white space. */
  function WordLen(s: string): (n: nat)
    ensures n <= |s| && NoSpace(s[..n])
    ensures n < |s| ==> IsSpace(s[n])
    ensures s != [] && !IsSpace(s[0]) ==> n > 0
  {
    if s == [] || IsSpace(s[0]) then 0
    else
      var n := WordLen(s[1..]);
      assert s[..n + 1] == [s[0]] + s[1..][..n];
      n + 1
  }

  predicate IsWord(w: string) { w != [] && NoSpace(w) }

  /** `strings.Fields`. */
  function Fields(s: string): (ws: seq<string>)
    ensures forall i :: 0 <= i < |ws| ==> IsWord(ws[i])
    decreases |s|
  {
    if s == [] then []
    else if IsSpace(s[0]) then Fields(s[1..])
    else [s[..WordLen(s)]] + Fields(s[WordLen(s)..])
  }

  /** `strings.Join(ws, " ")`. */
  function JoinSpace(ws: seq<string>): (s: string)
  {
    if ws == [] then "" else if |ws| == 1 then ws[0] else ws[0] + " " + JoinSpace(ws[1..])
  }

  /** `strings.Join(strings.Fields(s), " ")`, the `collapse` of the source. */
  function Collapse(s: string): string { JoinSpace(Fields(s)) }

  lemma WordLenWord(w: string, rest: string)
    requires IsWord(w) && (rest != [] ==> IsSpace(rest[0]))
    ensures WordLen(w + rest) == |w|
  {
    var s := w + rest;
    assert forall i :: 0 <= i < |w| ==> s[i] == w[i];
    assert rest != [] ==> s[|w|] == rest[0];
    assert forall i :: 0 <= i < WordLen(s) ==> s[..WordLen(s)][i] == s[i];
  }

  lemma FieldsWord(w: string, rest: string)
    requires IsWord(w) && (rest != [] ==> IsSpace(rest[0]))
    ensures Fields(w + rest) == [w] + Fields(rest)
  {
    WordLenWord(w, rest);
    assert (w + rest)[..|w|] == w && (w + rest)[|w|..] == rest;
  }

  lemma {:induction false} FieldsOfJoin(ws: seq<string>)
    requires forall i :: 0 <= i < |ws| ==> IsWord(ws[i])
    ensures Fields(JoinSpace(ws)) == ws
  {
    if |ws| == 0 {
    } else if |ws| == 1 {
      assert ws[0] + [] == ws[0];
      FieldsWord(ws[0], []);
    } else {
      var rest := " " + JoinSpace(ws[1..]);
      assert ws[0] + " " + JoinSpace(ws[1..]) == ws[0] + rest;
      FieldsWord(ws[0], rest);
      assert rest[1..] == JoinSpace(ws[1..]);
      FieldsOfJoin(ws[1..]);
    }
  }

  lemma CollapseIdempotent(s: string)
    ensures Collapse(Collapse(s)) == Collapse(s)
    ensures Fields(Collapse(s)) == Fields(s)
  {
    FieldsOfJoin(Fields(s));
  }

  lemma {:induction false} FieldsAllSpace(a: string, s: string)
    requires AllSpace(a)
    ensures Fields(a + s) == Fields(s)
  {
    if a == [] {
      assert a + s == s;
    } else {
      assert (a + s)[1..] == a[1..] + s;
      FieldsAllSpace(a[1..], s);
    }
  }

  lemma {:induction false} FieldsTrailing(s: string, b: string)
    requires AllSpace(b)
    ensures Fields(s + b) == Fields(s)
    decreases |s|
  {
    if s == [] {
      assert s + b == b == b + [];
      FieldsAllSpace(b, []);
    } else if IsSpace(s[0]) {
      assert (s + b)[1..] == s[1..] + b;
      FieldsTrailing(s[1..], b);
    } else {
      var n := WordLen(s);
      var w, r := s[..n], s[n..];
      assert s == w + r && s + b == w + (r + b);
      FieldsWord(w, r);
      FieldsWord(w, r + b);
      FieldsTrailing(r, b);
    }
  }

  lemma {:induction false} FieldsOfTrimLeft(s: string)
    ensures Fields(TrimLeft(s)) == Fields(s)
  {
    if s != [] && IsSpace(s[0]) {
      FieldsOfTrimLeft(s[1..]);
    }
  }

  lemma {:induction false} FieldsOfTrimRight(s: string)
    ensures Fields(TrimRight(s)) == Fields(s)
  {
    if s != [] && IsSpace(s[|s| - 1]) {
      FieldsOfTrimRight(s[..|s| - 1]);
      assert s == s[..|s| - 1] + [s[|s| - 1]];
      FieldsTrailing(s[..|s| - 1], [s[|s| - 1]]);
    }
  }

  /** `strings.Fields` does not see surrounding white space. */
  lemma FieldsOfTrim(s: string)
    ensures Fields(TrimSpace(s)) == Fields(s)
  {
    FieldsOfTrimLeft(s);
    FieldsOfTrimRight(TrimLeft(s));
  }

  /** `strings.ToLower` for a given per-character lower-casing. */
  function Lower(lower: char -> char, s: string): (t: string)
    ensures |t| == |s| && forall i :: 0 <= i < |s| ==> t[i] == lower(s[i])
  {
    seq(|s|, i requires 0 <= i < |s| => lower(s[i]))
  }

  /** What is used of `unicode.ToLower`: on ASCII it lowers A-Z and nothing else. Beyond ASCII it
      may be any map. */
  ghost predicate LowersAscii(lower: char -> char) {
    forall c: char :: c < '\U{80}' ==> lower(c) == (if 'A' <= c <= 'Z' then c + ' ' else c)
  }

  // ---- substring search ----

  /** `pat` occurs in `s` at index `i`. */
  predicate At(s: string, pat: string, i: int) {
    0 <= i && i + |pat| <= |s| && forall k :: 0 <= k < |pat| ==> s[i + k] == pat[k]
  }

  lemma CharAt(s: string, pat: string, i: int, k: int)
    requires At(s, pat, i) && 0 <= k < |pat|
    ensures s[i + k] == pat[k]
  {
  }

  predicate Contains(s: string, pat: string) { exists i :: 0 <= i <= |s| && At(s, pat, i) }

  /** `strings.Index`: the first occurrence, or -1. */
  function Index(s: string, pat: string): (i: int)
    ensures i == -1 || At(s, pat, i)
    ensures i == -1 ==> forall j :: !At(s, pat, j)
    ensures i != -1 ==> forall j :: j < i ==> !At(s, pat, j)
  {
    IndexFrom(s, pat, 0)
  }

  function IndexFrom(s: string, pat: string, k: nat): (i: int)
    requires k <= |s| + 1
    requires forall j :: j < k ==> !At(s, pat, j)
    ensures i == -1 || At(s, pat, i)
    ensures i == -1 ==> forall j :: !At(s, pat, j)
    ensures i != -1 ==> forall j :: j < i ==> !At(s, pat, j)
    decreases |s| + 1 - k
  {
    if k + |pat| > |s| then -1
    else if At(s, pat, k) then k
    else IndexFrom(s, pat, k + 1)
  }

  /** `strings.LastIndex`: the last occurrence, or -1. */
  function LastIndex(s: string, pat: string): (i: int)
    ensures i == -1 || At(s, pat, i)
    ensures forall j :: j > i ==> !At(s, pat, j)
  {
    LastIndexFrom(s, pat, |s| - |pat|)
  }

  function LastIndexFrom(s: string, pat: string, k: int): (i: int)
    requires k <= |s| - |pat|
    requires forall j :: j > k ==> !At(s, pat, j)
    ensures i == -1 || At(s, pat, i)
    ensures forall j :: j > i ==> !At(s, pat, j)
    decreases k + 1
  {
    if k < 0 then -1 else if At(s, pat, k) then k else LastIndexFrom(s, pat, k - 1)
  }

  predicate HasPrefix(s: string, p: string) { p <= s }

  function TrimPrefix(s: string, p: string): string { if p <= s then s[|p|..] else s }

  /** `strings.ReplaceAll` of one character by another. */
  function ReplaceChar(s: string, a: char, b: char): (t: string)
    ensures |t| == |s| && forall i :: 0 <= i < |s| ==> t[i] == if s[i] == a then b else s[i]
  {
    seq(|s|, i requires 0 <= i < |s| => if s[i] == a then b else s[i])
  }
}
