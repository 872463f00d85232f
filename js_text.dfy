/** The JavaScript string built-ins the service layer relies on, over `seq<char>`:
    `trim`, `startsWith`, `indexOf`, `lastIndexOf`, `substring` and `split` with a
    one-character separator. `StartsWith` and `EndsWith` with slicing also stand for the
    anchored `replace` calls (`/^```json/`, `/^```/`, `/```$/`). Positions are UTF-16 positions in JavaScript and
    character positions here; the two agree on the ASCII delimiters used. */
module JsText {

  /** The characters `String.prototype.trim` removes: ECMAScript WhiteSpace
      (TAB, VT, FF, ZWNBSP and the space separators) and LineTerminator. */
  predicate IsWhitespace(c: char) {
    || c == '\t' || c == '\n' || c == '\U{B}' || c == '\U{C}' || c == '\r'
    || c == ' ' || c == '\U{A0}' || c == '\U{1680}'
    || ('\U{2000}' <= c <= '\U{200A}')
    || c == '\U{2028}' || c == '\U{2029}' || c == '\U{202F}' || c == '\U{205F}'
    || c == '\U{3000}' || c == '\U{FEFF}'
  }

  /** `s` occurs in `t` starting at position `i`. */
  predicate InfixAt(s: string, t: string, i: nat) {
    i + |s| <= |t| && t[i..i + |s|] == s
  }

  /** `s` occurs as a contiguous piece of `t`. */
  ghost predicate IsInfix(s: string, t: string) {
    exists i: nat :: InfixAt(s, t, i)
  }

  lemma InfixTransitive(r: string, s: string, t: string, i: nat)
    requires IsInfix(r, s) && InfixAt(s, t, i)
    ensures IsInfix(r, t)
  {
    var a: nat :| InfixAt(r, s, a);
    var x, y := t[i + a..i + a + |r|], s[a..a + |r|];
    assert x == y by {
      forall k | 0 <= k < |r| ensures x[k] == y[k] {
        assert t[i + a + k] == t[i..i + |s|][a + k];
      }
    }
    assert InfixAt(r, t, i + a);
  }

  predicate StartsWith(s: string, prefix: string) {
    |prefix| <= |s| && s[..|prefix|] == prefix
  }

  predicate EndsWith(s: string, suffix: string) {
    |suffix| <= |s| && s[|s| - |suffix|..] == suffix
  }

  /** Drops leading whitespace: the result is the suffix of `s` that starts at its first
      non-whitespace character. */
  function TrimStart(s: string): (r: string)
    ensures |r| <= |s| && r == s[|s| - |r|..]
    ensures forall i :: 0 <= i < |s| - |r| ==> IsWhitespace(s[i])
    ensures r == [] || !IsWhitespace(r[0])
  {
    if |s| > 0 && IsWhitespace(s[0]) then TrimStart(s[1..]) else s
  }

  /** Drops trailing whitespace: the result is the prefix of `s` that ends at its last
      non-whitespace character. */
  function TrimEnd(s: string): (r: string)
    ensures |r| <= |s| && r == s[..|r|]
    ensures forall i :: |r| <= i < |s| ==> IsWhitespace(s[i])
    ensures r == [] || !IsWhitespace(r[|r| - 1])
  {
    if |s| > 0 && IsWhitespace(s[|s| - 1]) then TrimEnd(s[..|s| - 1]) else s
  }

  /** `String.prototype.trim`. */
  function Trim(s: string): (r: string)
    ensures r == [] || (!IsWhitespace(r[0]) && !IsWhitespace(r[|r| - 1]))
  {
    TrimEnd(TrimStart(s))
  }

  /** What trim removes is whitespace on both sides, and what it keeps is a piece of `s`. */
  lemma TrimIsInfix(s: string)
    ensures IsInfix(Trim(s), s)
  {
    var u := TrimStart(s);
    var r := TrimEnd(u);
    PrefixOfSuffixIsInfix(s, u, r);
  }

  /** A prefix of a suffix of `t` sits in `t` where the suffix starts. */
  lemma PrefixOfSuffixIsInfix(t: string, u: string, r: string)
    requires |u| <= |t| && u == t[|t| - |u|..]
    requires |r| <= |u| && r == u[..|r|]
    ensures InfixAt(r, t, |t| - |u|)
  {
    var k := |t| - |u|;
    assert t[k..][..|r|] == t[k..k + |r|];
  }

  /** Text without surrounding whitespace is left as it is. */
  lemma TrimUnchanged(s: string)
    requires s == [] || (!IsWhitespace(s[0]) && !IsWhitespace(s[|s| - 1]))
    ensures Trim(s) == s
  {
  }

  /** `String.prototype.indexOf` for one character: -1 when absent, else the first position. */
  function IndexOf(s: string, c: char): (r: int)
    ensures -1 <= r < |s|
    ensures r == -1 <==> c !in s
    ensures r >= 0 ==> s[r] == c && c !in s[..r]
  {
    if |s| == 0 then -1
    else if s[0] == c then 0
    else
      var k := IndexOf(s[1..], c);
      if k == -1 then -1 else k + 1
  }

  /** `String.prototype.lastIndexOf` for one character: -1 when absent, else the last position. */
  function LastIndexOf(s: string, c: char): (r: int)
    ensures -1 <= r < |s|
    ensures r == -1 <==> c !in s
    ensures r >= 0 ==> s[r] == c && c !in s[r + 1..]
  {
    if |s| == 0 then -1
    else if s[|s| - 1] == c then |s| - 1
    else
      var prefix := s[..|s| - 1];
      assert s == prefix + [s[|s| - 1]];
      LastIndexOf(prefix, c)
  }

  /** A position holding `c` with no `c` before it is the one `IndexOf` finds. */
  lemma IndexOfUnique(s: string, c: char, n: nat)
    requires n < |s| && s[n] == c && c !in s[..n]
    ensures IndexOf(s, c) == n
  {
  }

  /** The first position of `c` in text that has no `c` before position |p|. */
  lemma IndexOfAfter(p: string, q: string, c: char)
    requires c !in p
    ensures IndexOf(p + [c] + q, c) == |p|
  {
    var s := p + [c] + q;
    assert s[..|p|] == p;
    IndexOfUnique(s, c, |p|);
  }

  /** Past a prefix free of `c`, the first `c` is found where it is found in the rest. */
  lemma IndexOfShift(p: string, q: string, c: char)
    requires c !in p && c in q
    ensures IndexOf(p + q, c) == |p| + IndexOf(q, c)
  {
    var s := p + q;
    var i := IndexOf(q, c);
    assert s[..|p| + i] == p + q[..i];
    IndexOfUnique(s, c, |p| + i);
  }

  /** `String.prototype.substring(start, end)`: both bounds clamped to [0, |s|], then
      swapped when the start is past the end. */
  function Substring(s: string, start: int, end: int): (r: string)
    ensures |r| <= |s|
    ensures 0 <= start <= end <= |s| ==> r == s[start..end]
    ensures 0 <= end <= start <= |s| ==> r == s[end..start]
    ensures start <= 0 && |s| <= end ==> r == s
  {
    var a := if start < 0 then 0 else if start > |s| then |s| else start;
    var b := if end < 0 then 0 else if end > |s| then |s| else end;
    if a <= b then s[a..b] else s[b..a]
  }

  /** The order of the two bounds does not matter. */
  lemma SubstringSymmetric(s: string, a: int, b: int)
    ensures Substring(s, a, b) == Substring(s, b, a)
  {
  }

  /** `String.prototype.split(c)`: the pieces between the occurrences of `c`, in order;
      never empty, and no piece contains `c`. */
  function Split(s: string, c: char): (pieces: seq<string>)
    ensures |pieces| >= 1
    ensures forall k :: 0 <= k < |pieces| ==> c !in pieces[k]
    decreases |s|
  {
    if c !in s then [s]
    else
      var i := IndexOf(s, c);
      [s[..i]] + Split(s[i + 1..], c)
  }

  /** `Array.prototype.join(c)` on non-empty lists, the inverse of `Split`. */
  function Join(pieces: seq<string>, c: char): string
    requires |pieces| >= 1
  {
    if |pieces| == 1 then pieces[0] else pieces[0] + [c] + Join(pieces[1..], c)
  }

  /** Joining the pieces with the separator gives back the original text. */
  lemma {:induction false} JoinSplit(s: string, c: char)
    ensures Join(Split(s, c), c) == s
    decreases |s|
  {
    if c in s {
      var i := IndexOf(s, c);
      var rest := s[i + 1..];
      JoinSplit(rest, c);
      var pieces := Split(s, c);
      assert pieces == [s[..i]] + Split(rest, c);
      assert pieces[1..] == Split(rest, c);
      calc {
        Join(pieces, c);
        s[..i] + [c] + Join(Split(rest, c), c);
        s[..i] + [c] + rest;
        { assert s == s[..i] + [c] + rest; }
        s;
      }
    }
  }

  /** Splitting text whose first separator follows `p` yields `p` and then the pieces of the rest. */
  lemma SplitAfter(p: string, q: string, c: char)
    requires c !in p
    ensures Split(p + [c] + q, c) == [p] + Split(q, c)
  {
    var s := p + [c] + q;
    IndexOfAfter(p, q, c);
    assert s[..|p|] == p;
    assert s[|p| + 1..] == q;
  }

  /** A prefix free of the separator stays at the head of the first piece. */
  lemma SplitHeadPrefix(p: string, q: string, c: char)
    requires c !in p
    ensures Split(p + q, c)[0] == p + Split(q, c)[0]
  {
    var s := p + q;
    if c in q {
      IndexOfShift(p, q, c);
      var i := IndexOf(q, c);
      assert s[..|p| + i] == p + q[..i];
    } else {
      assert c !in s;
    }
  }
}
