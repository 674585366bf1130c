/** The three Python string operations the core relies on: `str.strip()`,
    `str.lower()` and the substring test `w in t`. */
module Text {

  /** Python's `str.isspace()`: the code points of bidirectional class WS, B
      or S, or of general category Zs. */
  predicate IsSpace(c: char) {
    c == ' ' || c == '\t' || c == '\n' || c == '\r' || c == '\U{000B}' || c == '\U{000C}'
    || ('\U{001C}' <= c <= '\U{001F}') || c == '\U{0085}' || c == '\U{00A0}' || c == '\U{1680}'
    || ('\U{2000}' <= c <= '\U{200A}') || c == '\U{2028}' || c == '\U{2029}' || c == '\U{202F}'
    || c == '\U{205F}' || c == '\U{3000}'
  }

  predicate AllSpace(s: string) {
    forall k :: 0 <= k < |s| ==> IsSpace(s[k])
  }

  /** `s.lstrip()`: drops the leading whitespace and nothing else. */
  function TrimStart(s: string): (r: string)
    ensures |r| <= |s| && r == s[|s| - |r|..]
    ensures AllSpace(s[..|s| - |r|])
    ensures r == [] || !IsSpace(r[0])
  {
    if s != [] && IsSpace(s[0]) then TrimStart(s[1..]) else s
  }

  /** `s.rstrip()`: drops the trailing whitespace and nothing else. */
  function TrimEnd(s: string): (r: string)
    ensures |r| <= |s| && r == s[..|r|]
    ensures AllSpace(s[|r|..])
    ensures r == [] || !IsSpace(r[|r| - 1])
  {
    if s != [] && IsSpace(s[|s| - 1]) then TrimEnd(s[..|s| - 1]) else s
  }

  /** `s.strip()`. */
  function Strip(s: string): (r: string)
    ensures r == [] || (!IsSpace(r[0]) && !IsSpace(r[|r| - 1]))
  {
    TrimEnd(TrimStart(s))
  }

  /** Stripping removes exactly the whitespace padding around a text that
      neither starts nor ends with whitespace. */
  lemma StripPadding(pre: string, s: string, post: string)
    requires AllSpace(pre) && AllSpace(post)
    requires s == [] || (!IsSpace(s[0]) && !IsSpace(s[|s| - 1]))
    ensures Strip(pre + s + post) == s
  {
    if s == [] {
      assert pre + s + post == (pre + post) + [];
      TrimStartPadding(pre + post, []);
    } else {
      TrimStartPadding(pre, s + post);
      assert pre + s + post == pre + (s + post);
      TrimEndPadding(s, post);
    }
  }

  lemma {:induction false} TrimStartPadding(pre: string, s: string)
    requires AllSpace(pre)
    requires s == [] || !IsSpace(s[0])
    ensures TrimStart(pre + s) == s
    decreases |pre|
  {
    if pre == [] {
      assert pre + s == s;
    } else {
      assert (pre + s)[1..] == pre[1..] + s;
      TrimStartPadding(pre[1..], s);
    }
  }

  lemma {:induction false} TrimEndPadding(s: string, post: string)
    requires AllSpace(post)
    requires s == [] || !IsSpace(s[|s| - 1])
    ensures TrimEnd(s + post) == s
    decreases |post|
  {
    if post == [] {
      assert s + post == s;
    } else {
      assert (s + post)[..|s + post| - 1] == s + post[..|post| - 1];
      TrimEndPadding(s, post[..|post| - 1]);
    }
  }

  /** `c.lower()` restricted to ASCII: the Unicode case mapping is not part of
      this model. */
  function LowerChar(c: char): char {
    if 'A' <= c <= 'Z' then (c as int - 'A' as int + 'a' as int) as char else c
  }

  function Lower(s: string): (r: string)
    ensures |r| == |s|
    ensures forall k :: 0 <= k < |s| ==> r[k] == LowerChar(s[k])
  {
    seq(|s|, k requires 0 <= k < |s| => LowerChar(s[k]))
  }

  /** Lowering leaves a text without ASCII capitals unchanged (Persian
      text in particular). */
  lemma LowerWithoutCapitals(s: string)
    requires forall k :: 0 <= k < |s| ==> !('A' <= s[k] <= 'Z')
    ensures Lower(s) == s
  {
  }

  /** `w` occurs in `t` at position `i`. */
  ghost predicate OccursAt(w: string, t: string, i: int) {
    0 <= i <= |t| - |w| && t[i..i + |w|] == w
  }

  /** `t` starts with `w`, compared character by character. */
  function StartsWith(t: string, w: string): bool {
    w == [] || (t != [] && t[0] == w[0] && StartsWith(t[1..], w[1..]))
  }

  lemma {:induction false} StartsWithPrefix(t: string, w: string)
    ensures StartsWith(t, w) <==> |w| <= |t| && t[..|w|] == w
  {
    if w != [] && t != [] {
      StartsWithPrefix(t[1..], w[1..]);
      if |w| <= |t| {
        assert t[..|w|] == [t[0]] + t[1..][..|w| - 1];
      }
    }
  }

  /** Python's `w in t` for strings. */
  function Contains(t: string, w: string): bool
    decreases |t|
  {
    if StartsWith(t, w) then true
    else if t == [] then false
    else Contains(t[1..], w)
  }

  /** `w in t` holds exactly when `w` occurs at some position of `t`. */
  lemma {:induction false} ContainsOccurs(t: string, w: string)
    ensures Contains(t, w) <==> exists i :: OccursAt(w, t, i)
    decreases |t|
  {
    StartsWithPrefix(t, w);
    if StartsWith(t, w) {
      assert OccursAt(w, t, 0);
    } else if t == [] {
    } else {
      ContainsOccurs(t[1..], w);
      OccursShift(w, t);
      if exists i :: OccursAt(w, t, i) {
        var i :| OccursAt(w, t, i);
        assert i != 0 && OccursAt(w, t[1..], i - 1);
      }
      if exists j :: OccursAt(w, t[1..], j) {
        var j :| OccursAt(w, t[1..], j);
        assert OccursAt(w, t, j + 1);
      }
    }
  }

  /** Occurrences in `t[1..]` are the occurrences in `t` after position 0. */
  lemma OccursShift(w: string, t: string)
    requires t != []
    ensures forall i :: 1 <= i ==> (OccursAt(w, t[1..], i - 1) <==> OccursAt(w, t, i))
  {
    forall i | 1 <= i ensures OccursAt(w, t[1..], i - 1) <==> OccursAt(w, t, i) {
      if 0 <= i - 1 <= |t[1..]| - |w| {
        assert t[1..][i - 1..i - 1 + |w|] == t[i..i + |w|];
      }
    }
  }
}
