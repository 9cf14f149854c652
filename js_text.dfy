/** The two JavaScript string operations the bot applies to an incoming
    message body: `String.prototype.trim` and `String.prototype.toUpperCase`
    (app.js:72). */
module JsText {

  /** The characters `trim` removes: ECMAScript's WhiteSpace (tab, vertical
      tab, form feed, the zero-width no-break space and every space separator)
      and LineTerminator (line feed, carriage return, line and paragraph
      separator). */
  predicate IsTrimSpace(c: char) {
    || c == '\t' || c == '\n' || c == '\U{000B}' || c == '\U{000C}' || c == '\r'
    || c == ' ' || c == '\U{00A0}' || c == '\U{1680}'
    || ('\U{2000}' <= c <= '\U{200A}')
    || c == '\U{2028}' || c == '\U{2029}' || c == '\U{202F}' || c == '\U{205F}'
    || c == '\U{3000}' || c == '\U{FEFF}'
  }

  /** Every character of `s[lo..hi]` is trimmable. */
  predicate SpaceBetween(s: string, lo: int, hi: int)
    requires 0 <= lo && hi <= |s|
  {
    forall i :: lo <= i < hi ==> IsTrimSpace(s[i])
  }

  predicate AllSpace(s: string) {
    SpaceBetween(s, 0, |s|)
  }

  /** A string neither starting nor ending with a trimmable character. */
  predicate Trimmed(s: string) {
    s == [] || (!IsTrimSpace(s[0]) && !IsTrimSpace(s[|s| - 1]))
  }

  /** The first index from `i` on that holds no trimmable character, or
      `|s|`: where the text that `trim` keeps begins. */
  function SkipForward(s: string, i: nat): (n: nat)
    requires i <= |s|
    ensures i <= n <= |s| && SpaceBetween(s, i, n)
    ensures n < |s| ==> !IsTrimSpace(s[n])
    decreases |s| - i
  {
    if i < |s| && IsTrimSpace(s[i]) then SkipForward(s, i + 1) else i
  }

  /** The index just past the last character before `j`, and from `lo` on,
      that is not trimmable, or `lo`: where the text that `trim` keeps ends. */
  function SkipBackward(s: string, lo: nat, j: nat): (n: nat)
    requires lo <= j <= |s|
    ensures lo <= n <= j && SpaceBetween(s, n, j)
    ensures n > lo ==> !IsTrimSpace(s[n - 1])
    decreases j
  {
    if j > lo && IsTrimSpace(s[j - 1]) then SkipBackward(s, lo, j - 1) else j
  }

  /** The position found by SkipForward is the only one with space before it
      and a non-space character, or the end, at it. */
  lemma SkipForwardUnique(s: string, i: nat, m: nat)
    requires i <= m <= |s| && SpaceBetween(s, i, m)
    requires m < |s| ==> !IsTrimSpace(s[m])
    ensures SkipForward(s, i) == m
  {
  }

  /** The position found by SkipBackward is the only one with space after it
      and a non-space character, or `lo`, just before it. */
  lemma SkipBackwardUnique(s: string, lo: nat, j: nat, m: nat)
    requires lo <= m <= j <= |s| && SpaceBetween(s, m, j)
    requires m > lo ==> !IsTrimSpace(s[m - 1])
    ensures SkipBackward(s, lo, j) == m
  {
  }

  /** `String.prototype.trim`: the slice of `s` from its first to its last
      non-space character, with nothing but space around it. */
  function Trim(s: string): (r: string)
    ensures |r| <= |s| && Trimmed(r)
    ensures exists a :: 0 <= a <= |s| - |r| && r == s[a..a + |r|]
                        && SpaceBetween(s, 0, a) && SpaceBetween(s, a + |r|, |s|)
  {
    var a := SkipForward(s, 0);
    var b := SkipBackward(s, a, |s|);
    assert b > a ==> !IsTrimSpace(s[a]) && s[a..b][0] == s[a];
    assert b > a ==> s[a..b][b - a - 1] == s[b - 1];
    s[a..b]
  }

  /** Trimming a word surrounded by space gives back the word, whatever the
      space around it. */
  lemma TrimPadded(pre: string, w: string, post: string)
    requires AllSpace(pre) && AllSpace(post) && Trimmed(w)
    ensures Trim(pre + w + post) == w
  {
    var s := pre + w + post;
    var a, b := |pre|, |pre| + |w|;
    assert s[a..b] == w;
    if w == [] {
      assert SpaceBetween(s, 0, |s|) by {
        forall i | 0 <= i < |s| ensures IsTrimSpace(s[i]) {
          if i < |pre| { assert s[i] == pre[i]; } else { assert s[i] == post[i - |pre|]; }
        }
      }
      SkipForwardUnique(s, 0, |s|);
      SkipBackwardUnique(s, |s|, |s|, |s|);
    } else {
      assert SpaceBetween(s, 0, a) by {
        forall i | 0 <= i < a ensures IsTrimSpace(s[i]) { assert s[i] == pre[i]; }
      }
      assert SpaceBetween(s, b, |s|) by {
        forall i | b <= i < |s| ensures IsTrimSpace(s[i]) { assert s[i] == post[i - b]; }
      }
      assert s[a] == w[0] && s[b - 1] == w[|w| - 1];
      SkipForwardUnique(s, 0, a);
      SkipBackwardUnique(s, a, |s|, b);
    }
  }

  /** Trimming twice is trimming once. */
  lemma TrimIdempotent(s: string)
    ensures Trim(Trim(s)) == Trim(s)
  {
    TrimPadded([], Trim(s), []);
    assert [] + Trim(s) + [] == Trim(s);
  }

  /** `toUpperCase` on one character, for the ASCII letters. */
  function UpperChar(c: char): (u: char)
    ensures !('a' <= u <= 'z')
    ensures IsTrimSpace(u) <==> IsTrimSpace(c)
    ensures !('a' <= c <= 'z') ==> u == c
    ensures 'a' <= c <= 'z' ==> u as int == c as int - 32
  {
    if 'a' <= c <= 'z' then (c as int - 32) as char else c
  }

  /** `String.prototype.toUpperCase`, restricted to ASCII letters: the result
      maps each character of `s` in place and holds no lower-case letter. */
  function ToUpper(s: string): (r: string)
    ensures |r| == |s|
    ensures forall i :: 0 <= i < |s| ==> r[i] == UpperChar(s[i])
    ensures forall i :: 0 <= i < |r| ==> !('a' <= r[i] <= 'z')
  {
    if s == [] then [] else [UpperChar(s[0])] + ToUpper(s[1..])
  }

  /** The normalisation app.js:72 applies before matching a menu code. */
  function Normalize(s: string): (r: string)
    ensures |r| <= |s| && Trimmed(r)
    ensures forall i :: 0 <= i < |r| ==> !('a' <= r[i] <= 'z')
  {
    var t := Trim(s);
    var r := ToUpper(t);
    assert |r| > 0 ==> r[0] == UpperChar(t[0]) && r[|r| - 1] == UpperChar(t[|t| - 1]);
    r
  }

  /** The normalised body is the upper-casing of the body with only space
      cut from either end. */
  lemma NormalizeSlice(s: string)
    ensures var r := Normalize(s);
      exists a :: && 0 <= a <= |s| - |r| && r == ToUpper(s[a..a + |r|])
                  && SpaceBetween(s, 0, a) && SpaceBetween(s, a + |r|, |s|)
  {
    var t := Trim(s);
    var a :| 0 <= a <= |s| - |t| && t == s[a..a + |t|]
             && SpaceBetween(s, 0, a) && SpaceBetween(s, a + |t|, |s|);
    assert Normalize(s) == ToUpper(s[a..a + |t|]);
  }

  lemma {:induction false} ToUpperIdempotent(s: string)
    ensures ToUpper(ToUpper(s)) == ToUpper(s)
  {
    var u := ToUpper(s);
    assert forall i :: 0 <= i < |u| ==> UpperChar(u[i]) == u[i];
  }

  /** Normalising an already normalised body changes nothing. */
  lemma NormalizeIdempotent(s: string)
    ensures Normalize(Normalize(s)) == Normalize(s)
  {
    var t := Trim(s);
    var u := ToUpper(t);
    assert Trimmed(u);
    TrimPadded([], u, []);
    assert [] + u + [] == u;
    ToUpperIdempotent(t);
  }

  /** Any mix of case, surrounded by any space, normalises to the upper-case
      word: this is why " Hi " and "hey" select the same reply as "HI". */
  lemma NormalizePadded(pre: string, w: string, post: string)
    requires AllSpace(pre) && AllSpace(post) && Trimmed(w)
    ensures Normalize(pre + w + post) == ToUpper(w)
  {
    TrimPadded(pre, w, post);
  }
}
