/** Text normalisation of incoming chat messages (`strip_message`) and the
    substring test (Python's `in` on strings) that every classifier uses. */
module Text {

  /** Python's `str.isspace()` for one code point. */
  predicate IsSpace(c: char) {
    || ('\t' <= c <= '\r')
    || ('\U{1C}' <= c <= '\U{1F}')
    || c == ' '
    || c == '\U{85}'
    || c == '\U{A0}'
    || c == '\U{1680}'
    || ('\U{2000}' <= c <= '\U{200A}')
    || c == '\U{2028}'
    || c == '\U{2029}'
    || c == '\U{202F}'
    || c == '\U{205F}'
    || c == '\U{3000}'
  }

  /** The upper-case letters that `LowerChar` maps: ASCII, Latin-1 and the
      Cyrillic capitals U+0400 to U+042F (Ѐ to Џ, А to Я). */
  predicate IsUpper(c: char) {
    || ('A' <= c <= 'Z')
    || ('\U{C0}' <= c <= '\U{DE}' && c != '\U{D7}')
    || ('\U{400}' <= c <= '\U{42F}')
  }

  /** Python's `str.lower()` on one code point, for the scripts the game
      speaks: ASCII, Latin-1 and the Cyrillic capitals U+0400 to U+042F
      (Ѐ to Џ, А to Я). Every other code point is left as it is. */
  function LowerChar(c: char): (r: char)
    ensures !IsUpper(r)
    ensures !IsUpper(c) ==> r == c
    ensures IsSpace(r) <==> IsSpace(c)
    ensures r == '\n' <==> c == '\n'
  {
    if ('A' <= c <= 'Z') || ('\U{C0}' <= c <= '\U{DE}' && c != '\U{D7}') || ('\U{410}' <= c <= '\U{42F}') then
      (c as int + 0x20) as char
    else if '\U{400}' <= c <= '\U{40F}' then
      (c as int + 0x50) as char
    else
      c
  }

  /** A string is lower-case when it holds no upper-case letter. */
  predicate IsLowerCase(s: string) {
    forall i :: 0 <= i < |s| ==> !IsUpper(s[i])
  }

  /** `s.replace('\n', ' ')` */
  function ReplaceNewlines(s: string): (r: string)
    ensures |r| == |s|
    ensures '\n' !in r
    ensures forall i :: 0 <= i < |s| && s[i] != '\n' ==> r[i] == s[i]
  {
    seq(|s|, i requires 0 <= i < |s| => if s[i] == '\n' then ' ' else s[i])
  }

  /** `s.lower()` */
  function Lower(s: string): (r: string)
    ensures |r| == |s|
    ensures IsLowerCase(r)
  {
    seq(|s|, i requires 0 <= i < |s| => LowerChar(s[i]))
  }

  /** `s.lstrip()` */
  function TrimLeft(s: string): string {
    if s != [] && IsSpace(s[0]) then TrimLeft(s[1..]) else s
  }

  /** `s.lstrip()` keeps a suffix of `s`, drops only whitespace, and the
      result does not start with whitespace. */
  lemma {:induction false} TrimLeftFacts(s: string)
    ensures |TrimLeft(s)| <= |s| && TrimLeft(s) == s[|s| - |TrimLeft(s)|..]
    ensures forall i :: 0 <= i < |s| - |TrimLeft(s)| ==> IsSpace(s[i])
    ensures TrimLeft(s) == [] || !IsSpace(TrimLeft(s)[0])
  {
    if s != [] && IsSpace(s[0]) {
      TrimLeftFacts(s[1..]);
      forall i | 1 <= i < |s| - |TrimLeft(s)| ensures IsSpace(s[i]) {
        assert s[i] == s[1..][i - 1];
      }
    }
  }

  /** `s.rstrip()` */
  function TrimRight(s: string): string {
    if s != [] && IsSpace(s[|s| - 1]) then TrimRight(s[..|s| - 1]) else s
  }

  /** `s.rstrip()` keeps a prefix of `s`, drops only whitespace, and the
      result does not end with whitespace. */
  lemma {:induction false} TrimRightFacts(s: string)
    ensures |TrimRight(s)| <= |s| && TrimRight(s) == s[..|TrimRight(s)|]
    ensures forall i :: |TrimRight(s)| <= i < |s| ==> IsSpace(s[i])
    ensures TrimRight(s) == [] || !IsSpace(TrimRight(s)[|TrimRight(s)| - 1])
  {
    if s != [] && IsSpace(s[|s| - 1]) {
      TrimRightFacts(s[..|s| - 1]);
    }
  }

  /** `s.strip()` */
  function Strip(s: string): string {
    TrimRight(TrimLeft(s))
  }

  /** The outer characters of a stripped string are not whitespace. */
  predicate NoOuterSpace(s: string) {
    s == [] || (!IsSpace(s[0]) && !IsSpace(s[|s| - 1]))
  }

  /** `strip_message`: newlines become spaces, the text is stripped and
      lower-cased. */
  function StripMessage(s: string): (r: string)
    ensures '\n' !in r
    ensures NoOuterSpace(r)
    ensures IsLowerCase(r)
  {
    var t := ReplaceNewlines(s);
    StripKeepsCharacters(t);
    StripHasNoOuterSpace(t);
    LowerKeepsLayout(Strip(t));
    Lower(Strip(t))
  }

  /** Lower-casing neither adds a newline nor moves whitespace. */
  lemma LowerKeepsLayout(u: string)
    ensures '\n' in Lower(u) ==> '\n' in u
    ensures NoOuterSpace(u) ==> NoOuterSpace(Lower(u))
  {
    var l := Lower(u);
    if '\n' in l {
      var i :| 0 <= i < |l| && l[i] == '\n';
      assert LowerChar(u[i]) == '\n';
    }
  }

  /** What one raw character becomes inside the normalised text. */
  function NormChar(c: char): char {
    LowerChar(if c == '\n' then ' ' else c)
  }

  /** `pattern` occurs in `text` starting at index `i`. */
  predicate MatchAt(text: string, pattern: string, i: int) {
    0 <= i <= |text| - |pattern| && text[i..i + |pattern|] == pattern
  }

  /** Python's `pattern in text` on strings: substring containment. */
  predicate Contains(text: string, pattern: string) {
    exists i | 0 <= i <= |text| - |pattern| :: MatchAt(text, pattern, i)
  }

  lemma StripKeepsCharacters(t: string)
    ensures forall c :: c in Strip(t) ==> c in t
  {
    var l := TrimLeft(t);
    var r := TrimRight(l);
    TrimLeftFacts(t);
    TrimRightFacts(l);
    forall c | c in r ensures c in t {
      var k :| 0 <= k < |r| && r[k] == c;
      assert l[k] == c;
      assert t[|t| - |l| + k] == c;
    }
  }

  lemma StripHasNoOuterSpace(t: string)
    ensures NoOuterSpace(Strip(t))
  {
    var l := TrimLeft(t);
    var r := TrimRight(l);
    TrimLeftFacts(t);
    TrimRightFacts(l);
    if r != [] {
      assert r[0] == l[0];
    }
  }

  /** Strip removes only a run of whitespace at each end: the result is the
      slice `t[a..a + |Strip(t)|]` and everything outside it is whitespace. */
  lemma StripIsSlice(t: string) returns (a: nat)
    ensures a + |Strip(t)| <= |t|
    ensures Strip(t) == t[a..a + |Strip(t)|]
    ensures forall i :: 0 <= i < a ==> IsSpace(t[i])
    ensures forall i :: a + |Strip(t)| <= i < |t| ==> IsSpace(t[i])
  {
    var l := TrimLeft(t);
    var r := TrimRight(l);
    TrimLeftFacts(t);
    TrimRightFacts(l);
    a := |t| - |l|;
    assert r == l[..|r|];
    assert l == t[a..];
    forall i | a + |r| <= i < |t| ensures IsSpace(t[i]) {
      assert t[i] == l[i - a];
    }
  }

  /** The normalised text is the stripped slice of the raw text, character by
      character: interior newlines are replaced by single spaces, never
      deleted, and everything outside the slice is whitespace. */
  lemma StripMessageIsSlice(s: string) returns (a: nat)
    ensures a + |StripMessage(s)| <= |s|
    ensures forall k :: 0 <= k < |StripMessage(s)| ==> StripMessage(s)[k] == NormChar(s[a + k])
    ensures forall i :: 0 <= i < a ==> IsSpace(s[i])
    ensures forall i :: a + |StripMessage(s)| <= i < |s| ==> IsSpace(s[i])
  {
    var t := ReplaceNewlines(s);
    a := StripIsSlice(t);
    var r := StripMessage(s);
    forall k | 0 <= k < |r| ensures r[k] == NormChar(s[a + k]) {
      assert r[k] == LowerChar(Strip(t)[k]);
      assert Strip(t)[k] == t[a + k];
      assert t[a + k] == if s[a + k] == '\n' then ' ' else s[a + k];
    }
    forall i | 0 <= i < |s| && IsSpace(t[i]) ensures IsSpace(s[i]) {
      assert t[i] == if s[i] == '\n' then ' ' else s[i];
    }
  }

  lemma LowerOfLowerCase(s: string)
    requires IsLowerCase(s)
    ensures Lower(s) == s
  {
  }

  /** `strip_message` is idempotent. */
  lemma {:induction false} StripMessageIdempotent(s: string)
    ensures StripMessage(StripMessage(s)) == StripMessage(s)
  {
    NormalisedUnchanged(StripMessage(s));
  }

  /** A text without newlines, outer whitespace or upper-case letters is
      its own normalised form. */
  lemma {:induction false} NormalisedUnchanged(r: string)
    requires '\n' !in r && NoOuterSpace(r) && IsLowerCase(r)
    ensures StripMessage(r) == r
  {
    NoNewlineUnchanged(r);
    NoOuterSpaceUnchanged(r);
    LowerOfLowerCase(r);
  }

  lemma NoNewlineUnchanged(s: string)
    requires '\n' !in s
    ensures ReplaceNewlines(s) == s
  {
  }

  lemma NoOuterSpaceUnchanged(s: string)
    requires NoOuterSpace(s)
    ensures Strip(s) == s
  {
    if s != [] {
      assert TrimLeft(s) == s;
      assert TrimRight(s) == s;
    }
  }

  /** Stripping and lower-casing an already normalised text changes nothing;
      this is the `.lower().strip()` the operator channel applies after
      `strip_message`. */
  lemma {:induction false} NormalisedIsFixedPoint(r: string)
    requires '\n' !in r && NoOuterSpace(r) && IsLowerCase(r)
    ensures Strip(Lower(r)) == r
  {
    LowerOfLowerCase(r);
    if r != [] {
      assert TrimLeft(r) == r;
      assert TrimRight(r) == r;
    }
  }

  /** Two texts with whitespace at the same places and the same
      characters once lower-cased. */
  predicate Similar(t1: string, t2: string) {
    && |t1| == |t2|
    && forall i :: 0 <= i < |t1| ==> (IsSpace(t1[i]) <==> IsSpace(t2[i])) && LowerChar(t1[i]) == LowerChar(t2[i])
  }

  lemma {:induction false} TrimLeftSimilar(t1: string, t2: string)
    requires Similar(t1, t2)
    ensures Similar(TrimLeft(t1), TrimLeft(t2))
    decreases |t1|
  {
    if t1 != [] && IsSpace(t1[0]) {
      assert Similar(t1[1..], t2[1..]) by {
        forall i | 0 <= i < |t1| - 1 ensures t1[1..][i] == t1[i + 1] && t2[1..][i] == t2[i + 1] {}
      }
      TrimLeftSimilar(t1[1..], t2[1..]);
    }
  }

  lemma {:induction false} TrimRightSimilar(t1: string, t2: string)
    requires Similar(t1, t2)
    ensures Similar(TrimRight(t1), TrimRight(t2))
    decreases |t1|
  {
    if t1 != [] && IsSpace(t1[|t1| - 1]) {
      assert Similar(t1[..|t1| - 1], t2[..|t2| - 1]);
      TrimRightSimilar(t1[..|t1| - 1], t2[..|t2| - 1]);
    }
  }

  lemma ReplaceNewlinesSimilar(s1: string, s2: string)
    requires |s1| == |s2|
    requires forall i :: 0 <= i < |s1| ==> NormChar(s1[i]) == NormChar(s2[i])
    ensures Similar(ReplaceNewlines(s1), ReplaceNewlines(s2))
  {
    var t1, t2 := ReplaceNewlines(s1), ReplaceNewlines(s2);
    forall i | 0 <= i < |t1| ensures (IsSpace(t1[i]) <==> IsSpace(t2[i])) && LowerChar(t1[i]) == LowerChar(t2[i]) {
      assert NormChar(s1[i]) == LowerChar(t1[i]);
      assert NormChar(s2[i]) == LowerChar(t2[i]);
    }
  }

  /** `strip_message` sees a raw text only through `NormChar`: changing the
      case of a letter, or a newline into a space, never changes the result. */
  lemma {:induction false} StripMessageRespectsNormChar(s1: string, s2: string)
    requires |s1| == |s2|
    requires forall i :: 0 <= i < |s1| ==> NormChar(s1[i]) == NormChar(s2[i])
    ensures StripMessage(s1) == StripMessage(s2)
  {
    var t1, t2 := ReplaceNewlines(s1), ReplaceNewlines(s2);
    ReplaceNewlinesSimilar(s1, s2);
    TrimLeftSimilar(t1, t2);
    TrimRightSimilar(TrimLeft(t1), TrimLeft(t2));
    assert Strip(t1) == TrimRight(TrimLeft(t1)) && Strip(t2) == TrimRight(TrimLeft(t2));
  }

  /** Appending text behind a message whose stripped form is non-empty keeps
      that stripped form as a prefix. */
  lemma {:induction false} TrimLeftAppend(x: string, y: string)
    requires TrimLeft(x) != []
    ensures TrimLeft(x + y) == TrimLeft(x) + y
  {
    assert (x + y)[0] == x[0];
    if IsSpace(x[0]) {
      assert (x + y)[1..] == x[1..] + y;
      assert TrimLeft(x) == TrimLeft(x[1..]);
      TrimLeftAppend(x[1..], y);
    }
  }

  lemma {:induction false} TrimRightAppend(x: string, y: string)
    ensures TrimRight(x) <= TrimRight(x + y)
    decreases |y|
  {
    if y != [] {
      var z := x + y;
      TrimRightFacts(x);
      if IsSpace(z[|z| - 1]) {
        assert z[..|z| - 1] == x + y[..|y| - 1];
        TrimRightAppend(x, y[..|y| - 1]);
      } else {
        assert TrimRight(x) <= x <= z;
      }
    } else {
      assert x + y == x;
    }
  }

  /** Appending raw text keeps the normalised text a prefix of the new
      normalised text. */
  lemma {:induction false} StripMessageAppend(s: string, u: string)
    ensures StripMessage(s) <= StripMessage(s + u)
  {
    if StripMessage(s) == [] {
      return;
    }
    var x, y := ReplaceNewlines(s), ReplaceNewlines(u);
    ReplaceNewlinesAppend(s, u);
    assert StripMessage(s) == Lower(Strip(x));
    assert StripMessage(s + u) == Lower(Strip(x + y));
    assert TrimLeft(x) != [];
    TrimLeftAppend(x, y);
    TrimRightAppend(TrimLeft(x), y);
    LowerPrefix(Strip(x), Strip(x + y));
  }

  lemma ReplaceNewlinesAppend(s: string, u: string)
    ensures ReplaceNewlines(s + u) == ReplaceNewlines(s) + ReplaceNewlines(u)
  {
  }

  lemma LowerPrefix(p: string, q: string)
    requires p <= q
    ensures Lower(p) <= Lower(q)
  {
    assert Lower(p) == Lower(q)[..|p|];
  }

  /** Containment survives extending the text behind a prefix. */
  lemma ContainsExtend(t: string, t': string, p: string)
    requires t <= t' && Contains(t, p)
    ensures Contains(t', p)
  {
    var i :| 0 <= i <= |t| - |p| && MatchAt(t, p, i);
    assert t'[i..i + |p|] == t[i..i + |p|];
    assert MatchAt(t', p, i);
  }

  /** Containment is transitive: a text holding a word holds every part of
      that word. */
  lemma ContainsTransitive(a: string, b: string, c: string)
    requires Contains(a, b) && Contains(b, c)
    ensures Contains(a, c)
  {
    var i :| 0 <= i <= |a| - |b| && MatchAt(a, b, i);
    var j :| 0 <= j <= |b| - |c| && MatchAt(b, c, j);
    assert a[i..i + |b|] == b;
    forall k | 0 <= k < |c| ensures a[i + j + k] == c[k] {
      assert a[i + j + k] == a[i..i + |b|][j + k] == b[j + k] == b[j..j + |c|][k];
    }
    assert a[i + j..i + j + |c|] == c;
    assert MatchAt(a, c, i + j);
  }

  /** A text that contains a non-empty pattern is itself non-empty. */
  lemma ContainsNonEmpty(t: string, p: string)
    requires Contains(t, p) && p != []
    ensures t != []
  {
  }

  /** Every text contains itself. */
  lemma ContainsSelf(t: string)
    ensures Contains(t, t)
  {
    assert MatchAt(t, t, 0);
  }
}
