/** The string operations of Python's `str` that the pipeline relies on:
    `strip`, `in` on substrings, `lower`, `title`, slicing, `replace`,
    `split(...)[-1]`, `find`/`rfind`, and code-point ordering for `sorted`. */
module Text {

  /** Python's `str.isspace()`: exactly the characters `str.strip()` removes. */
  predicate IsSpace(c: char) {
    ('\t' <= c <= '\r') || ('\U{1c}' <= c <= ' ') || c == '\U{85}' || c == '\U{a0}'
    || c == '\U{1680}' || ('\U{2000}' <= c <= '\U{200a}') || c == '\U{2028}' || c == '\U{2029}'
    || c == '\U{202f}' || c == '\U{205f}' || c == '\U{3000}'
  }

  /** `s.lstrip()`: the suffix left after dropping leading whitespace. */
  function TrimStart(s: string): (r: string)
    ensures |r| <= |s| && r == s[|s| - |r|..]
    ensures forall k :: 0 <= k < |s| - |r| ==> IsSpace(s[k])
    ensures r != [] ==> !IsSpace(r[0])
  {
    if s != [] && IsSpace(s[0]) then TrimStart(s[1..]) else s
  }

  /** `s.rstrip()`: the prefix left after dropping trailing whitespace. */
  function TrimEnd(s: string): (r: string)
    ensures |r| <= |s| && r == s[..|r|]
    ensures forall k :: |r| <= k < |s| ==> IsSpace(s[k])
    ensures r != [] ==> !IsSpace(r[|r| - 1])
  {
    if s != [] && IsSpace(s[|s| - 1]) then TrimEnd(s[..|s| - 1]) else s
  }

  /** `s.strip()`. */
  function Strip(s: string): (r: string)
    ensures |r| <= |s|
    ensures r != [] ==> !IsSpace(r[0]) && !IsSpace(r[|r| - 1])
  {
    TrimEnd(TrimStart(s))
  }

  /** `strip()` only removes characters. */
  lemma StripKeepsChars(s: string)
    ensures forall c :: c in Strip(s) ==> c in s
  {
    var t := TrimStart(s);
    assert forall c :: c in TrimEnd(t) ==> c in t;
  }

  /** A string without surrounding whitespace is its own `strip()`. */
  lemma StripUnchanged(s: string)
    requires s != [] ==> !IsSpace(s[0]) && !IsSpace(s[|s| - 1])
    ensures Strip(s) == s
  {
  }

  /** Stripping is idempotent. */
  lemma StripIdempotent(s: string)
    ensures Strip(Strip(s)) == Strip(s)
  {
    StripUnchanged(Strip(s));
  }

  /** Stripping only removes whitespace: a string of non-space characters
      wrapped in whitespace strips to exactly that string. */
  lemma {:induction false} StripSurrounded(a: string, m: string, b: string)
    requires forall k :: 0 <= k < |a| ==> IsSpace(a[k])
    requires forall k :: 0 <= k < |b| ==> IsSpace(b[k])
    requires m != [] ==> !IsSpace(m[0]) && !IsSpace(m[|m| - 1])
    ensures Strip(a + m + b) == m
  {
    if m == [] {
      AllSpaceStripsEmpty(a + b);
      assert a + m + b == a + b;
    } else {
      TrimStartPrefix(a, m + b);
      assert a + m + b == a + (m + b);
      TrimEndSuffix(m, b);
    }
  }

  lemma {:induction false} TrimStartPrefix(a: string, t: string)
    requires forall k :: 0 <= k < |a| ==> IsSpace(a[k])
    requires t != [] && !IsSpace(t[0])
    ensures TrimStart(a + t) == t
  {
    if a != [] {
      assert (a + t)[1..] == a[1..] + t;
      TrimStartPrefix(a[1..], t);
    }
  }

  lemma {:induction false} TrimEndSuffix(t: string, b: string)
    requires forall k :: 0 <= k < |b| ==> IsSpace(b[k])
    requires t != [] && !IsSpace(t[|t| - 1])
    ensures TrimEnd(t + b) == t
  {
    if b != [] {
      assert (t + b)[..|t + b| - 1] == t + b[..|b| - 1];
      TrimEndSuffix(t, b[..|b| - 1]);
    }
  }

  lemma AllSpaceStripsEmpty(s: string)
    requires forall k :: 0 <= k < |s| ==> IsSpace(s[k])
    ensures Strip(s) == []
  {
  }

  /** `s.startswith(p)`. */
  predicate StartsWith(s: string, p: string) {
    |p| <= |s| && s[..|p|] == p
  }

  /** `p` occurs in `s` at offset `i`. */
  predicate OccursAt(s: string, p: string, i: nat) {
    i + |p| <= |s| && s[i..i + |p|] == p
  }

  /** Python's `p in s` for strings. */
  predicate Contains(s: string, p: string) {
    exists i :: 0 <= i <= |s| && OccursAt(s, p, i)
  }

  /** Every occurrence sits at some offset. */
  lemma ContainsOffset(s: string, p: string) returns (i: nat)
    requires Contains(s, p)
    ensures OccursAt(s, p, i)
  {
    i :| 0 <= i <= |s| && OccursAt(s, p, i);
  }

  /** A non-empty needle can only occur where its first character occurs. */
  lemma ContainsCharAt(s: string, p: string, k: nat)
    requires k < |p| && Contains(s, p)
    ensures p[k] in s
  {
    var i := ContainsOffset(s, p);
    assert s[i + k] == s[i..i + |p|][k];
  }

  /** Concatenation keeps the occurrences of both parts. */
  lemma ContainsConcat(a: string, b: string, p: string)
    ensures Contains(a, p) ==> Contains(a + b, p)
    ensures Contains(b, p) ==> Contains(a + b, p)
  {
    if Contains(a, p) {
      var i := ContainsOffset(a, p);
      assert (a + b)[i..i + |p|] == a[i..i + |p|];
      assert OccursAt(a + b, p, i);
    }
    if Contains(b, p) {
      var i := ContainsOffset(b, p);
      assert (a + b)[|a| + i..|a| + i + |p|] == b[i..i + |p|];
      assert OccursAt(a + b, p, |a| + i);
    }
  }

  /** Python's `lower()` on one character, for the ASCII and Latin-1 letters
      and the Kelvin and Angstrom signs. */
  function LowerChar(c: char): char {
    if 'A' <= c <= 'Z' || ('\U{c0}' <= c <= '\U{de}' && c != '\U{d7}') then (c as int + 32) as char
    else if c == '\U{212a}' then 'k'
    else if c == '\U{212b}' then '\U{e5}'
    else c
  }

  /** `s.lower()`, character by character. */
  function Lower(s: string): (r: string)
    ensures |r| == |s| && forall i :: 0 <= i < |s| ==> r[i] == LowerChar(s[i])
  {
    seq(|s|, i requires 0 <= i < |s| => LowerChar(s[i]))
  }

  /** A needle with two adjacent characters that never sit side by side in
      `s` does not occur in `s`. */
  lemma PairAbsent(s: string, p: string, k: nat)
    requires k + 1 < |p|
    requires forall i :: 0 <= i < |s| - 1 ==> !(s[i] == p[k] && s[i + 1] == p[k + 1])
    ensures !Contains(s, p)
  {
    if Contains(s, p) {
      var j := ContainsOffset(s, p);
      PairAt(s, p, j, k);
      assert false;
    }
  }

  lemma PairAt(s: string, p: string, j: nat, k: nat)
    requires OccursAt(s, p, j) && k + 1 < |p|
    ensures j + k + 1 < |s| && s[j + k] == p[k] && s[j + k + 1] == p[k + 1]
  {
    assert s[j..j + |p|][k] == s[j + k] && s[j..j + |p|][k + 1] == s[j + k + 1];
  }

  /** The character class a letter belongs to under the `re.IGNORECASE` flag:
      its lower case, with the extra equivalences Python's `re` adds for
      dotted/dotless i and the long s. */
  function FoldChar(c: char): char {
    if c == '\U{130}' || c == '\U{131}' then 'i'
    else if c == '\U{17f}' then 's'
    else LowerChar(c)
  }

  /** Folds every character of `s`. */
  function Fold(s: string): (r: string)
    ensures |r| == |s| && forall i :: 0 <= i < |s| ==> r[i] == FoldChar(s[i])
  {
    seq(|s|, i requires 0 <= i < |s| => FoldChar(s[i]))
  }

  /** `re.search(p, s, re.IGNORECASE)` for a literal pattern `p`. */
  predicate ContainsIgnoreCase(s: string, p: string) {
    Contains(Fold(s), Fold(p))
  }

  /** The characters `str.title()` treats as having case, as far as this
      model knows them: ASCII and Latin-1 letters, the micro sign and the
      ordinal indicators. */
  predicate IsCased(c: char) {
    'A' <= c <= 'Z' || 'a' <= c <= 'z' || c == '\U{b5}' || c == '\U{aa}' || c == '\U{ba}'
    || ('\U{c0}' <= c <= '\U{ff}' && c != '\U{d7}' && c != '\U{f7}')
  }

  /** The title-case form of a cased character (ß becomes "Ss", as in Python). */
  function TitleOf(c: char): (r: string)
    requires IsCased(c)
    ensures r != [] && forall k :: 0 <= k < |r| ==> !IsSpace(r[k]) && r[k] != ','
  {
    if 'a' <= c <= 'z' || ('\U{e0}' <= c <= '\U{fe}' && c != '\U{f7}') then [(c as int - 32) as char]
    else if c == '\U{df}' then "Ss"
    else if c == '\U{ff}' then "\U{178}"
    else if c == '\U{b5}' then "\U{39c}"
    else [c]
  }

  /** `str.title()` from a position whose preceding character was cased or not:
      a cased character after an uncased one is title-cased, one after a cased
      one is lower-cased, and uncased characters are kept. */
  function TitleFrom(s: string, afterCased: bool): (r: string)
    ensures (r == []) == (s == [])
    ensures s != [] && !IsSpace(s[0]) ==> !IsSpace(r[0])
    ensures s != [] && !IsSpace(s[|s| - 1]) ==> !IsSpace(r[|r| - 1])
    ensures ',' !in s ==> ',' !in r
    decreases |s|
  {
    if s == [] then []
    else
      var head := if !IsCased(s[0]) then [s[0]] else if afterCased then [LowerChar(s[0])] else TitleOf(s[0]);
      head + TitleFrom(s[1..], IsCased(s[0]))
  }

  /** `s.title()`. */
  function Title(s: string): string {
    TitleFrom(s, false)
  }

  /** `s[:n]`. */
  function Truncate(s: string, n: nat): (r: string)
    ensures |r| <= n && |r| <= |s| && r == s[..|r|]
    ensures |s| <= n ==> r == s
    ensures n <= |s| ==> |r| == n
  {
    if |s| <= n then s else s[..n]
  }

  /** `s.replace(a, b)` for single characters. */
  function ReplaceChar(s: string, a: char, b: char): (r: string)
    ensures |r| == |s|
    ensures forall i :: 0 <= i < |s| ==> r[i] == (if s[i] == a then b else s[i])
  {
    seq(|s|, i requires 0 <= i < |s| => if s[i] == a then b else s[i])
  }

  /** `s.replace(p, "")`: every non-overlapping occurrence of `p`, scanning
      from the left, is removed. */
  function RemoveAll(s: string, p: string): (r: string)
    requires p != []
    ensures |r| <= |s|
    decreases |s|
  {
    if s == [] then []
    else if StartsWith(s, p) then RemoveAll(s[|p|..], p)
    else [s[0]] + RemoveAll(s[1..], p)
  }

  /** Removing a needle that starts with a character absent from `s` leaves `s` as it is. */
  lemma {:induction false} RemoveAllAbsent(s: string, p: string)
    requires p != [] && p[0] !in s
    ensures RemoveAll(s, p) == s
    decreases |s|
  {
    if s != [] {
      assert s[0] != p[0];
      RemoveAllAbsent(s[1..], p);
    }
  }

  /** Removing a one-character needle drops exactly that character. */
  lemma {:induction false} RemoveAllChar(s: string, c: char)
    ensures forall x :: x in RemoveAll(s, [c]) <==> x in s && x != c
    decreases |s|
  {
    if s != [] {
      RemoveAllChar(s[1..], c);
      assert StartsWith(s, [c]) <==> s[0] == c;
      assert forall x :: x in s <==> x == s[0] || x in s[1..];
      assert s[|[c]|..] == s[1..];
    }
  }

  /** A prefix free of the needle's first character passes through untouched. */
  lemma {:induction false} RemoveAllKeepsPrefix(a: string, b: string, p: string)
    requires p != [] && p[0] !in a
    ensures RemoveAll(a + b, p) == a + RemoveAll(b, p)
    decreases |a|
  {
    if a == [] {
      assert a + b == b;
    } else {
      assert (a + b)[0] == a[0] && (a + b)[1..] == a[1..] + b;
      RemoveAllKeepsPrefix(a[1..], b, p);
      assert [a[0]] + (a[1..] + RemoveAll(b, p)) == a + RemoveAll(b, p);
    }
  }

  /** `s.split(sep)[-1]`: the text after the last separator, or all of `s`. */
  function LastSegment(s: string, sep: char): (r: string)
    ensures sep !in r
    ensures |r| <= |s| && r == s[|s| - |r|..]
    ensures |r| < |s| ==> s[|s| - |r| - 1] == sep
    decreases |s|
  {
    if s == [] then []
    else if s[|s| - 1] == sep then []
    else
      var t := s[..|s| - 1];
      var r := LastSegment(t, sep);
      assert sep !in r + [s[|s| - 1]] by {
        assert forall x :: x in r + [s[|s| - 1]] ==> x in r || x == s[|s| - 1];
      }
      assert r + [s[|s| - 1]] == s[|s| - |r| - 1..] by {
        assert r == t[|t| - |r|..];
      }
      assert |r| < |t| ==> s[|s| - |r| - 2] == t[|t| - |r| - 1];
      r + [s[|s| - 1]]
  }

  /** The segment after the last separator. */
  lemma {:induction false} LastSegmentAfter(a: string, b: string, sep: char)
    requires sep !in b
    ensures LastSegment(a + [sep] + b, sep) == b
    decreases |b|
  {
    var s := a + [sep] + b;
    if b == [] {
      assert s[|s| - 1] == sep;
    } else {
      var b' := b[..|b| - 1];
      assert s[..|s| - 1] == a + [sep] + b';
      assert s[|s| - 1] == b[|b| - 1];
      LastSegmentAfter(a, b', sep);
      assert b' + [b[|b| - 1]] == b;
    }
  }

  /** The two halves of a concatenation, recovered by slicing. */
  lemma SplitAt<T>(x: seq<T>, y: seq<T>)
    ensures (x + y)[..|x|] == x && (x + y)[|x|..] == y
  {
  }

  /** `s.find(c)` for a character known to occur. */
  function FirstIndex(s: string, c: char): (i: nat)
    requires c in s
    ensures i < |s| && s[i] == c && c !in s[..i]
  {
    if s[0] == c then 0
    else
      assert c in s[1..] by { var k :| 0 <= k < |s| && s[k] == c; assert s[1..][k - 1] == c; }
      var j := FirstIndex(s[1..], c);
      assert s[..j + 1] == [s[0]] + s[1..][..j];
      j + 1
  }

  /** `s.rfind(c)` for a character known to occur. */
  function LastIndex(s: string, c: char): (i: nat)
    requires c in s
    ensures i < |s| && s[i] == c && c !in s[i + 1..]
  {
    if s[|s| - 1] == c then |s| - 1
    else
      assert c in s[..|s| - 1] by { var k :| 0 <= k < |s| && s[k] == c; assert s[..|s| - 1][k] == c; }
      var j := LastIndex(s[..|s| - 1], c);
      assert s[j + 1..] == s[..|s| - 1][j + 1..] + [s[|s| - 1]];
      j
  }

  /** An occurrence with no earlier one is the first. */
  lemma FirstIndexAt(s: string, c: char, i: nat)
    requires i < |s| && s[i] == c && c !in s[..i]
    ensures c in s && FirstIndex(s, c) == i
  {
    var j := FirstIndex(s, c);
    assert forall k :: 0 <= k < j ==> s[..j][k] == s[k];
    assert forall k :: 0 <= k < i ==> s[..i][k] == s[k];
  }

  /** An occurrence with no later one is the last. */
  lemma LastIndexAt(s: string, c: char, i: nat)
    requires i < |s| && s[i] == c && c !in s[i + 1..]
    ensures c in s && LastIndex(s, c) == i
  {
    var j := LastIndex(s, c);
    assert forall k :: j < k < |s| ==> s[j + 1..][k - j - 1] == s[k];
    assert forall k :: i < k < |s| ==> s[i + 1..][k - i - 1] == s[k];
  }

  /** Python's `<` on strings: code-point lexicographic order. */
  predicate LexLess(a: string, b: string)
    decreases |a|
  {
    b != [] && (a == [] || a[0] < b[0] || (a[0] == b[0] && LexLess(a[1..], b[1..])))
  }

  lemma {:induction false} LexIrreflexive(a: string)
    ensures !LexLess(a, a)
    decreases |a|
  {
    if a != [] { LexIrreflexive(a[1..]); }
  }

  lemma {:induction false} LexTransitive(a: string, b: string, c: string)
    requires LexLess(a, b) && LexLess(b, c)
    ensures LexLess(a, c)
    decreases |a|
  {
    if a != [] && a[0] == b[0] && b[0] == c[0] {
      LexTransitive(a[1..], b[1..], c[1..]);
    }
  }

  lemma {:induction false} LexTotal(a: string, b: string)
    requires a != b
    ensures LexLess(a, b) || LexLess(b, a)
    decreases |a|
  {
    if a != [] && b != [] && a[0] == b[0] {
      assert a == [a[0]] + a[1..] && b == [b[0]] + b[1..];
      LexTotal(a[1..], b[1..]);
    }
  }

  lemma {:induction false} LexAsymmetric(a: string, b: string)
    requires LexLess(a, b)
    ensures !LexLess(b, a)
  {
    if LexLess(b, a) {
      LexTransitive(a, b, a);
      LexIrreflexive(a);
    }
  }
}
