/**
  The Python `str` operations the UML generator uses, on `seq<char>`:
  `str.isspace`, `str.upper`, `str.strip`, `str.split(sep)`, `str.rsplit(' ', 1)`,
  `sep.join(parts)` and the substring test `sub in s`.
 */
module Strings {
  import opened Wrappers

  /** Python's `str.isspace()` on one character; `\s` in a `str` pattern matches the same set. */
  predicate IsSpace(c: char) {
    var n := c as int;
    n == 0x20 || 0x09 <= n <= 0x0D || 0x1C <= n <= 0x1F || n == 0x85 || n == 0xA0
    || n == 0x1680 || 0x2000 <= n <= 0x200A || n == 0x2028 || n == 0x2029
    || n == 0x202F || n == 0x205F || n == 0x3000
  }

  predicate AllSpace(s: string) {
    forall i :: 0 <= i < |s| ==> IsSpace(s[i])
  }

  /** Concatenation regroups; stated once so that the solver need not rediscover it for
      long literals. */
  lemma AppendAssoc(a: string, b: string, c: string)
    ensures (a + b) + c == a + (b + c)
  {
  }

  // ---------------------------------------------------------------- upper

  function UpperChar(c: char): char {
    if 'a' <= c <= 'z' then (c as int - 32) as char else c
  }

  /** `s.upper()`, restricted to the ASCII letters. */
  function Upper(s: string): (r: string)
    ensures |r| == |s|
    ensures forall i :: 0 <= i < |s| ==> r[i] == UpperChar(s[i])
  {
    seq(|s|, i requires 0 <= i < |s| => UpperChar(s[i]))
  }

  /** Upper-casing an upper-cased name changes nothing more. */
  lemma UpperIdempotent(s: string)
    ensures Upper(Upper(s)) == Upper(s)
  {
  }

  /** A name with no ASCII lower-case letter is its own upper-cased form. */
  lemma UpperOfUpperCase(s: string)
    requires forall i :: 0 <= i < |s| ==> !('a' <= s[i] <= 'z')
    ensures Upper(s) == s
  {
  }

  // ---------------------------------------------------------------- strip

  function StripLeft(s: string): (r: string)
    ensures |r| <= |s| && r == s[|s| - |r|..]
    ensures AllSpace(s[..|s| - |r|])
    ensures r == [] || !IsSpace(r[0])
  {
    if |s| > 0 && IsSpace(s[0]) then
      var r := StripLeft(s[1..]);
      assert s[..|s| - |r|] == [s[0]] + s[1..][..|s| - 1 - |r|];
      r
    else s
  }

  /** A blank text loses every character. */
  lemma {:induction false} StripLeftOfBlank(s: string)
    ensures AllSpace(s) ==> StripLeft(s) == []
  {
    if |s| > 0 && AllSpace(s) {
      assert IsSpace(s[0]);
      assert AllSpace(s[1..]) by {
        forall j | 0 <= j < |s| - 1 ensures IsSpace(s[1..][j]) { assert s[1..][j] == s[j + 1]; }
      }
      StripLeftOfBlank(s[1..]);
    }
  }

  function StripRight(s: string): (r: string)
    ensures |r| <= |s| && r == s[..|r|]
    ensures AllSpace(s[|r|..])
    ensures r == [] || !IsSpace(r[|r| - 1])
  {
    if |s| > 0 && IsSpace(s[|s| - 1]) then
      var r := StripRight(s[..|s| - 1]);
      assert s[|r|..] == s[..|s| - 1][|r|..] + [s[|s| - 1]];
      r
    else s
  }

  /** `s.strip()`: drop the leading and the trailing whitespace. The result neither starts
      nor ends with whitespace, and a text strips to the empty string exactly when it is
      blank; `StripOfPadded` gives the result for every other text. */
  function Strip(s: string): (r: string)
    ensures r == [] || (!IsSpace(r[0]) && !IsSpace(r[|r| - 1]))
    ensures r == [] <==> AllSpace(s)
  {
    StripLeftOfBlank(s);
    StripRight(StripLeft(s))
  }

  lemma {:induction false} StripLeftOfSpaces(pre: string, s: string)
    requires AllSpace(pre)
    requires s == [] || !IsSpace(s[0])
    ensures StripLeft(pre + s) == s
  {
    if pre != [] {
      assert (pre + s)[1..] == pre[1..] + s;
      StripLeftOfSpaces(pre[1..], s);
    }
  }

  lemma {:induction false} StripRightOfSpaces(s: string, post: string)
    requires AllSpace(post)
    requires s == [] || !IsSpace(s[|s| - 1])
    ensures StripRight(s + post) == s
  {
    if post != [] {
      assert (s + post)[..|s + post| - 1] == s + post[..|post| - 1];
      StripRightOfSpaces(s, post[..|post| - 1]);
    }
  }

  /** Stripping a text padded with whitespace gives back the text, when the text itself
      neither starts nor ends with whitespace. */
  lemma StripOfPadded(pre: string, s: string, post: string)
    requires AllSpace(pre) && AllSpace(post)
    requires s != [] && !IsSpace(s[0]) && !IsSpace(s[|s| - 1])
    ensures Strip(pre + s + post) == s
  {
    assert pre + s + post == pre + (s + post);
    StripLeftOfSpaces(pre, s + post);
    StripRightOfSpaces(s, post);
  }

  // ---------------------------------------------------------------- split / join

  /** `s.split(sep)` with a one-character separator: never empty, no piece holds `sep`. */
  function Split(s: string, sep: char): (r: seq<string>)
    ensures |r| >= 1
    ensures forall k :: 0 <= k < |r| ==> sep !in r[k]
  {
    if |s| == 0 then [""]
    else
      var t := Split(s[1..], sep);
      if s[0] == sep then [""] + t else [[s[0]] + t[0]] + t[1..]
  }

  /** `sep.join(parts)`. */
  function Join(parts: seq<string>, sep: string): string {
    if |parts| == 0 then ""
    else if |parts| == 1 then parts[0]
    else parts[0] + sep + Join(parts[1..], sep)
  }

  lemma {:induction false} SplitWithoutSep(s: string, sep: char)
    requires sep !in s
    ensures Split(s, sep) == [s]
  {
    if |s| > 0 {
      SplitWithoutSep(s[1..], sep);
      assert [s[0]] + s[1..] == s;
    }
  }

  lemma {:induction false} SplitAfterPiece(p: string, sep: char, rest: string)
    requires sep !in p
    ensures Split(p + [sep] + rest, sep) == [p] + Split(rest, sep)
  {
    if p == [] {
      assert p + [sep] + rest == [sep] + rest;
      assert ([sep] + rest)[1..] == rest;
    } else {
      var s := p + [sep] + rest;
      assert s[1..] == p[1..] + [sep] + rest;
      SplitAfterPiece(p[1..], sep, rest);
      assert [p[0]] + p[1..] == p;
    }
  }

  /** Splitting what `join` produced recovers the pieces, when no piece holds the separator. */
  lemma {:induction false} SplitJoin(parts: seq<string>, sep: char)
    requires |parts| >= 1
    requires forall k :: 0 <= k < |parts| ==> sep !in parts[k]
    ensures Split(Join(parts, [sep]), sep) == parts
  {
    if |parts| == 1 {
      SplitWithoutSep(parts[0], sep);
    } else {
      SplitJoin(parts[1..], sep);
      SplitAfterPiece(parts[0], sep, Join(parts[1..], [sep]));
      assert [parts[0]] + parts[1..] == parts;
    }
  }

  /** Joining the pieces of a split with the separator gives back the text. */
  lemma {:induction false} JoinSplit(s: string, sep: char)
    ensures Join(Split(s, sep), [sep]) == s
  {
    if |s| > 0 {
      JoinSplit(s[1..], sep);
      var t := Split(s[1..], sep);
      if s[0] == sep {
        assert Split(s, sep) == [""] + t;
        assert ([""] + t)[1..] == t;
      } else {
        var r := [[s[0]] + t[0]] + t[1..];
        assert Split(s, sep) == r;
        if |t| == 1 {
          assert Join(r, [sep]) == [s[0]] + t[0];
        } else {
          assert r[1..] == t[1..];
          assert Join(t, [sep]) == t[0] + [sep] + Join(t[1..], [sep]);
        }
      }
    }
  }

  // ---------------------------------------------------------------- rsplit

  /** `s.rsplit(sep, 1)`: `None` when `sep` does not occur (Python returns the one-element
      list `[s]`), otherwise the text before and after the LAST occurrence. */
  function RSplitOnce(s: string, sep: char): (r: Option<(string, string)>)
    ensures r.None? <==> sep !in s
    ensures r.Some? ==> s == r.value.0 + [sep] + r.value.1 && sep !in r.value.1
  {
    if |s| == 0 then None
    else if s[|s| - 1] == sep then
      assert s == s[..|s| - 1] + [sep] + [];
      Some((s[..|s| - 1], []))
    else
      match RSplitOnce(s[..|s| - 1], sep)
      case None =>
        assert s == s[..|s| - 1] + [s[|s| - 1]];
        None
      case Some((a, b)) =>
        assert s == s[..|s| - 1] + [s[|s| - 1]];
        Some((a, b + [s[|s| - 1]]))
  }

  /** The split point is unique: a text written as `a + [sep] + b` with no `sep` in `b`
      splits back into `a` and `b`. */
  lemma {:induction false} RSplitOnceOf(a: string, sep: char, b: string)
    requires sep !in b
    ensures RSplitOnce(a + [sep] + b, sep) == Some((a, b))
  {
    var s := a + [sep] + b;
    if b == [] {
      assert s[..|s| - 1] == a;
    } else {
      var b0 := b[..|b| - 1];
      assert b[|b| - 1] in b;
      assert s[..|s| - 1] == a + [sep] + b0;
      RSplitOnceOf(a, sep, b0);
      assert b0 + [b[|b| - 1]] == b;
    }
  }

  // ---------------------------------------------------------------- substring

  /** Python's `sub in s` on strings. */
  predicate Contains(s: string, sub: string) {
    exists i :: 0 <= i <= |s| && OccursAt(s, sub, i)
  }

  predicate OccursAt(s: string, sub: string, i: int) {
    0 <= i && i + |sub| <= |s| && s[i..i + |sub|] == sub
  }

  /** Whitespace appended to a word cannot create an occurrence of a text that ends in a
      non-space character. This is why the modifier tests of the generator depend only on
      the keyword that was captured and not on the whitespace the regex kept after it. */
  lemma ContainsIgnoresSpaceTail(w: string, gap: string, sub: string)
    requires AllSpace(gap)
    requires sub != [] && !IsSpace(sub[|sub| - 1])
    ensures Contains(w + gap, sub) <==> Contains(w, sub)
  {
    var s := w + gap;
    if Contains(s, sub) {
      var i :| 0 <= i <= |s| && OccursAt(s, sub, i);
      assert i + |sub| <= |w|;
      assert w[i..i + |sub|] == s[i..i + |sub|];
      assert OccursAt(w, sub, i);
    }
    if Contains(w, sub) {
      var i :| 0 <= i <= |w| && OccursAt(w, sub, i);
      assert i + |sub| <= |w| && w[i..i + |sub|] == sub;
      assert s[i..i + |sub|] == w[i..i + |sub|];
      assert OccursAt(s, sub, i);
    }
  }
}
