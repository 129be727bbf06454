/** The pieces of JavaScript string behaviour the client relies on:
    `String.prototype.trim`, `split` on one character, the global regular
    expression `/<[^>]*>/g` used to drop HTML tags, anchored prefix
    replacement, and the decimal rendering of integers in template literals. */
module Text {

  /** The characters `String.prototype.trim` removes: the ECMAScript
      WhiteSpace and LineTerminator productions. */
  predicate IsWhitespace(c: char) {
    c == ' ' || c == '\t' || c == '\n' || c == '\r' || c == '\U{000B}' || c == '\U{000C}'
    || c == '\U{00A0}' || c == '\U{1680}' || ('\U{2000}' <= c <= '\U{200A}')
    || c == '\U{2028}' || c == '\U{2029}' || c == '\U{202F}' || c == '\U{205F}'
    || c == '\U{3000}' || c == '\U{FEFF}'
  }

  /** Neither empty nor starting or ending with whitespace. */
  predicate Trimmed(s: string) {
    s != [] && !IsWhitespace(s[0]) && !IsWhitespace(s[|s| - 1])
  }

  /** Every character of `s` is whitespace. */
  predicate Blank(s: string) {
    forall i :: 0 <= i < |s| ==> IsWhitespace(s[i])
  }

  /** `r` is the slice of `s` starting at `a`, and every character of `s`
      before or after that slice is whitespace. */
  predicate WhitespaceAround(s: string, a: nat, r: string) {
    a + |r| <= |s| && r == s[a..a + |r|] && Blank(s[..a]) && Blank(s[a + |r|..])
  }

  /** Drops the leading whitespace and nothing else. */
  function TrimStart(s: string): (r: string)
    ensures |r| <= |s| && r == s[|s| - |r|..]
    ensures Blank(s[..|s| - |r|])
    ensures r != [] ==> !IsWhitespace(r[0])
  {
    if s != [] && IsWhitespace(s[0]) then
      var r := TrimStart(s[1..]);
      assert s[..|s| - |r|] == [s[0]] + s[1..][..|s| - 1 - |r|];
      r
    else s
  }

  /** Drops the trailing whitespace and nothing else. */
  function TrimEnd(s: string): (r: string)
    ensures |r| <= |s| && r == s[..|r|]
    ensures Blank(s[|r|..])
    ensures r != [] ==> !IsWhitespace(r[|r| - 1])
  {
    if s != [] && IsWhitespace(s[|s| - 1]) then
      var r := TrimEnd(s[..|s| - 1]);
      assert s[|r|..] == s[..|s| - 1][|r|..] + [s[|s| - 1]];
      r
    else s
  }

  /** `s.trim()`: `s` without its leading and trailing whitespace. The
      result is the slice `s[a..a + |r|]` with only whitespace before and
      after it, and it neither starts nor ends with whitespace. */
  function Trim(s: string): (r: string)
    ensures r == [] || Trimmed(r)
    ensures WhitespaceAround(s, |s| - |TrimStart(s)|, r)
  {
    var t := TrimStart(s);
    var r := TrimEnd(t);
    SliceOfSlice(s, t, r);
    r
  }

  /** Dropping a whitespace prefix of `s` and then a whitespace suffix of
      what remains leaves a slice of `s` with only whitespace on either
      side. */
  lemma SliceOfSlice(s: string, t: string, r: string)
    requires |t| <= |s| && t == s[|s| - |t|..] && Blank(s[..|s| - |t|])
    requires |r| <= |t| && r == t[..|r|] && Blank(t[|r|..])
    ensures WhitespaceAround(s, |s| - |t|, r)
  {
    PrefixOfSuffix(s, |s| - |t|, t, r);
  }

  /** A prefix `r` of the suffix `t == s[a..]` is the slice of `s` starting
      at `a`, and what follows it in `t` is what follows it in `s`. */
  lemma PrefixOfSuffix(s: string, a: nat, t: string, r: string)
    requires a <= |s| && t == s[a..] && |r| <= |t| && r == t[..|r|]
    ensures r == s[a..a + |r|] && s[a + |r|..] == t[|r|..]
  {
  }

  /** Trimming text without surrounding whitespace changes nothing. */
  lemma {:induction false} TrimKeepsTrimmed(s: string)
    requires Trimmed(s)
    ensures Trim(s) == s
  {
    assert TrimStart(s) == s;
    assert TrimEnd(s) == s;
  }

  /** Trimming `t + " "` gives back `t` when `t` itself is already trimmed:
      the only whitespace is the one appended. */
  lemma {:induction false} TrimDropsTrailingSpace(t: string)
    requires Trimmed(t)
    ensures Trim(t + " ") == t
  {
    var s := t + " ";
    assert s[0] == t[0];
    assert TrimStart(s) == s;
    assert s[..|s| - 1] == t;
    assert TrimEnd(t) == t;
    assert TrimEnd(s) == TrimEnd(t);
  }

  /** Number of occurrences of `c` in `s`. */
  function Count(s: string, c: char): nat {
    if s == [] then 0 else (if s[0] == c then 1 else 0) + Count(s[1..], c)
  }

  /** Index of the first `c` in `s`, or `|s|` when there is none. */
  function IndexOf(s: string, c: char): (k: nat)
    ensures k <= |s|
    ensures c !in s[..k]
    ensures k < |s| ==> s[k] == c
    ensures k == |s| <==> c !in s
  {
    if s == [] then 0 else if s[0] == c then 0 else 1 + IndexOf(s[1..], c)
  }

  /** Joining with the separator: the inverse of `Split`. */
  function Join(parts: seq<string>, sep: char): string
    requires |parts| >= 1
  {
    if |parts| == 1 then parts[0] else parts[0] + [sep] + Join(parts[1..], sep)
  }

  /** `s.split(sep)` for a one-character separator: the pieces between
      separators, one more than there are separators (so `""` splits into
      `[""]`). */
  function Split(s: string, sep: char): (parts: seq<string>)
    ensures |parts| == Count(s, sep) + 1
    ensures forall i :: 0 <= i < |parts| ==> sep !in parts[i]
    ensures Join(parts, sep) == s
  {
    if s == [] then [[]]
    else
      var rest := Split(s[1..], sep);
      if s[0] == sep then
        assert ([[]] + rest)[1..] == rest;
        [[]] + rest
      else
        var parts := [[s[0]] + rest[0]] + rest[1..];
        assert |rest| > 1 ==> parts[1..] == rest[1..] && Join(rest, sep) == rest[0] + [sep] + Join(rest[1..], sep);
        parts
  }

  /** A string with exactly one separator splits into the text before it and
      the text after it. */
  lemma {:induction false} SplitAtSingleSeparator(s: string, sep: char)
    requires Count(s, sep) == 1
    ensures var k := IndexOf(s, sep);
      k < |s| && Split(s, sep) == [s[..k], s[k + 1..]]
  {
    var parts := Split(s, sep);
    assert parts[1..] == [parts[1]];
    assert Join(parts[1..], sep) == parts[1];
    assert s == parts[0] + [sep] + parts[1];
    IndexOfAfter(parts[0], sep, parts[1]);
    var k := IndexOf(s, sep);
    assert s[..k] == parts[0];
    assert s[k + 1..] == parts[1];
  }

  /** The first `c` in `a + [c] + b` is the one right after `a` when `a` holds none. */
  lemma {:induction false} IndexOfAfter(a: string, c: char, b: string)
    requires c !in a
    ensures IndexOf(a + [c] + b, c) == |a|
  {
    if a != [] {
      assert (a + [c] + b)[1..] == a[1..] + [c] + b;
      IndexOfAfter(a[1..], c, b);
    } else {
      assert (a + [c] + b)[0] == c;
    }
  }

  /** `s` begins with `prefix`. */
  predicate StartsWith(s: string, prefix: string) {
    |prefix| <= |s| && s[..|prefix|] == prefix
  }

  /** `s.replace(/^prefix/, replacement)` for a literal prefix. */
  function ReplacePrefix(s: string, prefix: string, replacement: string): (r: string)
    ensures StartsWith(s, prefix) ==> StartsWith(r, replacement) && r[|replacement|..] == s[|prefix|..]
    ensures !StartsWith(s, prefix) ==> r == s
  {
    if StartsWith(s, prefix) then replacement + s[|prefix|..] else s
  }

  /** No `<` in `s` is followed, anywhere later, by a `>`: the global
      expression `/<[^>]*>/g` has nothing left to match. */
  predicate NoTags(s: string) {
    forall i, j :: 0 <= i < j < |s| && s[i] == '<' ==> s[j] != '>'
  }

  /** `s.replace(/<[^>]*>/g, '')`: scanning left to right, every `<` that
      has a `>` somewhere after it is removed together with everything up to
      and including the first such `>`; a `<` with no `>` after it stays. */
  function StripTags(s: string): (r: string)
    ensures |r| <= |s|
    decreases |s|
  {
    if s == [] then []
    else if s[0] == '<' && '>' in s then
      StripTags(s[IndexOf(s, '>') + 1..])
    else
      [s[0]] + StripTags(s[1..])
  }

  /** Stripping only removes characters: whatever is left comes from the
      input. */
  lemma {:induction false} StripTagsKeepsChars(s: string)
    ensures forall i :: 0 <= i < |StripTags(s)| ==> StripTags(s)[i] in s
    decreases |s|
  {
    if s != [] {
      if s[0] == '<' && '>' in s {
        var k := IndexOf(s, '>');
        StripTagsKeepsChars(s[k + 1..]);
        forall i | 0 <= i < |StripTags(s)| ensures StripTags(s)[i] in s {
          assert StripTags(s)[i] in s[k + 1..];
        }
      } else {
        StripTagsKeepsChars(s[1..]);
        forall i | 0 <= i < |StripTags(s)| ensures StripTags(s)[i] in s {
          if i > 0 {
            assert StripTags(s)[i] == StripTags(s[1..])[i - 1];
            assert StripTags(s)[i] in s[1..];
          }
        }
      }
    }
  }

  /** Text before the first tag is kept, the tag itself (a `<`, then no
      `>`, then a `>`) is removed, and stripping carries on after it. */
  lemma StripTagsFirstTag(a: string, t: string, b: string)
    requires '<' !in a && '>' !in t
    ensures StripTags(a + ['<'] + t + ['>'] + b) == a + StripTags(b)
  {
    var rest := ['<'] + t + ['>'] + b;
    assert a + ['<'] + t + ['>'] + b == a + rest;
    StripTagsKeepsPrefix(a, rest);
    StripTagsAtTag(t, b, rest);
  }

  /** Text without a `<` opens no tag, so stripping keeps it whole. */
  lemma {:induction false} StripTagsKeepsPrefix(a: string, u: string)
    requires '<' !in a
    ensures StripTags(a + u) == a + StripTags(u)
    decreases |a|
  {
    if a == [] {
      assert a + u == u;
    } else {
      var v := a[1..] + u;
      assert a + u == [a[0]] + v;
      assert a[0] != '<';
      StripTagsCons(a[0], v, a + u);
      StripTagsKeepsPrefix(a[1..], u);
      assert a == [a[0]] + a[1..];
    }
  }

  /** A character other than `<` at the front is kept. */
  lemma StripTagsCons(c: char, v: string, s: string)
    requires c != '<' && s == [c] + v
    ensures StripTags(s) == [c] + StripTags(v)
  {
    assert s[0] == c && s[1..] == v;
  }

  /** A tag at the very start is removed and stripping carries on after it. */
  lemma StripTagsAtTag(t: string, b: string, s: string)
    requires '>' !in t && s == ['<'] + t + ['>'] + b
    ensures StripTags(s) == StripTags(b)
  {
    assert s == (['<'] + t) + ['>'] + b;
    IndexOfAfter(['<'] + t, '>', b);
    assert s[|t| + 1] == '>';
    assert s[|t| + 2..] == b;
  }

  /** `r` can be obtained from `s` by deleting characters: its characters
      appear in `s` in the same order. */
  predicate IsSubsequence(r: string, s: string)
    decreases |s|
  {
    r == [] ||
    (s != [] && ((r[0] == s[0] && IsSubsequence(r[1..], s[1..])) || IsSubsequence(r, s[1..])))
  }

  /** A subsequence of a suffix of `s` is a subsequence of `s`. */
  lemma {:induction false} SubsequenceOfSuffix(r: string, s: string, j: nat)
    requires j <= |s| && IsSubsequence(r, s[j..])
    ensures IsSubsequence(r, s)
    decreases j
  {
    if j > 0 {
      assert s[1..][j - 1..] == s[j..];
      SubsequenceOfSuffix(r, s[1..], j - 1);
    }
  }

  /** Stripping only deletes characters: what is left is the input with
      some characters removed, the rest kept in their order. */
  lemma {:induction false} StripTagsSubsequence(s: string)
    ensures IsSubsequence(StripTags(s), s)
    decreases |s|
  {
    if s != [] {
      if s[0] == '<' && '>' in s {
        var k := IndexOf(s, '>');
        StripTagsSubsequence(s[k + 1..]);
        SubsequenceOfSuffix(StripTags(s), s, k + 1);
      } else {
        StripTagsSubsequence(s[1..]);
        var r := StripTags(s);
        assert r[0] == s[0] && r[1..] == StripTags(s[1..]);
      }
    }
  }

  /** Nothing the expression can match is left behind. */
  lemma {:induction false} StripTagsLeavesNoTags(s: string)
    ensures NoTags(StripTags(s))
    decreases |s|
  {
    if s != [] {
      if s[0] == '<' && '>' in s {
        StripTagsLeavesNoTags(s[IndexOf(s, '>') + 1..]);
      } else {
        var rest := StripTags(s[1..]);
        StripTagsLeavesNoTags(s[1..]);
        if s[0] == '<' {
          StripTagsKeepsChars(s[1..]);
          assert '>' !in rest by {
            forall j | 0 <= j < |rest| ensures rest[j] != '>' {
              assert rest[j] in s[1..];
            }
          }
        }
        NoTagsCons(s[0], rest);
      }
    }
  }

  /** Putting a character in front of tag-free text keeps it tag-free unless
      the character is `<` and a `>` follows. */
  lemma NoTagsCons(c: char, rest: string)
    requires NoTags(rest) && (c == '<' ==> '>' !in rest)
    ensures NoTags([c] + rest)
  {
    var t := [c] + rest;
    forall i, j | 0 <= i < j < |t| && t[i] == '<'
      ensures t[j] != '>'
    {
      if i == 0 {
        assert t[j] == rest[j - 1];
      } else {
        assert rest[i - 1] == '<';
        assert t[j] == rest[j - 1];
      }
    }
  }

  /** Text that the expression cannot match is left as it is. */
  lemma {:induction false} StripTagsKeepsTagFree(s: string)
    requires NoTags(s)
    ensures StripTags(s) == s
  {
    if s != [] {
      NoTagsTail(s);
      if s[0] == '<' {
        NoTagsHead(s);
      }
      StripTagsKeepsTagFree(s[1..]);
      assert StripTags(s) == [s[0]] + StripTags(s[1..]);
    }
  }

  /** A tag-free text stays tag-free without its first character. */
  lemma NoTagsTail(s: string)
    requires NoTags(s) && s != []
    ensures NoTags(s[1..])
  {
    forall i, j | 0 <= i < j < |s| - 1 && s[1..][i] == '<'
      ensures s[1..][j] != '>'
    {
      assert s[i + 1] == '<';
    }
  }

  /** In a tag-free text that opens with `<`, no `>` follows. */
  lemma NoTagsHead(s: string)
    requires NoTags(s) && s != [] && s[0] == '<'
    ensures '>' !in s
  {
    forall j | 0 <= j < |s|
      ensures s[j] != '>'
    {
      if j > 0 {
        assert s[0] == '<';
      }
    }
  }

  /** Stripping twice is stripping once. */
  lemma StripTagsIdempotent(s: string)
    ensures StripTags(StripTags(s)) == StripTags(s)
  {
    StripTagsLeavesNoTags(s);
    StripTagsKeepsTagFree(StripTags(s));
  }

  /** A decimal digit. */
  predicate IsDigit(c: char) {
    '0' <= c <= '9'
  }

  predicate AllDigits(s: string) {
    forall i :: 0 <= i < |s| ==> IsDigit(s[i])
  }

  function DigitChar(d: nat): (c: char)
    requires d < 10
    ensures IsDigit(c)
  {
    "0123456789"[d]
  }

  function DigitValue(c: char): nat
    requires IsDigit(c)
  {
    (c as int - '0' as int) as nat
  }

  /** The value of a string of decimal digits. */
  function DigitsValue(s: string): nat
    requires AllDigits(s)
  {
    if s == [] then 0 else 10 * DigitsValue(s[..|s| - 1]) + DigitValue(s[|s| - 1])
  }

  /** Decimal rendering of a natural number, as a template literal shows it. */
  function NatToString(n: nat): (r: string)
    ensures r != [] && AllDigits(r)
    decreases n
  {
    if n < 10 then [DigitChar(n)] else NatToString(n / 10) + [DigitChar(n % 10)]
  }

  /** Decimal rendering of an integer, with a leading `-` when negative. */
  function IntToString(i: int): string {
    if i < 0 then "-" + NatToString(-i) else NatToString(i)
  }

  /** Reading the digits back gives the number. */
  lemma {:induction false} NatToStringRoundTrip(n: nat)
    ensures DigitsValue(NatToString(n)) == n
  {
    var r := NatToString(n);
    if n < 10 {
      assert "0123456789"[n] as int - '0' as int == n;
    } else {
      NatToStringRoundTrip(n / 10);
      assert r[..|r| - 1] == NatToString(n / 10);
      assert "0123456789"[n % 10] as int - '0' as int == n % 10;
    }
  }
}
