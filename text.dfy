/** The string operations the handlers use, stated over `seq<char>`:
    Python's `split` and `join` with a one-character separator, the last
    dot-separated segment (`rsplit('.', 1)[1]`), ASCII lower-casing,
    `isdigit`, `replace(c, '')`, slicing `s[:n]`, decimal formatting and
    substring tests (SQL `LIKE` / `ILIKE '%q%'`). */
module Text {

  /** Python's `s.split(sep)`: every occurrence of `sep` ends a field,
      empty fields are kept, and there is always at least one field. */
  function Split(s: string, sep: char): (r: seq<string>)
    ensures |r| >= 1
    ensures forall i :: 0 <= i < |r| ==> sep !in r[i]
    ensures |r| == 1 <==> sep !in s
    decreases |s|
  {
    if |s| == 0 then [""]
    else
      var rest := Split(s[1..], sep);
      if s[0] == sep then [""] + rest
      else [[s[0]] + rest[0]] + rest[1..]
  }

  /** Python's `sep.join(parts)`. */
  function Join(parts: seq<string>, sep: char): string
    decreases |parts|
  {
    if |parts| == 0 then ""
    else if |parts| == 1 then parts[0]
    else parts[0] + [sep] + Join(parts[1..], sep)
  }

  /** Joining the fields of a split gives back the string. */
  lemma {:induction false} JoinSplit(s: string, sep: char)
    ensures Join(Split(s, sep), sep) == s
    decreases |s|
  {
    if |s| > 0 {
      JoinSplit(s[1..], sep);
      var rest := Split(s[1..], sep);
      if s[0] == sep {
        assert Split(s, sep) == [""] + rest;
        assert s == [s[0]] + s[1..];
      } else {
        var r := Split(s, sep);
        assert r == [[s[0]] + rest[0]] + rest[1..];
        if |rest| == 1 {
          assert Join(r, sep) == [s[0]] + rest[0];
          assert s == [s[0]] + s[1..];
        } else {
          assert r[1..] == rest[1..];
          assert Join(rest, sep) == rest[0] + [sep] + Join(rest[1..], sep);
          assert Join(r, sep) == [s[0]] + rest[0] + [sep] + Join(rest[1..], sep);
          assert s == [s[0]] + s[1..];
        }
      }
    }
  }

  /** A string without the separator is a single field. */
  lemma {:induction false} SplitNoSep(a: string, sep: char)
    requires sep !in a
    ensures Split(a, sep) == [a]
    decreases |a|
  {
    if |a| > 0 {
      SplitNoSep(a[1..], sep);
      assert [a[0]] + a[1..] == a;
    }
  }

  /** A field followed by the separator splits off as the first field. */
  lemma {:induction false} SplitAfter(a: string, sep: char, t: string)
    requires sep !in a
    ensures Split(a + [sep] + t, sep) == [a] + Split(t, sep)
    decreases |a|
  {
    if |a| == 0 {
      assert a + [sep] + t == [sep] + t;
      assert ([sep] + t)[1..] == t;
    } else {
      SplitAfter(a[1..], sep, t);
      var s := a + [sep] + t;
      assert s[0] == a[0];
      assert s[1..] == a[1..] + [sep] + t;
      assert [a[0]] + a[1..] == a;
    }
  }

  /** Splitting a join of separator-free fields gives back the fields. */
  lemma {:induction false} SplitJoin(parts: seq<string>, sep: char)
    requires |parts| >= 1
    requires forall i :: 0 <= i < |parts| ==> sep !in parts[i]
    ensures Split(Join(parts, sep), sep) == parts
    decreases |parts|
  {
    if |parts| == 1 {
      SplitNoSep(parts[0], sep);
    } else {
      SplitJoin(parts[1..], sep);
      SplitAfter(parts[0], sep, Join(parts[1..], sep));
      assert [parts[0]] + parts[1..] == parts;
    }
  }

  /** The text after the last `c` (all of `s` when `c` does not occur):
      for `'.' in s` this is Python's `s.rsplit('.', 1)[1]`. */
  function LastSegment(s: string, c: char): (r: string)
    ensures |r| <= |s| && r == s[|s| - |r|..]
    ensures c !in r
    ensures |r| < |s| ==> s[|s| - |r| - 1] == c
    ensures c !in s ==> r == s
    decreases |s|
  {
    if |s| == 0 then ""
    else if s[|s| - 1] == c then ""
    else
      var r := LastSegment(s[..|s| - 1], c) + [s[|s| - 1]];
      assert s[..|s| - 1] + [s[|s| - 1]] == s;
      r
  }

  /** The segment after the final separator of `stem + [c] + ext` is `ext`. */
  lemma {:induction false} LastSegmentOf(stem: string, c: char, ext: string)
    requires c !in ext
    ensures LastSegment(stem + [c] + ext, c) == ext
    decreases |ext|
  {
    var s := stem + [c] + ext;
    if |ext| > 0 {
      var init := ext[..|ext| - 1];
      assert ext[|ext| - 1] in ext;
      assert s[..|s| - 1] == stem + [c] + init;
      LastSegmentOf(stem, c, init);
      assert init + [ext[|ext| - 1]] == ext;
    }
  }

  /** ASCII lower-casing of one character. */
  function LowerChar(ch: char): char
  {
    if 'A' <= ch <= 'Z' then (ch as int + 32) as char else ch
  }

  /** `s.lower()` on ASCII letters; every other character is kept. */
  function Lower(s: string): (r: string)
    ensures |r| == |s|
    ensures forall i :: 0 <= i < |s| ==> r[i] == LowerChar(s[i])
  {
    seq(|s|, i requires 0 <= i < |s| => LowerChar(s[i]))
  }

  predicate IsDigit(ch: char)
  {
    '0' <= ch <= '9'
  }

  /** `s.isdigit()`: non-empty and made of decimal digits only. */
  predicate IsDigits(s: string)
  {
    |s| > 0 && forall i :: 0 <= i < |s| ==> IsDigit(s[i])
  }

  /** `s.replace(c, '')`. */
  function RemoveChar(s: string, c: char): (r: string)
    ensures c !in r
    ensures |r| <= |s|
    ensures forall x :: x != c ==> multiset(r)[x] == multiset(s)[x]
    ensures c !in s ==> r == s
    decreases |s|
  {
    if |s| == 0 then ""
    else
      var rest := RemoveChar(s[1..], c);
      assert s == [s[0]] + s[1..];
      if s[0] == c then rest else [s[0]] + rest
  }

  /** Python's slice `s[:n]` (a negative `n` counts from the end). */
  function PyPrefix(s: string, n: int): (r: string)
    ensures r <= s
    ensures 0 <= n <= |s| ==> |r| == n
    ensures n >= |s| ==> r == s
  {
    if n >= 0 then (if n <= |s| then s[..n] else s)
    else if |s| + n >= 0 then s[..|s| + n]
    else []
  }

  /** The preview used for news and for review comments:
      `s if len(s) <= n else s[:n] + '...'`. */
  function Preview(s: string, n: int): (r: string)
    ensures |s| <= n ==> r == s
    ensures |s| > n ==> r == PyPrefix(s, n) + "..."
    ensures |s| > n >= 0 ==> |r| == n + 3 && r[..n] == s[..n] && r[n..] == "..."
  {
    if |s| <= n then s else PyPrefix(s, n) + "..."
  }

  /** Decimal digit string of a natural number (Python's `f"{n}"`). */
  function NatToString(n: nat): (r: string)
    ensures IsDigits(r)
    decreases n
  {
    if n < 10 then [('0' as int + n) as char]
    else NatToString(n / 10) + [('0' as int + n % 10) as char]
  }

  /** The number a digit string denotes. */
  function ParseDigits(s: string): int
    decreases |s|
  {
    if |s| == 0 then 0
    else ParseDigits(s[..|s| - 1]) * 10 + (s[|s| - 1] as int - '0' as int)
  }

  /** Reading back a formatted number gives the number, so formatting is
      injective. */
  lemma {:induction false} ParseNatToString(n: nat)
    ensures ParseDigits(NatToString(n)) == n
    decreases n
  {
    if n >= 10 {
      ParseNatToString(n / 10);
      var s := NatToString(n);
      assert s[..|s| - 1] == NatToString(n / 10);
    }
  }

  /** `sub` occurs in `s` as a contiguous block (SQL `LIKE '%sub%'`). */
  predicate Contains(s: string, sub: string)
    decreases |s|
  {
    |sub| <= |s| && (s[..|sub|] == sub || (|s| > 0 && Contains(s[1..], sub)))
  }

  /** SQL `ILIKE '%sub%'` on ASCII text. */
  predicate ContainsIgnoringCase(s: string, sub: string)
  {
    Contains(Lower(s), Lower(sub))
  }
}
