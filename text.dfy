/**
 * The JavaScript string operations the modelled code uses: `trim`, `toLowerCase`,
 * `includes`, `startsWith`, `split`/`join` on one character, decimal conversion of
 * naturals (`${n}` and `Number(s)`) and the default `sort` order.
 *
 * Strings are sequences of characters. Lower-casing covers the ASCII letters only, and
 * the sort order compares characters by code point, which is JavaScript's UTF-16
 * code-unit order for every string of Basic Multilingual Plane characters.
 */
module Text {
  import opened Seqs

  // ---------------------------------------------------------------- trim

  /** ECMAScript WhiteSpace and LineTerminator characters, the ones `trim` removes. */
  predicate IsSpace(c: char) {
    || c == '\t' || c == '\n' || c == '\U{B}' || c == '\U{C}' || c == '\r' || c == ' '
    || c == '\U{A0}' || c == '\U{1680}' || ('\U{2000}' <= c <= '\U{200A}')
    || c == '\U{2028}' || c == '\U{2029}' || c == '\U{202F}' || c == '\U{205F}'
    || c == '\U{3000}' || c == '\U{FEFF}'
  }

  /** Empty or made of white space only: `!s.trim()` in JavaScript. */
  predicate Blank(s: string) {
    forall i :: 0 <= i < |s| ==> IsSpace(s[i])
  }

  /** Two blank strings in a row are blank. */
  lemma BlankAppend(a: string, b: string)
    requires Blank(a) && Blank(b)
    ensures Blank(a + b)
  {
    forall i | 0 <= i < |a + b| ensures IsSpace((a + b)[i]) {
      if i < |a| {
        assert (a + b)[i] == a[i];
      } else {
        assert (a + b)[i] == b[i - |a|];
      }
    }
  }

  /** `s.trimStart()`: drops the leading white space. */
  function TrimStart(s: string): (r: string)
    ensures |r| <= |s| && r == s[|s| - |r|..]
    ensures Blank(s[..|s| - |r|])
    ensures r == [] || !IsSpace(r[0])
  {
    if s != [] && IsSpace(s[0]) then
      var r := TrimStart(s[1..]);
      TrimStartStep(s, r);
      r
    else s
  }

  /** `s.trimEnd()`: drops the trailing white space. */
  function TrimEnd(s: string): (r: string)
    ensures |r| <= |s| && r == s[..|r|]
    ensures Blank(s[|r|..])
    ensures r == [] || !IsSpace(r[|r| - 1])
  {
    if s != [] && IsSpace(s[|s| - 1]) then
      var r := TrimEnd(s[..|s| - 1]);
      TrimEndStep(s, r);
      r
    else s
  }

  /** A leading space in front of a string whose trimmed tail is `r` belongs to the dropped prefix. */
  lemma TrimStartStep(s: string, r: string)
    requires s != [] && IsSpace(s[0])
    requires |r| <= |s| - 1 && r == s[1..][|s| - 1 - |r|..] && Blank(s[1..][..|s| - 1 - |r|])
    ensures |r| <= |s| && r == s[|s| - |r|..] && Blank(s[..|s| - |r|])
  {
    assert s[..|s| - |r|] == [s[0]] + s[1..][..|s| - 1 - |r|];
    BlankAppend([s[0]], s[1..][..|s| - 1 - |r|]);
  }

  /** A trailing space after a string whose trimmed head is `r` belongs to the dropped suffix. */
  lemma TrimEndStep(s: string, r: string)
    requires s != [] && IsSpace(s[|s| - 1])
    requires |r| <= |s| - 1 && r == s[..|s| - 1][..|r|] && Blank(s[..|s| - 1][|r|..])
    ensures |r| <= |s| && r == s[..|r|] && Blank(s[|r|..])
  {
    assert s[|r|..] == s[..|s| - 1][|r|..] + [s[|s| - 1]];
    BlankAppend(s[..|s| - 1][|r|..], [s[|s| - 1]]);
  }

  /** Neither starts nor ends with white space. */
  predicate Trimmed(s: string) {
    s == [] || (!IsSpace(s[0]) && !IsSpace(s[|s| - 1]))
  }

  /** `s.trim()`: drops white space at both ends and keeps what lies between. */
  function Trim(s: string): (r: string)
    ensures |r| <= |s|
    ensures exists i, j :: 0 <= i <= j <= |s| && r == s[i..j] && Blank(s[..i]) && Blank(s[j..])
    ensures r == [] <==> Blank(s)
    ensures Trimmed(r)
  {
    var t := TrimStart(s);
    var r := TrimEnd(t);
    TrimBothEnds(s, t, r);
    r
  }

  /** What `TrimStart` and then `TrimEnd` promise, put together. */
  lemma TrimBothEnds(s: string, t: string, r: string)
    requires |t| <= |s| && t == s[|s| - |t|..] && Blank(s[..|s| - |t|]) && (t == [] || !IsSpace(t[0]))
    requires |r| <= |t| && r == t[..|r|] && Blank(t[|r|..]) && (r == [] || !IsSpace(r[|r| - 1]))
    ensures var i := |s| - |t|; r == s[i..i + |r|] && Blank(s[..i]) && Blank(s[i + |r|..])
    ensures r == [] <==> Blank(s)
    ensures Trimmed(r)
  {
    var i := |s| - |t|;
    assert s[i..i + |r|] == t[..|r|];
    assert s[i + |r|..] == t[|r|..];
    if r != [] {
      assert r[0] == t[0];
      assert !Blank(s) by {
        assert s[|s| - |t|] == t[0];
      }
    } else {
      assert Blank(t);
      assert s == s[..|s| - |t|] + t;
    }
  }

  /** A string that neither starts nor ends with white space is its own trim. */
  lemma TrimOfTrimmed(s: string)
    requires Trimmed(s)
    ensures Trim(s) == s
  {
  }

  /** Trimming is idempotent, so a stored trimmed name stays the same when trimmed again. */
  lemma TrimIdempotent(s: string)
    ensures Trim(Trim(s)) == Trim(s)
  {
    TrimOfTrimmed(Trim(s));
  }

  // ---------------------------------------------------------------- case and search

  /** `toLowerCase` on one character, for the ASCII letters. */
  function LowerChar(c: char): (d: char)
    ensures 'A' <= c <= 'Z' ==> d as int == c as int + 32
    ensures !('A' <= c <= 'Z') ==> d == c
  {
    if 'A' <= c <= 'Z' then (c as int + 32) as char else c
  }

  /** `s.toLowerCase()`. */
  function ToLower(s: string): (r: string)
    ensures |r| == |s|
    ensures forall i :: 0 <= i < |s| ==> r[i] == LowerChar(s[i])
  {
    seq(|s|, i requires 0 <= i < |s| => LowerChar(s[i]))
  }

  /** `s.startsWith(p)`. */
  predicate StartsWith(s: string, p: string) {
    |p| <= |s| && s[..|p|] == p
  }

  /** A prefix stays a prefix when more text is appended. */
  lemma StartsWithExtend(s: string, p: string, b: string)
    requires StartsWith(s, p)
    ensures StartsWith(s + b, p)
  {
    assert (s + b)[..|p|] == s[..|p|];
  }

  /** `s.includes(p)`: `p` occurs in `s` at some position. */
  predicate Includes(s: string, p: string)
    decreases |s|
  {
    StartsWith(s, p) || (s != [] && Includes(s[1..], p))
  }

  /** `includes` finds `p` exactly when some window of `s` equals `p`. */
  lemma {:induction false} IncludesAt(s: string, p: string, k: nat)
    requires k + |p| <= |s| && s[k..k + |p|] == p
    ensures Includes(s, p)
  {
    if k > 0 {
      assert s[1..][k - 1..k - 1 + |p|] == s[k..k + |p|];
      IncludesAt(s[1..], p, k - 1);
    }
  }

  /** A string that starts with `p` includes `p`. */
  lemma StartsWithIncludes(s: string, p: string)
    requires StartsWith(s, p)
    ensures Includes(s, p)
  {
  }

  /** A string includes each of the pieces it is made of. */
  lemma IncludesPiece(a: string, p: string, b: string)
    ensures Includes(a + p + b, p)
  {
    var s := a + p + b;
    assert s[|a|..|a| + |p|] == p;
    IncludesAt(s, p, |a|);
  }

  /** Whatever includes `p + q` includes `p`. */
  lemma {:induction false} IncludesShorter(s: string, p: string, q: string)
    requires Includes(s, p + q)
    ensures Includes(s, p)
  {
    if StartsWith(s, p + q) {
      assert s[..|p|] == (p + q)[..|p|] == p;
    } else {
      IncludesShorter(s[1..], p, q);
    }
  }

  /** The position at which `includes` finds `p`. */
  lemma {:induction false} IncludesIndex(s: string, p: string) returns (k: nat)
    requires Includes(s, p)
    ensures k + |p| <= |s| && s[k..k + |p|] == p
  {
    if StartsWith(s, p) {
      k := 0;
    } else {
      var j := IncludesIndex(s[1..], p);
      assert s[1..][j..j + |p|] == s[j + 1..j + 1 + |p|];
      k := j + 1;
    }
  }

  /** What a string includes, the string with a prefix put before it includes too. */
  lemma IncludesLeft(s: string, p: string, a: string)
    requires Includes(s, p)
    ensures Includes(a + s, p)
  {
    var k := IncludesIndex(s, p);
    assert (a + s)[|a| + k..|a| + k + |p|] == s[k..k + |p|];
    IncludesAt(a + s, p, |a| + k);
  }

  /** What a string includes, the string with a suffix put after it includes too. */
  lemma IncludesRight(s: string, p: string, b: string)
    requires Includes(s, p)
    ensures Includes(s + b, p)
  {
    var k := IncludesIndex(s, p);
    assert (s + b)[k..k + |p|] == s[k..k + |p|];
    IncludesAt(s + b, p, k);
  }

  // ---------------------------------------------------------------- split and join

  /** Index of the first `c` in `s`, or `|s|` when there is none. */
  function IndexOf(s: string, c: char): (i: nat)
    ensures i <= |s|
    ensures i < |s| ==> s[i] == c
    ensures forall k :: 0 <= k < i ==> s[k] != c
  {
    if s == [] then 0
    else if s[0] == c then 0
    else 1 + IndexOf(s[1..], c)
  }

  /** `parts.join(sep)` for a one-character separator. */
  function Join(parts: seq<string>, sep: char): (r: string)
  {
    if parts == [] then ""
    else if |parts| == 1 then parts[0]
    else parts[0] + [sep] + Join(parts[1..], sep)
  }

  /**
   * `s.split(sep)` for a one-character separator: the pieces between separators,
   * at least one of them, none containing `sep`, that join back to `s`.
   */
  function Split(s: string, sep: char): (r: seq<string>)
    ensures |r| >= 1
    ensures forall k :: 0 <= k < |r| ==> sep !in r[k]
    ensures Join(r, sep) == s
    decreases |s|
  {
    var i := IndexOf(s, sep);
    if i == |s| then [s]
    else
      var rest := Split(s[i + 1..], sep);
      assert s == s[..i] + [sep] + s[i + 1..];
      [s[..i]] + rest
  }

  lemma IndexOfJoin(x: string, y: string, c: char)
    requires c !in x
    ensures IndexOf(x + [c] + y, c) == |x|
  {
    var s := x + [c] + y;
    var i := IndexOf(s, c);
    assert s[|x|] == c;
    assert forall k :: 0 <= k < |x| ==> s[k] == x[k];
  }

  /** A character that is neither the separator nor in any piece is not in the joined text. */
  lemma {:induction false} JoinExcludes(parts: seq<string>, sep: char, c: char)
    requires c != sep
    requires forall k :: 0 <= k < |parts| ==> c !in parts[k]
    ensures c !in Join(parts, sep)
  {
    if |parts| > 1 {
      JoinExcludes(parts[1..], sep, c);
    }
  }

  /** Splitting undoes joining for pieces free of the separator, so `split` is `join`'s inverse. */
  lemma {:induction false} SplitJoin(parts: seq<string>, sep: char)
    requires |parts| >= 1
    requires forall k :: 0 <= k < |parts| ==> sep !in parts[k]
    ensures Split(Join(parts, sep), sep) == parts
  {
    if |parts| == 1 {
      assert IndexOf(parts[0], sep) == |parts[0]|;
    } else {
      var x, y := parts[0], Join(parts[1..], sep);
      var s := x + [sep] + y;
      IndexOfJoin(x, y, sep);
      assert s[..|x|] == x;
      assert s[|x| + 1..] == y;
      SplitJoin(parts[1..], sep);
      assert [x] + parts[1..] == parts;
    }
  }

  // ---------------------------------------------------------------- decimal numbers

  predicate IsDigit(c: char) {
    '0' <= c <= '9'
  }

  /** A non-empty string of decimal digits, leading zeros allowed. */
  predicate IsDecimal(s: string) {
    |s| >= 1 && forall i :: 0 <= i < |s| ==> IsDigit(s[i])
  }

  function DigitChar(d: nat): (c: char)
    requires d < 10
    ensures IsDigit(c) && c as int - '0' as int == d
  {
    ('0' as int + d) as char
  }

  /** `${n}` for a natural number: its decimal digits, no leading zero. */
  function NatToString(n: nat): (r: string)
    ensures IsDecimal(r)
    ensures r[0] == '0' ==> n == 0
  {
    if n < 10 then [DigitChar(n)]
    else NatToString(n / 10) + [DigitChar(n % 10)]
  }

  /** `Number(s)` for a string of decimal digits. */
  function DecimalValue(s: string): nat
    requires forall i :: 0 <= i < |s| ==> IsDigit(s[i])
  {
    if s == [] then 0
    else
      assert IsDigit(s[|s| - 1]);
      10 * DecimalValue(s[..|s| - 1]) + (s[|s| - 1] as int - '0' as int)
  }

  /** Reading back the digits `${n}` writes gives `n`. */
  lemma {:induction false} DecimalRoundTrip(n: nat)
    ensures DecimalValue(NatToString(n)) == n
  {
    if n >= 10 {
      var s := NatToString(n);
      assert s[..|s| - 1] == NatToString(n / 10);
      DecimalRoundTrip(n / 10);
    }
  }

  // ---------------------------------------------------------------- sort order

  /** `a < b` in JavaScript's default string order: lexicographic by character. */
  predicate StrLess(a: string, b: string) {
    if a == [] then b != []
    else if b == [] then false
    else if a[0] != b[0] then a[0] < b[0]
    else StrLess(a[1..], b[1..])
  }

  lemma StrLessIrreflexive(a: string)
    ensures !StrLess(a, a)
  {
  }

  lemma {:induction false} StrLessTransitive(a: string, b: string, c: string)
    requires StrLess(a, b) && StrLess(b, c)
    ensures StrLess(a, c)
  {
    if a != [] && b != [] && c != [] && a[0] == b[0] && b[0] == c[0] {
      StrLessTransitive(a[1..], b[1..], c[1..]);
    }
  }

  lemma {:induction false} StrLessTotal(a: string, b: string)
    ensures a == b || StrLess(a, b) || StrLess(b, a)
  {
    if a != [] && b != [] && a[0] == b[0] {
      StrLessTotal(a[1..], b[1..]);
      assert a == [a[0]] + a[1..] && b == [b[0]] + b[1..];
    }
  }

  lemma {:induction false} StrLessAsymmetric(a: string, b: string)
    requires StrLess(a, b)
    ensures !StrLess(b, a)
  {
    if a != [] && b != [] && a[0] == b[0] {
      StrLessAsymmetric(a[1..], b[1..]);
    }
  }

  /** In strictly increasing order, so also duplicate-free. */
  predicate StrictlySorted(s: seq<string>) {
    forall i, j :: 0 <= i < j < |s| ==> StrLess(s[i], s[j])
  }

  /** Puts `x` into its place in a strictly sorted list, unless it is there already. */
  function InsertUnique(x: string, s: seq<string>): (r: seq<string>)
    requires StrictlySorted(s)
    ensures StrictlySorted(r)
    ensures forall y :: y in r <==> y in s || y == x
  {
    if s == [] then [x]
    else if StrLess(s[0], x) then
      var rest := InsertUnique(x, s[1..]);
      assert forall k :: 0 <= k < |rest| ==> StrLess(s[0], rest[k]) by {
        forall k | 0 <= k < |rest|
          ensures StrLess(s[0], rest[k])
        {
          if rest[k] != x {
            assert rest[k] in s[1..];
          }
        }
      }
      assert s == [s[0]] + s[1..];
      [s[0]] + rest
    else if s[0] == x then s
    else
      assert StrLess(x, s[0]) by {
        StrLessTotal(x, s[0]);
      }
      assert forall k :: 0 <= k < |s| ==> StrLess(x, s[k]) by {
        forall k | 0 < k < |s|
          ensures StrLess(x, s[k])
        {
          StrLessTransitive(x, s[0], s[k]);
        }
      }
      [x] + s
  }

  /**
   * `[...new Set(s)].sort()` on strings: the distinct elements of `s` in strictly
   * increasing order.
   */
  function SortedSet(s: seq<string>): (r: seq<string>)
    ensures StrictlySorted(r)
    ensures forall y :: y in r <==> y in s
  {
    if s == [] then []
    else
      assert s == [s[0]] + s[1..];
      InsertUnique(s[0], SortedSet(s[1..]))
  }

  /** The head of a strictly sorted list is its least element. */
  lemma HeadIsLeast(b: seq<string>, y: string)
    requires StrictlySorted(b) && y in b
    ensures !StrLess(y, b[0])
  {
    var k :| 0 <= k < |b| && b[k] == y;
    if k > 0 {
      StrLessAsymmetric(b[0], b[k]);
    } else {
      StrLessIrreflexive(y);
    }
  }

  /**
   * Two strictly sorted lists with the same elements are equal: sorting a set of
   * names has exactly one outcome, whichever sorting algorithm produces it.
   */
  lemma {:induction false} StrictlySortedUnique(a: seq<string>, b: seq<string>)
    requires StrictlySorted(a) && StrictlySorted(b)
    requires forall y :: y in a <==> y in b
    ensures a == b
  {
    assert a != [] <==> b != [] by {
      if a != [] { assert a[0] in a; }
      if b != [] { assert b[0] in b; }
    }
    if a != [] {
      assert a[0] in a && b[0] in b;
      HeadIsLeast(b, a[0]);
      HeadIsLeast(a, b[0]);
      StrLessTotal(a[0], b[0]);
      StrLessIrreflexive(a[0]);
      assert forall y :: y in a[1..] <==> y in a && y != a[0] by {
        assert a == [a[0]] + a[1..];
        forall k | 1 <= k < |a| ensures a[k] != a[0] { }
      }
      assert forall y :: y in b[1..] <==> y in b && y != b[0] by {
        assert b == [b[0]] + b[1..];
        forall k | 1 <= k < |b| ensures b[k] != b[0] { }
      }
      StrictlySortedUnique(a[1..], b[1..]);
      assert a == [a[0]] + a[1..] && b == [b[0]] + b[1..];
    }
  }
}
