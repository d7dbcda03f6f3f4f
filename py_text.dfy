/** The handful of Python `str` operations the services rely on: `strip`,
    `lower`, `in`, `startswith`/`endswith`, `split`/`join`, `str(int)`,
    `splitlines` and `os.path.splitext`/`os.path.join` (POSIX flavour). */
module PyText {

  // ---------------------------------------------------------------------
  // Whitespace and strip

  /** The characters for which Python's `str.isspace()` holds. */
  predicate IsSpace(c: char) {
    var n := c as int;
    (9 <= n <= 13) || (0x1C <= n <= 0x20) || n == 0x85 || n == 0xA0 || n == 0x1680
    || (0x2000 <= n <= 0x200A) || n == 0x2028 || n == 0x2029 || n == 0x202F
    || n == 0x205F || n == 0x3000
  }

  predicate AllSpace(s: string) {
    forall k :: 0 <= k < |s| ==> IsSpace(s[k])
  }

  /** `s.lstrip()`: the suffix left after dropping leading whitespace. */
  function LStrip(s: string): (r: string)
    ensures |r| <= |s| && r == s[|s| - |r|..]
    ensures AllSpace(s[..|s| - |r|])
    ensures r == [] || !IsSpace(r[0])
  {
    if s != [] && IsSpace(s[0]) then LStrip(s[1..]) else s
  }

  /** `s.rstrip()`: the prefix left after dropping trailing whitespace. */
  function RStrip(s: string): (r: string)
    ensures |r| <= |s| && r == s[..|r|]
    ensures AllSpace(s[|r|..])
    ensures r == [] || !IsSpace(r[|r| - 1])
  {
    if s != [] && IsSpace(s[|s| - 1]) then RStrip(s[..|s| - 1]) else s
  }

  /** `s.strip()`. */
  function Strip(s: string): (r: string)
    ensures r == [] || (!IsSpace(r[0]) && !IsSpace(r[|r| - 1]))
    ensures r == [] <==> AllSpace(s)
  {
    var l := LStrip(s);
    assert s == s[..|s| - |l|] + l;
    RStrip(l)
  }

  lemma StripNoSpace(s: string)
    requires s == [] || (!IsSpace(s[0]) && !IsSpace(s[|s| - 1]))
    ensures Strip(s) == s
  {
  }

  // ---------------------------------------------------------------------
  // Case

  /** ASCII lower-casing, which is what `str.lower()` does on ASCII text. */
  function LowerChar(c: char): char {
    if 'A' <= c <= 'Z' then (c as int + 32) as char else c
  }

  function Lower(s: string): (r: string)
    ensures |r| == |s|
    ensures forall k :: 0 <= k < |s| ==> r[k] == LowerChar(s[k])
  {
    if s == [] then [] else [LowerChar(s[0])] + Lower(s[1..])
  }

  lemma LowerAppend(a: string, b: string)
    ensures Lower(a + b) == Lower(a) + Lower(b)
  {
    assert Lower(a + b) == Lower(a) + Lower(b);
  }

  // ---------------------------------------------------------------------
  // Prefixes, suffixes, substrings

  predicate StartsWith(s: string, p: string) {
    |p| <= |s| && s[..|p|] == p
  }

  predicate EndsWith(s: string, p: string) {
    |p| <= |s| && s[|s| - |p|..] == p
  }

  /** `sub` occurs in `s` starting at index `i`. */
  predicate OccursAt(s: string, sub: string, i: nat) {
    i + |sub| <= |s| && s[i..i + |sub|] == sub
  }

  /** Python's `sub in s`. */
  predicate Contains(s: string, sub: string)
    decreases |s|
  {
    StartsWith(s, sub) || (|s| > 0 && Contains(s[1..], sub))
  }

  /** `sub in s` holds exactly when `sub` occurs at some index of `s`. */
  lemma {:induction false} ContainsAt(s: string, sub: string)
    ensures Contains(s, sub) <==> exists i: nat :: OccursAt(s, sub, i)
    decreases |s|
  {
    if StartsWith(s, sub) {
      assert OccursAt(s, sub, 0);
    } else {
      assert !OccursAt(s, sub, 0);
      if |s| > 0 {
        ContainsAt(s[1..], sub);
        if Contains(s[1..], sub) {
          var i: nat :| OccursAt(s[1..], sub, i);
          assert s[1..][i..i + |sub|] == s[i + 1..i + 1 + |sub|];
          assert OccursAt(s, sub, i + 1);
        }
        if exists i: nat :: OccursAt(s, sub, i) {
          var i: nat :| OccursAt(s, sub, i);
          assert i != 0;
          assert s[1..][i - 1..i - 1 + |sub|] == s[i..i + |sub|];
          assert OccursAt(s[1..], sub, i - 1);
        }
      } else {
        forall i: nat ensures !OccursAt(s, sub, i) { }
      }
    }
  }

  lemma ContainsSelf(s: string)
    ensures Contains(s, s)
  {
    assert StartsWith(s, s);
  }

  lemma {:induction false} ContainsMiddle(a: string, sub: string, b: string)
    ensures Contains(a + sub + b, sub)
  {
    ContainsAt(a + sub + b, sub);
    assert (a + sub + b)[|a|..|a| + |sub|] == sub;
    assert OccursAt(a + sub + b, sub, |a|);
  }

  /** A substring of `s` is also a substring of any string containing `s`. */
  lemma {:induction false} ContainsTransitive(big: string, s: string, sub: string)
    requires Contains(big, s) && Contains(s, sub)
    ensures Contains(big, sub)
  {
    ContainsAt(big, s);
    ContainsAt(s, sub);
    var i: nat :| OccursAt(big, s, i);
    var j: nat :| OccursAt(s, sub, j);
    forall k | 0 <= k < |sub| ensures big[i + j + k] == sub[k] {
      assert sub[k] == s[j + k] == big[i..i + |s|][j + k];
    }
    assert big[i + j..i + j + |sub|] == sub;
    assert OccursAt(big, sub, i + j);
    ContainsAt(big, sub);
  }

  // ---------------------------------------------------------------------
  // split / join

  /** Python's `s.split(sep)` for a non-empty separator: cut at the leftmost
      non-overlapping occurrences of `sep`. */
  function Split(s: string, sep: string): (parts: seq<string>)
    requires |sep| > 0
    ensures |parts| >= 1
    decreases |s|
  {
    if |s| < |sep| then [s]
    else if s[..|sep|] == sep then [""] + Split(s[|sep|..], sep)
    else
      var rest := Split(s[1..], sep);
      [[s[0]] + rest[0]] + rest[1..]
  }

  /** Python's `sep.join(parts)`. */
  function Join(parts: seq<string>, sep: string): string {
    if parts == [] then ""
    else if |parts| == 1 then parts[0]
    else parts[0] + sep + Join(parts[1..], sep)
  }

  /** Joining the pieces of a split gives back the original string. */
  lemma {:induction false} JoinSplit(s: string, sep: string)
    requires |sep| > 0
    ensures Join(Split(s, sep), sep) == s
    decreases |s|
  {
    if |s| < |sep| {
    } else if s[..|sep|] == sep {
      JoinSplit(s[|sep|..], sep);
      var rest := Split(s[|sep|..], sep);
      assert Split(s, sep) == [""] + rest;
      assert Join([""] + rest, sep) == "" + sep + Join(rest, sep) by {
        assert ([""] + rest)[1..] == rest;
      }
      assert s == sep + s[|sep|..];
    } else {
      JoinSplit(s[1..], sep);
      var rest := Split(s[1..], sep);
      var parts := [[s[0]] + rest[0]] + rest[1..];
      assert Split(s, sep) == parts;
      assert parts[1..] == rest[1..];
      if |rest| == 1 {
        assert Join(parts, sep) == [s[0]] + rest[0];
      } else {
        assert Join(parts, sep) == ([s[0]] + rest[0]) + sep + Join(rest[1..], sep);
        assert Join(rest, sep) == rest[0] + sep + Join(rest[1..], sep);
      }
      assert s == [s[0]] + s[1..];
    }
  }

  /** No occurrence of `sep` starts before index `n` of `s`. */
  predicate NoMatchBefore(s: string, sep: string, n: nat) {
    forall i: nat :: i < n ==> !OccursAt(s, sep, i)
  }

  /** Split cuts at the first occurrence of the separator. */
  lemma {:induction false} SplitAtFirst(s: string, sep: string, n: nat)
    requires |sep| > 0
    requires NoMatchBefore(s, sep, n) && OccursAt(s, sep, n)
    ensures Split(s, sep) == [s[..n]] + Split(s[n + |sep|..], sep)
    decreases n
  {
    if n == 0 {
      assert s[..|sep|] == sep;
    } else {
      assert !OccursAt(s, sep, 0);
      assert s[..|sep|] != sep by { assert s[0..0 + |sep|] == s[..|sep|]; }
      var t := s[1..];
      ShiftNoMatch(s, sep, n);
      assert t[n - 1..n - 1 + |sep|] == s[n..n + |sep|];
      assert OccursAt(t, sep, n - 1);
      SplitAtFirst(t, sep, n - 1);
      assert t[..n - 1] == s[1..n];
      assert t[n - 1 + |sep|..] == s[n + |sep|..];
      assert [s[0]] + s[1..n] == s[..n];
    }
  }

  lemma ShiftNoMatch(s: string, sep: string, n: nat)
    requires |s| > 0 && n > 0 && NoMatchBefore(s, sep, n)
    ensures NoMatchBefore(s[1..], sep, n - 1)
  {
    forall i: nat | i < n - 1 ensures !OccursAt(s[1..], sep, i) {
      assert !OccursAt(s, sep, i + 1);
      if i + |sep| <= |s| - 1 {
        assert s[1..][i..i + |sep|] == s[i + 1..i + 1 + |sep|];
      }
    }
  }

  /** A string without the first character of `sep` does not contain it. */
  lemma NoFirstCharNoContains(x: string, sep: string)
    requires |sep| > 0 && sep[0] !in x
    ensures !Contains(x, sep)
  {
    ContainsAt(x, sep);
  }

  /** A two-character separator found in `x + y` lies in `x`, in `y`, or
      across the seam. */
  lemma ConcatNoContains(x: string, y: string, sep: string)
    requires |sep| == 2 && !Contains(x, sep) && !Contains(y, sep)
    requires x == [] || y == [] || x[|x| - 1] != sep[0] || y[0] != sep[1]
    ensures !Contains(x + y, sep)
  {
    ContainsAt(x, sep);
    ContainsAt(y, sep);
    forall i: nat ensures !OccursAt(x + y, sep, i) {
      ConcatNoOccurrence(x, y, sep, i);
    }
    ContainsAt(x + y, sep);
  }

  lemma ConcatNoOccurrence(x: string, y: string, sep: string, i: nat)
    requires |sep| == 2 && (forall j: nat :: !OccursAt(x, sep, j)) && (forall j: nat :: !OccursAt(y, sep, j))
    requires x == [] || y == [] || x[|x| - 1] != sep[0] || y[0] != sep[1]
    ensures !OccursAt(x + y, sep, i)
  {
    var s := x + y;
    if i + 2 > |s| {
    } else if i + 2 <= |x| {
      assert !OccursAt(x, sep, i);
      assert s[i..i + 2] == x[i..i + 2];
    } else if i >= |x| {
      assert !OccursAt(y, sep, i - |x|);
      assert s[i..i + 2] == y[i - |x|..i - |x| + 2];
    } else {
      assert s[i] == x[|x| - 1] && s[i + 1] == y[0];
      assert s[i..i + 2][0] == s[i];
    }
  }

  /** Splitting at a two-character separator (with distinct characters)
      cuts right after a first piece that does not contain it. */
  lemma SplitAfterFirst(a: string, sep: string, b: string)
    requires |sep| == 2 && sep[0] != sep[1] && !Contains(a, sep)
    ensures Split(a + sep + b, sep) == [a] + Split(b, sep)
  {
    var s := a + sep + b;
    NotContainsNoMatch(a, sep);
    forall i: nat | i < |a| ensures !OccursAt(s, sep, i) {
      if i + 2 <= |a| {
        assert s[i..i + 2] == a[i..i + 2];
        assert !OccursAt(a, sep, i);
      } else {
        assert s[i + 1] == sep[0];
        assert s[i..i + 2][1] == s[i + 1];
      }
    }
    assert s[|a|..|a| + 2] == sep;
    SplitAtFirst(s, sep, |a|);
    assert s[..|a|] == a;
    assert s[|a| + 2..] == b;
  }

  /** A string with no occurrence of the separator is not cut. */
  lemma {:induction false} SplitNone(s: string, sep: string)
    requires |sep| > 0 && NoMatchBefore(s, sep, |s|)
    ensures Split(s, sep) == [s]
    decreases |s|
  {
    if |s| < |sep| {
    } else {
      assert !OccursAt(s, sep, 0);
      assert s[..|sep|] != sep by { assert s[0..0 + |sep|] == s[..|sep|]; }
      var t := s[1..];
      ShiftNoMatch(s, sep, |s|);
      SplitNone(t, sep);
      assert [s[0]] + t == s;
    }
  }

  /** For a one-character separator, splitting a join of separator-free
      pieces gives the pieces back. */
  lemma {:induction false} SplitJoinChar(parts: seq<string>, c: char)
    requires |parts| >= 1
    requires forall k :: 0 <= k < |parts| ==> c !in parts[k]
    ensures Split(Join(parts, [c]), [c]) == parts
    decreases |parts|
  {
    var p := parts[0];
    var s := Join(parts, [c]);
    assert c !in p;
    assert p == s[..|p|];
    assert NoMatchBefore(s, [c], |p|) by {
      forall i: nat | i < |p| ensures !OccursAt(s, [c], i) {
        assert s[i] == p[i];
        if i + 1 <= |s| { assert s[i..i + 1] == [s[i]]; }
      }
    }
    if |parts| == 1 {
      SplitNone(s, [c]);
    } else {
      var tail := Join(parts[1..], [c]);
      assert s == p + [c] + tail;
      assert s[|p|..|p| + 1] == [c];
      SplitAtFirst(s, [c], |p|);
      assert s[|p| + 1..] == tail;
      SplitJoinChar(parts[1..], c);
      assert parts == [p] + parts[1..];
    }
  }

  // ---------------------------------------------------------------------
  // Character replacement and right-stripping a character set

  /** `s.replace(a, b)` for one-character `a` and `b`. */
  function ReplaceChar(s: string, a: char, b: char): (r: string)
    ensures |r| == |s|
    ensures forall k :: 0 <= k < |s| ==> r[k] == (if s[k] == a then b else s[k])
  {
    if s == [] then [] else [if s[0] == a then b else s[0]] + ReplaceChar(s[1..], a, b)
  }

  /** `s.rstrip(chars)`: drop trailing characters that belong to `chars`. */
  function RStripChars(s: string, chars: set<char>): (r: string)
    ensures |r| <= |s| && r == s[..|r|]
    ensures forall k :: |r| <= k < |s| ==> s[k] in chars
    ensures r == [] || r[|r| - 1] !in chars
  {
    if s != [] && s[|s| - 1] in chars then RStripChars(s[..|s| - 1], chars) else s
  }

  // ---------------------------------------------------------------------
  // Decimal text of integers (`str(n)` and `int(s)` on plain digit strings)

  predicate IsDigit(c: char) { '0' <= c <= '9' }

  predicate AllDigits(s: string) { forall k :: 0 <= k < |s| ==> IsDigit(s[k]) }

  function DigitChar(d: nat): (c: char)
    requires d < 10
    ensures IsDigit(c)
  {
    ('0' as int + d) as char
  }

  function DigitValue(c: char): nat
    requires IsDigit(c)
  {
    c as int - '0' as int
  }

  /** `str(n)` for a natural number: decimal digits, no padding. */
  function NatToString(n: nat): (s: string)
    ensures |s| >= 1 && AllDigits(s)
    ensures s[0] == '0' ==> n == 0
    decreases n
  {
    if n < 10 then [DigitChar(n)] else NatToString(n / 10) + [DigitChar(n % 10)]
  }

  /** The value of a string of decimal digits. */
  function ParseNat(s: string): nat
    requires AllDigits(s)
    decreases |s|
  {
    if s == [] then 0 else ParseNat(s[..|s| - 1]) * 10 + DigitValue(s[|s| - 1])
  }

  /** Reading back the decimal text of a number gives the number. */
  lemma {:induction false} ParseNatToString(n: nat)
    ensures ParseNat(NatToString(n)) == n
    decreases n
  {
    if n >= 10 {
      ParseNatToString(n / 10);
      var s := NatToString(n);
      assert s[..|s| - 1] == NatToString(n / 10);
    }
  }

  /** `str(i)` for any Python `int`. */
  function IntToString(i: int): string {
    if i < 0 then "-" + NatToString(-i) else NatToString(i)
  }

  // ---------------------------------------------------------------------
  // Lines: `str.splitlines()`

  /** The line boundaries recognised by `str.splitlines()`. */
  predicate IsLineBreak(c: char) {
    var n := c as int;
    (10 <= n <= 13) || (0x1C <= n <= 0x1E) || n == 0x85 || n == 0x2028 || n == 0x2029
  }

  predicate NoLineBreak(s: string) { forall k :: 0 <= k < |s| ==> !IsLineBreak(s[k]) }

  /** Index of the first line boundary, or `|s|`. */
  function LineEnd(s: string): (i: nat)
    ensures i <= |s| && NoLineBreak(s[..i])
    ensures i < |s| ==> IsLineBreak(s[i])
  {
    if s == [] || IsLineBreak(s[0]) then 0 else 1 + LineEnd(s[1..])
  }

  /** `s.splitlines()`: "\r\n" is one boundary and no empty last line is
      produced for a trailing boundary. */
  function SplitLines(s: string): (lines: seq<string>)
    ensures forall k :: 0 <= k < |lines| ==> NoLineBreak(lines[k])
    decreases |s|
  {
    if s == [] then []
    else
      var i := LineEnd(s);
      if i == |s| then [s]
      else
        var width := if s[i] == '\r' && i + 1 < |s| && s[i + 1] == '\n' then 2 else 1;
        [s[..i]] + SplitLines(s[i + width..])
  }

  /** Lines joined with "\n", each terminated. */
  function JoinLines(lines: seq<string>): string {
    if lines == [] then "" else lines[0] + "\n" + JoinLines(lines[1..])
  }

  /** `splitlines` recovers the lines of a newline-terminated text. */
  lemma {:induction false} SplitJoinLines(lines: seq<string>)
    requires forall k :: 0 <= k < |lines| ==> NoLineBreak(lines[k])
    ensures SplitLines(JoinLines(lines)) == lines
    decreases |lines|
  {
    if lines != [] {
      var l := lines[0];
      var tail := JoinLines(lines[1..]);
      var s := l + "\n" + tail;
      assert JoinLines(lines) == s;
      assert s == l + ("\n" + tail);
      LineEndOf(l, "\n" + tail);
      assert s[|l|] == '\n';
      assert s[|l| + 1..] == tail;
      assert s[..|l|] == l;
      assert SplitLines(s) == [l] + SplitLines(tail);
      SplitJoinLines(lines[1..]);
      assert lines == [l] + lines[1..];
    }
  }

  lemma {:induction false} LineEndOf(l: string, rest: string)
    requires NoLineBreak(l) && rest != [] && IsLineBreak(rest[0])
    ensures LineEnd(l + rest) == |l|
    decreases |l|
  {
    if l == [] {
      assert l + rest == rest;
    } else {
      assert (l + rest)[0] == l[0];
      assert (l + rest)[1..] == l[1..] + rest;
      assert NoLineBreak(l[1..]) by {
        forall k | 0 <= k < |l| - 1 ensures !IsLineBreak(l[1..][k]) {
          assert l[1..][k] == l[k + 1];
        }
      }
      LineEndOf(l[1..], rest);
    }
  }

  // ---------------------------------------------------------------------
  // Paths (POSIX `os.path`)

  /** `os.path.join(a, b)` for two components. */
  function PathJoin(a: string, b: string): string {
    if StartsWith(b, "/") then b
    else if a == [] || EndsWith(a, "/") then a + b
    else a + "/" + b
  }

  /** The last component of a path: everything after the last '/'. */
  function Basename(p: string): (b: string)
    ensures |b| <= |p| && b == p[|p| - |b|..]
    ensures '/' !in b
    ensures |b| < |p| ==> p[|p| - |b| - 1] == '/'
  {
    if p == [] || p[|p| - 1] == '/' then [] else Basename(p[..|p| - 1]) + [p[|p| - 1]]
  }

  /** Index of the last '.' in `b`, or -1. */
  function LastDot(b: string): (i: int)
    ensures -1 <= i < |b|
    ensures i >= 0 ==> b[i] == '.'
    ensures forall k :: i < k < |b| ==> b[k] != '.'
  {
    if b == [] then -1
    else if b[|b| - 1] == '.' then |b| - 1
    else LastDot(b[..|b| - 1])
  }

  /** The extension `os.path.splitext` finds in one path component: from
      its last '.', provided a character other than '.' comes before that
      dot (so ".bashrc" has no extension). */
  function BaseExt(b: string): (e: string)
    ensures e == [] || (e[0] == '.' && EndsWith(b, e))
  {
    var d := LastDot(b);
    if d >= 0 && exists k :: 0 <= k < d && b[k] != '.' then b[d..] else ""
  }

  /** The extension that `os.path.splitext` returns for a path. */
  function Ext(p: string): (e: string)
    ensures e == [] || (e[0] == '.' && EndsWith(p, e) && '/' !in e)
  {
    var b := Basename(p);
    var e := BaseExt(b);
    assert e != [] ==> p[|p| - |e|..] == b[|b| - |e|..];
    e
  }

  /** Only the last path component matters for the extension. */
  lemma {:induction false} BasenameAfterSlash(a: string, b: string)
    requires EndsWith(a, "/")
    ensures Basename(a + b) == Basename(b)
    decreases |b|
  {
    if b == [] {
      assert a + b == a;
    } else {
      assert (a + b)[..|a + b| - 1] == a + b[..|b| - 1];
      if b[|b| - 1] != '/' { BasenameAfterSlash(a, b[..|b| - 1]); }
    }
  }

  /** `os.path.splitext(os.path.join(a, b))` has the extension of `b`. */
  lemma ExtOfJoin(a: string, b: string)
    ensures Ext(PathJoin(a, b)) == Ext(b)
  {
    if StartsWith(b, "/") {
    } else if a == [] {
      assert a + b == b;
    } else if EndsWith(a, "/") {
      BasenameAfterSlash(a, b);
    } else {
      assert a + "/" + b == (a + "/") + b;
      assert EndsWith(a + "/", "/");
      BasenameAfterSlash(a + "/", b);
    }
  }

  /** The extension of a plain file name "stem.e", where the stem is not
      empty, has no '.' and no '/', and `e` has neither. */
  lemma {:induction false} ExtOfName(stem: string, e: string)
    requires stem != [] && '.' !in stem && '/' !in stem && '.' !in e && '/' !in e
    ensures Ext(stem + "." + e) == "." + e
    decreases |e|
  {
    var url := stem + "." + e;
    assert forall k :: 0 <= k < |url| ==> url[k] != '/' by {
      forall k | 0 <= k < |url| ensures url[k] != '/' {
        if k < |stem| { assert url[k] == stem[k]; }
        else if k > |stem| { assert url[k] == e[k - |stem| - 1]; }
      }
    }
    assert Basename(url) == url;
    DotAt(stem, e);
    assert url[0] == stem[0] && url[0] != '.';
    assert url[|stem|..] == "." + e;
  }

  lemma {:induction false} DotAt(stem: string, e: string)
    requires '.' !in e
    ensures LastDot(stem + "." + e) == |stem|
    decreases |e|
  {
    var url := stem + "." + e;
    if e == [] {
      assert url[|url| - 1] == '.';
    } else {
      assert url[|url| - 1] == e[|e| - 1];
      assert url[..|url| - 1] == stem + "." + e[..|e| - 1];
      DotAt(stem, e[..|e| - 1]);
    }
  }

  /** A string in which `sub` does not occur has no match at any index. */
  lemma NotContainsNoMatch(s: string, sub: string)
    requires !Contains(s, sub)
    ensures NoMatchBefore(s, sub, |s|)
  {
    ContainsAt(s, sub);
  }

  // ---------------------------------------------------------------------
  // Ordering: `a < b` on str

  /** Python's `a < b` on strings: lexicographic by code point, a proper
      prefix coming first. */
  predicate StrLt(a: string, b: string) {
    if a == [] then b != []
    else b != [] && (a[0] < b[0] || (a[0] == b[0] && StrLt(a[1..], b[1..])))
  }

  lemma {:induction false} StrLtTrans(a: string, b: string, c: string)
    requires StrLt(a, b) && StrLt(b, c)
    ensures StrLt(a, c)
  {
    if a != [] && a[0] == b[0] && b[0] == c[0] {
      StrLtTrans(a[1..], b[1..], c[1..]);
    }
  }

  lemma {:induction false} StrLtIrreflexive(a: string)
    ensures !StrLt(a, a)
  {
    if a != [] { StrLtIrreflexive(a[1..]); }
  }

  /** Any two different strings are ordered one way or the other. */
  lemma {:induction false} StrLtTotal(a: string, b: string)
    ensures a == b || StrLt(a, b) || StrLt(b, a)
  {
    if a != [] && b != [] && a[0] == b[0] {
      StrLtTotal(a[1..], b[1..]);
      if a[1..] == b[1..] { assert a == [a[0]] + a[1..] && b == [b[0]] + b[1..]; }
    }
  }
}
