/**
 * Python semantics that the rest of the model relies on: the exceptions the
 * source can raise, `None`-or-value results, and the handful of `str` / `int`
 * builtins the code calls (find, replace, split, strip, startswith, int(),
 * str() and UTF-8 encoding).  Each is defined once here and characterised by
 * lemmas, so the modules that model the program can state their contracts in
 * terms of them.
 */
module Py {

  /** The Python exceptions that the modelled code can raise. */
  datatype Error =
    | KeyError
    | TypeError
    | IndexError
    | ValueError
    | NameError
    | UnboundLocalError
    | AttributeError
    | OSError
    | RecursionError
    | ZeroDivisionError

  datatype Option<+T> = None | Some(value: T)

  /** A call that either returns a value or raises. */
  datatype Outcome<+T> = Ok(value: T) | Raise(error: Error) {
    predicate IsOk() { Ok? }
  }

  newtype byte = x: int | 0 <= x < 256

  // ---------------------------------------------------------------------------
  // Prefixes, suffixes, occurrences

  predicate StartsWith(s: string, p: string) {
    |p| <= |s| && s[..|p|] == p
  }

  predicate EndsWith(s: string, p: string) {
    |p| <= |s| && s[|s| - |p|..] == p
  }

  /** `p` occurs in `s` at index `i`. */
  predicate OccursAt(s: string, p: string, i: int) {
    0 <= i && i + |p| <= |s| && s[i..i + |p|] == p
  }

  /** `p in s` for strings. */
  predicate Contains(s: string, p: string) {
    exists i :: 0 <= i <= |s| && OccursAt(s, p, i)
  }

  /** `b` occurs in `a + b + c` right after `a`. */
  lemma OccursAtMiddle(a: string, b: string, c: string)
    ensures OccursAt(a + b + c, b, |a|)
  {
    assert (a + b + c)[|a|..|a| + |b|] == b;
  }

  /** A one-character pattern occurs exactly where that character stands. */
  lemma OccursAtChar(s: string, c: char, i: int)
    ensures OccursAt(s, [c], i) <==> 0 <= i < |s| && s[i] == c
  {
    if 0 <= i < |s| && s[i] == c {
      assert s[i..i + 1] == [c];
    }
  }

  /** A one-character string is in `s` exactly when its character is. */
  lemma ContainsChar(s: string, c: char)
    ensures Contains(s, [c]) <==> c in s
  {
    if Contains(s, [c]) {
      var i :| 0 <= i <= |s| && OccursAt(s, [c], i);
      OccursAtChar(s, c, i);
    }
    if c in s {
      var i :| 0 <= i < |s| && s[i] == c;
      OccursAtChar(s, c, i);
    }
  }

  /** The first `c` in `a + [c] + b` is the one after `a` when `a` has none. */
  lemma FindFirstChar(a: string, c: char, b: string)
    requires c !in a
    ensures Find(a + [c] + b, [c]) == |a|
  {
    var s := a + [c] + b;
    OccursAtChar(s, c, |a|);
    var r := Find(s, [c]);
    assert Contains(s, [c]);
    OccursAtChar(s, c, r);
  }

  /** A slice of a slice is a slice of the whole. */
  lemma SliceOfSlice(s: string, a: nat, b: nat, c: nat, d: nat)
    requires a <= b <= |s| && c <= d <= b - a
    ensures s[a..b][c..d] == s[a + c..a + d]
  {
    forall k | 0 <= k < d - c ensures s[a..b][c..d][k] == s[a + c..a + d][k] {
      assert s[a..b][c..d][k] == s[a..b][c + k] == s[a + c + k];
    }
  }

  /** Python's reading of a slice bound for a sequence of length `n`. */
  function Bound(i: int, n: nat): (r: nat)
    ensures r <= n
    ensures 0 <= i <= n ==> r == i
  {
    var j := if i < 0 then i + n else i;
    if j < 0 then 0 else if j > n then n else j
  }

  /** `s[lo:hi]`: negative bounds count from the end and both are clamped. */
  function Slice(s: string, lo: int, hi: int): (r: string)
    ensures |r| <= |s|
    ensures 0 <= lo <= hi <= |s| ==> r == s[lo..hi]
    ensures 0 <= lo <= |s| ==> |r| <= |s| - lo
    ensures lo >= |s| ==> r == []
  {
    var a := Bound(lo, |s|);
    var b := Bound(hi, |s|);
    if a < b then s[a..b] else []
  }

  /** `s.find(p, start)`: the first occurrence at or after `start`, or -1. */
  function FindFrom(s: string, p: string, start: nat): (r: int)
    ensures r == -1 || (start <= r && OccursAt(s, p, r))
    ensures r != -1 ==> forall i :: start <= i < r ==> !OccursAt(s, p, i)
    ensures r == -1 ==> forall i :: start <= i ==> !OccursAt(s, p, i)
    decreases |s| - start
  {
    if start + |p| > |s| then
      -1
    else if s[start..start + |p|] == p then
      start
    else
      FindFrom(s, p, start + 1)
  }

  /** `s.find(p)`. */
  function Find(s: string, p: string): (r: int)
    ensures r == -1 || OccursAt(s, p, r)
    ensures r != -1 ==> forall i :: 0 <= i < r ==> !OccursAt(s, p, i)
    ensures r == -1 <==> !Contains(s, p)
  {
    FindFrom(s, p, 0)
  }

  // ---------------------------------------------------------------------------
  // str.replace

  /** `s.replace(pat, rep)`: every non-overlapping occurrence, scanning left to right. */
  function Replace(s: string, pat: string, rep: string): string
    decreases |s|
  {
    if |pat| == 0 then
      rep + (if s == [] then [] else [s[0]] + Replace(s[1..], pat, rep))
    else if |s| == 0 then
      []
    else if StartsWith(s, pat) then
      rep + Replace(s[|pat|..], pat, rep)
    else
      [s[0]] + Replace(s[1..], pat, rep)
  }

  /** Replacing a string that does not occur changes nothing. */
  lemma {:induction false} ReplaceAbsent(s: string, pat: string, rep: string)
    requires |pat| > 0 && !Contains(s, pat)
    ensures Replace(s, pat, rep) == s
  {
    if |s| > 0 {
      assert !OccursAt(s, pat, 0);
      forall i | OccursAt(s[1..], pat, i) ensures OccursAt(s, pat, i + 1) {
        assert s[i + 1..i + 1 + |pat|] == s[1..][i..i + |pat|];
      }
      ReplaceAbsent(s[1..], pat, rep);
    }
  }

  /** An occurrence at the very start is the first one replaced. */
  lemma ReplaceAtStart(s: string, pat: string, rep: string, rest: string)
    requires |pat| > 0 && s == pat + rest
    ensures Replace(s, pat, rep) == rep + Replace(rest, pat, rep)
  {
    assert s[..|pat|] == pat;
    assert s[|pat|..] == rest;
  }

  // ---------------------------------------------------------------------------
  // str.split and str.join

  /** `s.split(c)` for a one-character separator: never empty, no part holds `c`. */
  function SplitChar(s: string, c: char): (parts: seq<string>)
    ensures |parts| >= 1
    ensures forall k :: 0 <= k < |parts| ==> c !in parts[k]
    decreases |s|
  {
    if |s| == 0 then
      [[]]
    else
      var rest := SplitChar(s[1..], c);
      if s[0] == c then [[]] + rest else [[s[0]] + rest[0]] + rest[1..]
  }

  /** `sep.join(parts)`. */
  function Join(parts: seq<string>, sep: string): string
    decreases |parts|
  {
    if |parts| == 0 then []
    else if |parts| == 1 then parts[0]
    else parts[0] + sep + Join(parts[1..], sep)
  }

  /** Joining what was split gives the original string back. */
  lemma {:induction false} JoinSplitChar(s: string, c: char)
    ensures Join(SplitChar(s, c), [c]) == s
  {
    if |s| > 0 {
      JoinSplitChar(s[1..], c);
      var rest := SplitChar(s[1..], c);
      if s[0] == c {
        assert SplitChar(s, c) == [[]] + rest;
      } else {
        var parts := [[s[0]] + rest[0]] + rest[1..];
        assert SplitChar(s, c) == parts;
        if |rest| == 1 {
          assert Join(parts, [c]) == [s[0]] + rest[0];
        } else {
          assert parts[1..] == rest[1..];
          assert Join(parts, [c]) == [s[0]] + rest[0] + [c] + Join(rest[1..], [c]);
          assert Join(rest, [c]) == rest[0] + [c] + Join(rest[1..], [c]);
        }
      }
    }
  }

  /** Text without the separator splits into itself alone. */
  lemma {:induction false} SplitCharWhole(s: string, c: char)
    requires c !in s
    ensures SplitChar(s, c) == [s]
  {
    if |s| > 0 {
      assert c !in s[1..];
      SplitCharWhole(s[1..], c);
      assert s[0] != c;
      assert [s[0]] + s[1..] == s;
    }
  }

  /** Splitting at one separator splits the two sides independently. */
  lemma {:induction false} SplitCharAround(a: string, b: string, c: char)
    ensures SplitChar(a + [c] + b, c) == SplitChar(a, c) + SplitChar(b, c)
  {
    if |a| == 0 {
      assert a + [c] + b == [c] + b;
      assert ([c] + b)[1..] == b;
    } else {
      assert (a + [c] + b)[1..] == a[1..] + [c] + b;
      SplitCharAround(a[1..], b, c);
    }
  }

  /** Joining one more part adds the separator and that part. */
  lemma {:induction false} JoinSnoc(parts: seq<string>, sep: string, i: nat)
    requires 1 <= i < |parts|
    ensures Join(parts[..i + 1], sep) == Join(parts[..i], sep) + sep + parts[i]
  {
    if i > 1 {
      assert parts[..i + 1][1..] == parts[1..][..i];
      assert parts[..i][1..] == parts[1..][..i - 1];
      JoinSnoc(parts[1..], sep, i - 1);
    }
  }

  /** Joining the first parts gives a prefix of joining them all. */
  lemma {:induction false} JoinPrefix(parts: seq<string>, sep: string, m: nat)
    requires 1 <= m <= |parts|
    ensures StartsWith(Join(parts, sep), Join(parts[..m], sep))
    decreases |parts| - m
  {
    if m == |parts| {
      assert parts[..m] == parts;
    } else {
      JoinPrefix(parts, sep, m + 1);
      JoinSnoc(parts, sep, m);
      var whole := Join(parts, sep);
      var longer := Join(parts[..m + 1], sep);
      assert whole[..|longer|] == longer;
      assert longer[..|Join(parts[..m], sep)|] == Join(parts[..m], sep);
    }
  }

  /** `s.split(sep, 1)` unpacked into two names: raises ValueError when `sep` is absent. */
  function SplitOnce(s: string, sep: string): (r: Option<(string, string)>)
    requires |sep| > 0
    ensures r.None? <==> !Contains(s, sep)
    ensures r.Some? ==> r.value.0 + sep + r.value.1 == s && !Contains(r.value.0, sep)
  {
    var i := Find(s, sep);
    if i == -1 then None
    else
      assert s == s[..i] + sep + s[i + |sep|..] by {
        assert s[i..i + |sep|] == sep;
      }
      assert !Contains(s[..i], sep) by {
        forall j | OccursAt(s[..i], sep, j) ensures false {
          assert s[..i][j..j + |sep|] == s[j..j + |sep|];
          assert OccursAt(s, sep, j);
        }
      }
      Some((s[..i], s[i + |sep|..]))
  }

  // ---------------------------------------------------------------------------
  // Whitespace and stripping

  /** `c.isspace()` as Python defines it. */
  predicate IsSpace(c: char) {
    c == ' ' || c == '\t' || c == '\n' || c == '\r' || c == '\U{000B}' || c == '\U{000C}'
    || ('\U{001C}' <= c <= '\U{001F}') || c == '\U{0085}' || c == '\U{00A0}' || c == '\U{1680}'
    || ('\U{2000}' <= c <= '\U{200A}') || c == '\U{2028}' || c == '\U{2029}' || c == '\U{202F}'
    || c == '\U{205F}' || c == '\U{3000}'
  }

  /** `s.lstrip()`. */
  function LStrip(s: string): (r: string)
    ensures |r| <= |s| && r == s[|s| - |r|..]
    ensures r == [] || !IsSpace(r[0])
    ensures forall k :: 0 <= k < |s| - |r| ==> IsSpace(s[k])
    decreases |s|
  {
    if |s| > 0 && IsSpace(s[0]) then LStrip(s[1..]) else s
  }

  /** `s.rstrip()`. */
  function RStrip(s: string): (r: string)
    ensures |r| <= |s| && r == s[..|r|]
    ensures r == [] || !IsSpace(r[|r| - 1])
    decreases |s|
  {
    if |s| > 0 && IsSpace(s[|s| - 1]) then RStrip(s[..|s| - 1]) else s
  }

  /** `s.strip()`. */
  function Strip(s: string): string {
    RStrip(LStrip(s))
  }

  /** `s.lstrip(c)` for one character. */
  function LStripChar(s: string, c: char): (r: string)
    ensures |r| <= |s| && r == s[|s| - |r|..]
    ensures r == [] || r[0] != c
    decreases |s|
  {
    if |s| > 0 && s[0] == c then LStripChar(s[1..], c) else s
  }

  /** `s.rstrip(c)` for one character. */
  function RStripChar(s: string, c: char): (r: string)
    ensures |r| <= |s| && r == s[..|r|]
    ensures r == [] || r[|r| - 1] != c
    decreases |s|
  {
    if |s| > 0 && s[|s| - 1] == c then RStripChar(s[..|s| - 1], c) else s
  }

  /** `s.strip(c)` for one character. */
  function StripChar(s: string, c: char): (r: string)
    ensures r == [] || (r[0] != c && r[|r| - 1] != c)
  {
    RStripChar(LStripChar(s, c), c)
  }

  // ---------------------------------------------------------------------------
  // Decimal integers: str(n) and int(s)

  function DigitChar(d: nat): char
    requires d < 10
  {
    "0123456789"[d]
  }

  predicate IsDigit(c: char) {
    '0' <= c <= '9'
  }

  function DigitValue(c: char): (d: nat)
    requires IsDigit(c)
    ensures d < 10 && DigitChar(d) == c
  {
    (c as int - '0' as int) as nat
  }

  /** The decimal digits of a natural number, most significant first, no leading zeros. */
  function NatDigits(n: nat): (s: string)
    ensures |s| >= 1 && forall k :: 0 <= k < |s| ==> IsDigit(s[k])
    ensures |s| > 1 ==> s[0] != '0'
  {
    if n < 10 then [DigitChar(n)] else NatDigits(n / 10) + [DigitChar(n % 10)]
  }

  /** `str(n)` for an integer. */
  function IntToString(n: int): string {
    if n < 0 then "-" + NatDigits(-n) else NatDigits(n)
  }

  /** The value of a non-empty string of digits. */
  function DigitsValue(s: string): nat
    requires forall k :: 0 <= k < |s| ==> IsDigit(s[k])
  {
    if |s| == 0 then 0 else DigitsValue(s[..|s| - 1]) * 10 + DigitValue(s[|s| - 1])
  }

  predicate AllDigits(s: string) {
    |s| > 0 && forall k :: 0 <= k < |s| ==> IsDigit(s[k])
  }

  /**
   * `int(s)` for a string: surrounding whitespace, an optional sign and at
   * least one ASCII digit; anything else raises ValueError (None here).
   */
  function ParseInt(s: string): Option<int> {
    ParseStripped(Strip(s))
  }

  function ParseStripped(t: string): Option<int> {
    if |t| > 0 && (t[0] == '-' || t[0] == '+') then Signed(t[0], t[1..]) else Unsigned(t)
  }

  /** Digits alone. */
  function Unsigned(t: string): Option<int> {
    if AllDigits(t) then Some(DigitsValue(t)) else None
  }

  /** Digits after a sign. */
  function Signed(sign: char, t: string): Option<int> {
    match Unsigned(t)
    case None => None
    case Some(v) => Some(if sign == '-' then 0 - v else v)
  }

  lemma {:induction false} DigitsOfNat(n: nat)
    ensures DigitsValue(NatDigits(n)) == n
  {
    if n >= 10 {
      DigitsOfNat(n / 10);
      var s := NatDigits(n);
      var last := DigitChar(n % 10);
      assert s == NatDigits(n / 10) + [last];
      assert s[..|s| - 1] == NatDigits(n / 10) && s[|s| - 1] == last;
      assert DigitValue(last) == n % 10;
      assert DigitsValue(s) == (n / 10) * 10 + n % 10;
    }
  }

  /** Text with no space at either end is its own `strip()`. */
  lemma StripDigits(s: string)
    requires |s| > 0 && !IsSpace(s[0]) && !IsSpace(s[|s| - 1])
    ensures Strip(s) == s
  {
  }

  /** A string of digits parses to its value. */
  lemma ParseDigits(s: string)
    requires AllDigits(s)
    ensures ParseInt(s) == Some(DigitsValue(s) as int)
  {
    assert IsDigit(s[0]) && IsDigit(s[|s| - 1]);
    StripDigits(s);
  }

  /** A minus sign and a string of digits parse to minus its value. */
  lemma ParseSigned(t: string)
    requires |t| > 1 && t[0] == '-' && AllDigits(t[1..])
    ensures ParseInt(t) == Some(0 - DigitsValue(t[1..]) as int)
  {
    assert !IsSpace(t[0]);
    assert IsDigit(t[1..][|t| - 2]) && t[1..][|t| - 2] == t[|t| - 1];
    StripDigits(t);
    assert Unsigned(t[1..]) == Some(DigitsValue(t[1..]) as int);
  }

  /** `int(str(n)) == n`. */
  lemma ParseIntToString(n: int)
    ensures ParseInt(IntToString(n)) == Some(n)
  {
    var digits := NatDigits(if n < 0 then -n else n);
    DigitsOfNat(if n < 0 then -n else n);
    if n < 0 {
      assert ("-" + digits)[1..] == digits;
      ParseSigned("-" + digits);
    } else {
      ParseDigits(digits);
    }
  }

  // ---------------------------------------------------------------------------
  // UTF-8

  /** Number of bytes UTF-8 uses for one scalar value. */
  function Utf8Width(c: char): nat {
    if c as int < 0x80 then 1
    else if c as int < 0x800 then 2
    else if c as int < 0x10000 then 3
    else 4
  }

  /** The UTF-8 encoding of one scalar value. */
  function Utf8Char(c: char): (b: seq<byte>)
    ensures |b| == Utf8Width(c)
  {
    var n := c as int;
    if n < 0x80 then [n as byte]
    else if n < 0x800 then [(0xC0 + n / 0x40) as byte, (0x80 + n % 0x40) as byte]
    else if n < 0x10000 then
      [(0xE0 + n / 0x1000) as byte, (0x80 + (n / 0x40) % 0x40) as byte, (0x80 + n % 0x40) as byte]
    else
      [(0xF0 + n / 0x40000) as byte, (0x80 + (n / 0x1000) % 0x40) as byte,
       (0x80 + (n / 0x40) % 0x40) as byte, (0x80 + n % 0x40) as byte]
  }

  /** `bytes(s, 'utf8')`. */
  function Utf8(s: string): seq<byte>
    decreases |s|
  {
    if |s| == 0 then [] else Utf8Char(s[0]) + Utf8(s[1..])
  }

  /** Sum of the UTF-8 widths of the characters of `s`. */
  function Utf8Length(s: string): nat
    decreases |s|
  {
    if |s| == 0 then 0 else Utf8Width(s[0]) + Utf8Length(s[1..])
  }

  lemma {:induction false} Utf8HasLength(s: string)
    ensures |Utf8(s)| == Utf8Length(s)
  {
    if |s| > 0 {
      Utf8HasLength(s[1..]);
    }
  }

  /** ASCII text encodes to one byte per character. */
  lemma {:induction false} Utf8Ascii(s: string)
    requires forall k :: 0 <= k < |s| ==> s[k] as int < 0x80
    ensures Utf8Length(s) == |s|
  {
    if |s| > 0 {
      Utf8Ascii(s[1..]);
    }
  }

  // ---------------------------------------------------------------------------
  // Paths

  /** `os.path.join(a, b)` on POSIX: an absolute second part replaces the first. */
  function PathJoin(a: string, b: string): string {
    if StartsWith(b, "/") then b
    else if a == "" || EndsWith(a, "/") then a + b
    else a + "/" + b
  }

  /**
   * `head::tail` becomes the local root of `head` joined with `tail`: the
   * conversion of node/node.py lines 78-81 and bin/rfam.py lines 103-106.
   */
  function ToLocal(paths: map<string, string>, path: string): Outcome<string> {
    match SplitOnce(path, "::")
    case None => Raise(ValueError)
    case Some((head, tail)) => if head in paths then Ok(PathJoin(paths[head], tail)) else Raise(KeyError)
  }

  /**
   * The path splits at its first `::`; a path without one
   * fails to unpack (ValueError) and an unknown head is a KeyError.
   */
  lemma ToLocalFacts(paths: map<string, string>, head: string, tail: string)
    requires ':' !in head
    ensures ToLocal(paths, head + "::" + tail) ==
      if head in paths then Ok(PathJoin(paths[head], tail)) else Raise(KeyError)
    ensures !Contains(head, "::") ==> ToLocal(paths, head) == Raise(ValueError)
  {
    var path := head + "::" + tail;
    assert OccursAt(path, "::", |head|) by {
      assert path[|head|..|head| + 2] == "::";
    }
    forall j | 0 <= j < |head| ensures !OccursAt(path, "::", j) {
      assert path[j..j + 2][0] == path[j] == head[j] != ':';
    }
    var r := Find(path, "::");
    assert r == |head|;
    assert path[..r] == head && path[r + 2..] == tail;
  }

  /** A relative tail lands under the local root. */
  lemma PathJoinUnder(a: string, b: string)
    requires !StartsWith(b, "/")
    ensures StartsWith(PathJoin(a, b), a) && EndsWith(PathJoin(a, b), b)
  {
    var r := PathJoin(a, b);
    if a == "" || EndsWith(a, "/") {
      assert r == a + b;
      assert r[..|a|] == a && r[|r| - |b|..] == b;
    } else {
      assert r == a + "/" + b;
      assert r[..|a|] == a && r[|r| - |b|..] == b;
    }
  }
}
