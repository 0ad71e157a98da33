/** String primitives of JavaScript that the program relies on: whitespace
    and `trim`, `split`/`join` on a one-character separator, ASCII case
    mapping, `includes`, decimal rendering of integers, UTF-16 code units and
    the code-unit ordering that `<` uses on strings. */
module Text {

  /** The characters matched by `\s` in a JavaScript regular expression,
      which are also the ones `String.prototype.trim` removes. */
  predicate IsSpace(c: char) {
    var n := c as int;
    n == 0x09 || n == 0x0A || n == 0x0B || n == 0x0C || n == 0x0D || n == 0x20
    || n == 0xA0 || n == 0x1680 || (0x2000 <= n <= 0x200A)
    || n == 0x2028 || n == 0x2029 || n == 0x202F || n == 0x205F
    || n == 0x3000 || n == 0xFEFF
  }

  predicate IsAsciiDigit(c: char) {
    '0' <= c <= '9'
  }

  predicate IsAsciiUpper(c: char) {
    'A' <= c <= 'Z'
  }

  // ---------------------------------------------------------------- trim

  function TrimStart(s: string): (r: string)
    ensures |r| <= |s| && r == s[|s| - |r|..]
    ensures |r| > 0 ==> !IsSpace(r[0])
    ensures forall i :: 0 <= i < |s| - |r| ==> IsSpace(s[i])
  {
    if |s| > 0 && IsSpace(s[0]) then TrimStart(s[1..]) else s
  }

  function TrimEnd(s: string): (r: string)
    ensures |r| <= |s| && r == s[..|r|]
    ensures |r| > 0 ==> !IsSpace(r[|r| - 1])
    ensures forall i :: |r| <= i < |s| ==> IsSpace(s[i])
  {
    if |s| > 0 && IsSpace(s[|s| - 1]) then TrimEnd(s[..|s| - 1]) else s
  }

  /** `r` occurs in `s` at offset `i`. */
  predicate SliceAt(s: string, r: string, i: int) {
    0 <= i <= |s| - |r| && s[i..i + |r|] == r
  }

  /** `r` occurs in `s` at offset `i`, with only whitespace before and after it. */
  predicate TrimmedAt(s: string, r: string, i: int) {
    && SliceAt(s, r, i)
    && (forall k :: 0 <= k < i ==> IsSpace(s[k]))
    && (forall k :: i + |r| <= k < |s| ==> IsSpace(s[k]))
  }

  /** `s.trim()`: drops leading and trailing whitespace. */
  function Trim(s: string): (r: string)
    ensures |r| > 0 ==> !IsSpace(r[0]) && !IsSpace(r[|r| - 1])
    ensures exists i :: TrimmedAt(s, r, i)
  {
    var t := TrimStart(s);
    var r := TrimEnd(t);
    TrimLocates(s, t, r);
    r
  }

  /** The trimmed string sits in `s` after the leading blanks, and only
      blanks follow it; stated over the guarantees of TrimStart and TrimEnd. */
  lemma TrimLocates(s: string, t: string, r: string)
    requires |t| <= |s| && t == s[|s| - |t|..]
    requires |t| > 0 ==> !IsSpace(t[0])
    requires forall k :: 0 <= k < |s| - |t| ==> IsSpace(s[k])
    requires |r| <= |t| && r == t[..|r|]
    requires |r| > 0 ==> !IsSpace(r[|r| - 1])
    requires forall k :: |r| <= k < |t| ==> IsSpace(t[k])
    ensures |r| > 0 ==> !IsSpace(r[0]) && !IsSpace(r[|r| - 1])
    ensures TrimmedAt(s, r, |s| - |t|)
  {
    var i := |s| - |t|;
    if |r| > 0 {
      assert r[0] == t[0];
    }
    PrefixSlice(s, t, r, i);
    TrailingBlanks(s, t, r, i);
  }

  lemma PrefixSlice(s: string, t: string, r: string, i: int)
    requires 0 <= i <= |s| && t == s[i..] && |r| <= |t| && r == t[..|r|]
    ensures SliceAt(s, r, i)
  {
    assert s[i..i + |r|] == s[i..][..|r|];
  }

  lemma TrailingBlanks(s: string, t: string, r: string, i: int)
    requires 0 <= i <= |s| && t == s[i..] && |r| <= |t|
    requires forall k :: |r| <= k < |t| ==> IsSpace(t[k])
    ensures forall k :: i + |r| <= k < |s| ==> IsSpace(s[k])
  {
    forall k | i + |r| <= k < |s|
      ensures IsSpace(s[k])
    {
      assert s[k] == t[k - i];
    }
  }

  // ---------------------------------------------------------- split/join

  /** Index of the first occurrence of `c` in `s`. */
  function IndexOf(s: string, c: char): (i: nat)
    requires c in s
    ensures i < |s| && s[i] == c && c !in s[..i]
  {
    if s[0] == c then 0 else 1 + IndexOf(s[1..], c)
  }

  /** `s.split(c)` for a one-character separator: the maximal pieces between
      separators, always at least one (possibly empty) piece. */
  function Split(s: string, c: char): (parts: seq<string>)
    ensures |parts| >= 1
    ensures forall k :: 0 <= k < |parts| ==> c !in parts[k]
    decreases |s|
  {
    if c !in s then [s]
    else
      var i := IndexOf(s, c);
      [s[..i]] + Split(s[i + 1..], c)
  }

  /** `parts.join(c)`. */
  function Join(parts: seq<string>, c: char): (s: string)
  {
    if |parts| == 0 then ""
    else if |parts| == 1 then parts[0]
    else parts[0] + [c] + Join(parts[1..], c)
  }

  /** Joining the pieces of a split gives back the original string. */
  lemma {:induction false} JoinSplit(s: string, c: char)
    ensures Join(Split(s, c), c) == s
    decreases |s|
  {
    if c in s {
      var i := IndexOf(s, c);
      var rest := Split(s[i + 1..], c);
      JoinSplit(s[i + 1..], c);
      assert Split(s, c) == [s[..i]] + rest;
      assert (([s[..i]] + rest)[1..]) == rest;
      assert s == s[..i] + [c] + s[i + 1..];
    }
  }

  /** A separator-free head followed by the separator splits off as the
      first piece. */
  lemma SplitAtHead(head: string, c: char, tail: string)
    requires c !in head
    ensures Split(head + [c] + tail, c) == [head] + Split(tail, c)
  {
    var s := head + [c] + tail;
    assert s[|head|] == c;
    var i := IndexOf(s, c);
    assert s[..|head|] == head;
    assert i == |head| by {
      assert i <= |head|;
      assert forall k :: 0 <= k < |head| ==> s[k] == head[k];
    }
    assert s[i + 1..] == tail;
  }

  /** Splitting a join of separator-free pieces gives back the pieces. */
  lemma {:induction false} SplitJoin(parts: seq<string>, c: char)
    requires |parts| >= 1
    requires forall k :: 0 <= k < |parts| ==> c !in parts[k]
    ensures Split(Join(parts, c), c) == parts
  {
    if |parts| > 1 {
      var tail := Join(parts[1..], c);
      assert Join(parts, c) == parts[0] + [c] + tail;
      SplitAtHead(parts[0], c, tail);
      SplitJoin(parts[1..], c);
      assert parts == [parts[0]] + parts[1..];
    }
  }

  /** The text before the first `c`, or all of `s`. */
  function Before(s: string, c: char): (r: string)
    ensures c !in r
    ensures r == Split(s, c)[0]
  {
    if c in s then s[..IndexOf(s, c)] else s
  }

  /** The text after the first `c`, or "" when there is none. */
  function After(s: string, c: char): (r: string)
    ensures c in s ==> s == Before(s, c) + [c] + r
    ensures c !in s ==> r == ""
  {
    if c in s then s[IndexOf(s, c) + 1..] else ""
  }

  /** `const [k, ...rest] = s.split(c); rest.join(c)` is everything after the
      first separator, later separators preserved. */
  lemma RestJoin(s: string, c: char)
    ensures Join(Split(s, c)[1..], c) == After(s, c)
  {
    if c in s {
      var i := IndexOf(s, c);
      var rest := Split(s[i + 1..], c);
      assert Split(s, c) == [s[..i]] + rest;
      assert ([s[..i]] + rest)[1..] == rest;
      JoinSplit(s[i + 1..], c);
      assert After(s, c) == s[i + 1..];
    } else {
      assert Split(s, c) == [s];
    }
  }

  // ---------------------------------------------------------- ASCII case

  function LowerChar(c: char): (d: char)
    ensures IsAsciiUpper(c) ==> d as int == c as int + 32
    ensures !IsAsciiUpper(c) ==> d == c
  {
    if IsAsciiUpper(c) then (c as int + 32) as char else c
  }

  function UpperChar(c: char): (d: char)
    ensures 'a' <= c <= 'z' ==> d as int == c as int - 32
    ensures !('a' <= c <= 'z') ==> d == c
  {
    if 'a' <= c <= 'z' then (c as int - 32) as char else c
  }

  /** `toLowerCase` restricted to ASCII letters. */
  function Lower(s: string): (r: string)
    ensures |r| == |s|
    ensures forall i :: 0 <= i < |s| ==> r[i] == LowerChar(s[i])
  {
    seq(|s|, i requires 0 <= i < |s| => LowerChar(s[i]))
  }

  /** `toUpperCase` restricted to ASCII letters. */
  function Upper(s: string): (r: string)
    ensures |r| == |s|
    ensures forall i :: 0 <= i < |s| ==> r[i] == UpperChar(s[i])
  {
    seq(|s|, i requires 0 <= i < |s| => UpperChar(s[i]))
  }

  // ------------------------------------------------------------ includes

  /** `s.includes(q)`. */
  predicate Includes(s: string, q: string) {
    exists i :: 0 <= i <= |s| - |q| && SliceAt(s, q, i)
  }

  // ------------------------------------------------------------- decimal

  function DigitChar(d: nat): (c: char)
    requires d < 10
    ensures IsAsciiDigit(c)
  {
    ('0' as int + d) as char
  }

  function DigitValue(c: char): (d: nat)
    requires IsAsciiDigit(c)
    ensures d < 10 && DigitChar(d) == c
  {
    c as int - '0' as int
  }

  /** Decimal digits of a natural number, no leading zeros. */
  function NatDecimal(n: nat): (s: string)
    ensures |s| >= 1
    ensures forall i :: 0 <= i < |s| ==> IsAsciiDigit(s[i])
    ensures |s| > 1 ==> s[0] != '0'
  {
    if n < 10 then [DigitChar(n)] else NatDecimal(n / 10) + [DigitChar(n % 10)]
  }

  /** Reads a string of ASCII digits back as a number. */
  function ParseDigits(s: string): nat
    requires forall i :: 0 <= i < |s| ==> IsAsciiDigit(s[i])
  {
    if |s| == 0 then 0 else 10 * ParseDigits(s[..|s| - 1]) + DigitValue(s[|s| - 1])
  }

  lemma {:induction false} ParseNatDecimal(n: nat)
    ensures ParseDigits(NatDecimal(n)) == n
  {
    if n >= 10 {
      var s := NatDecimal(n);
      assert s[..|s| - 1] == NatDecimal(n / 10);
      ParseNatDecimal(n / 10);
    }
  }

  /** `String(n)` for an integer-valued number. */
  function Decimal(n: int): (s: string)
    ensures n >= 0 ==> s == NatDecimal(n)
    ensures n < 0 ==> s == "-" + NatDecimal(-n)
  {
    if n < 0 then "-" + NatDecimal(-n) else NatDecimal(n)
  }

  /** Distinct integers render to distinct decimal strings. */
  lemma DecimalInjective(m: int, n: int)
    requires Decimal(m) == Decimal(n)
    ensures m == n
  {
    var dm, dn := Decimal(m), Decimal(n);
    assert (dm[0] == '-') == (m < 0);
    assert (dn[0] == '-') == (n < 0);
    var um: nat := if m < 0 then -m else m;
    var un: nat := if n < 0 then -n else n;
    var sm := NatDecimal(um);
    var sn := NatDecimal(un);
    if m < 0 {
      assert sm == dm[1..] == dn[1..] == sn;
    } else {
      assert sm == dm == dn == sn;
    }
    ParseNatDecimal(um);
    ParseNatDecimal(un);
  }

  // ------------------------------------------------------------- UTF-16

  /** The UTF-16 code units of one character: one unit for the Basic
      Multilingual Plane, a surrogate pair above it. */
  function CharUnits(c: char): (us: seq<int>)
    ensures 1 <= |us| <= 2
    ensures forall k :: 0 <= k < |us| ==> 0 <= us[k] < 0x10000
    ensures c as int < 0x10000 <==> |us| == 1
  {
    var n := c as int;
    if n < 0x10000 then [n]
    else
      var v := n - 0x10000;
      [0xD800 + v / 0x400, 0xDC00 + v % 0x400]
  }

  /** The values `charCodeAt(i)` returns for i = 0 .. length - 1. */
  function CodeUnits(s: string): (us: seq<int>)
    ensures |us| >= |s|
    ensures forall k :: 0 <= k < |us| ==> 0 <= us[k] < 0x10000
  {
    if |s| == 0 then [] else CodeUnits(s[..|s| - 1]) + CharUnits(s[|s| - 1])
  }

  // ------------------------------------------------------ string order

  /** Lexicographic order on code-unit sequences; a proper prefix comes first. */
  predicate UnitsLess(a: seq<int>, b: seq<int>)
    decreases |a|
  {
    if |a| == 0 then |b| > 0
    else if |b| == 0 then false
    else if a[0] != b[0] then a[0] < b[0]
    else UnitsLess(a[1..], b[1..])
  }

  /** `a < b` on JavaScript strings: comparison of UTF-16 code units. */
  predicate StringLess(a: string, b: string) {
    UnitsLess(CodeUnits(a), CodeUnits(b))
  }

  lemma {:induction false} UnitsLessTotal(a: seq<int>, b: seq<int>)
    ensures a == b || UnitsLess(a, b) || UnitsLess(b, a)
    ensures !(UnitsLess(a, b) && UnitsLess(b, a))
    ensures !UnitsLess(a, a)
    decreases |a|
  {
    if |a| > 0 && |b| > 0 && a[0] == b[0] {
      UnitsLessTotal(a[1..], b[1..]);
      if a[1..] == b[1..] {
        assert a == [a[0]] + a[1..] && b == [b[0]] + b[1..];
      }
    }
    if |a| > 0 {
      UnitsLessTotal(a[1..], a[1..]);
    }
  }

  lemma {:induction false} UnitsLessTransitive(a: seq<int>, b: seq<int>, c: seq<int>)
    requires UnitsLess(a, b) && UnitsLess(b, c)
    ensures UnitsLess(a, c)
    decreases |a|
  {
    if |a| > 0 && a[0] == b[0] && b[0] == c[0] {
      UnitsLessTransitive(a[1..], b[1..], c[1..]);
    }
  }
}
