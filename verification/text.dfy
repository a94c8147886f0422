/** The JavaScript string operations the infoscreen relies on, over `seq<char>`:
    whitespace, `trim`, case mapping, `includes`/`startsWith`/`endsWith`,
    `split` on one character, number-to-text and the two text-to-number
    conversions `parseInt(s, 10)` and `Number(s)`. */
module JsText {
  import opened Base

  // ---------------------------------------------------------------------------
  // Characters
  // ---------------------------------------------------------------------------

  /** The ECMAScript WhiteSpace and LineTerminator code points: exactly what
      `String.prototype.trim` removes and what the regular-expression class `\s`
      matches. */
  predicate IsSpace(c: char) {
    || c == '\t' || c == '\n' || c == '\U{B}' || c == '\U{C}' || c == '\r' || c == ' '
    || c == '\U{A0}' || c == '\U{1680}' || ('\U{2000}' <= c <= '\U{200A}')
    || c == '\U{2028}' || c == '\U{2029}' || c == '\U{202F}' || c == '\U{205F}'
    || c == '\U{3000}' || c == '\U{FEFF}'
  }

  /** The regular-expression class `\d`: ASCII digits only. */
  predicate IsDigit(c: char) {
    '0' <= c <= '9'
  }

  predicate AllSpace(s: string) {
    forall i :: 0 <= i < |s| ==> IsSpace(s[i])
  }

  predicate AllDigits(s: string) {
    forall i :: 0 <= i < |s| ==> IsDigit(s[i])
  }

  /** `toLowerCase` on one character: ASCII and the Latin-1 capitals
      (U+00C0..U+00DE except the multiplication sign); every other character
      is left as it is. */
  function LowerChar(c: char): char {
    if 'A' <= c <= 'Z' || ('\U{C0}' <= c <= '\U{DE}' && c != '\U{D7}') then
      (c as int + 32) as char
    else
      c
  }

  /** `toUpperCase` on one character, ASCII letters only. */
  function UpperChar(c: char): char {
    if 'a' <= c <= 'z' then (c as int - 32) as char else c
  }

  // ---------------------------------------------------------------------------
  // Case mapping
  // ---------------------------------------------------------------------------

  function Lower(s: string): (r: string)
    ensures |r| == |s|
    ensures forall i :: 0 <= i < |s| ==> r[i] == LowerChar(s[i])
  {
    if s == [] then [] else [LowerChar(s[0])] + Lower(s[1..])
  }

  /** Lowercasing works character by character. */
  lemma LowerAppend(a: string, b: string)
    ensures Lower(a + b) == Lower(a) + Lower(b)
  {
    assert forall i :: 0 <= i < |a + b| ==> Lower(a + b)[i] == (Lower(a) + Lower(b))[i];
  }

  /** Lowercasing twice is lowercasing once. */
  lemma LowerIdempotent(s: string)
    ensures Lower(Lower(s)) == Lower(s)
  {
  }

  function Upper(s: string): (r: string)
    ensures |r| == |s|
    ensures forall i :: 0 <= i < |s| ==> r[i] == UpperChar(s[i])
  {
    if s == [] then [] else [UpperChar(s[0])] + Upper(s[1..])
  }

  // ---------------------------------------------------------------------------
  // Trimming
  // ---------------------------------------------------------------------------

  /** Drops leading whitespace: what is kept does not start with whitespace;
      `TrimStartDrops` shows that what is dropped is a whitespace prefix. */
  function TrimStart(s: string): (r: string)
    ensures |r| <= |s|
    ensures r == [] || !IsSpace(r[0])
  {
    if s != [] && IsSpace(s[0]) then TrimStart(s[1..]) else s
  }

  /** What `trimStart` drops is a prefix of whitespace and what it keeps is
      the rest of the text. */
  lemma {:induction false} TrimStartDrops(s: string)
    ensures var r := TrimStart(s);
      s == s[..|s| - |r|] + r && AllSpace(s[..|s| - |r|])
  {
    if s != [] && IsSpace(s[0]) {
      var t := s[1..];
      var r := TrimStart(t);
      assert TrimStart(s) == r;
      TrimStartDrops(t);
      var p := t[..|t| - |r|];
      assert s[..|s| - |r|] == [s[0]] + p;
      SpaceCons(s[0], p);
      assert s == [s[0]] + t;
    } else {
      assert s[..0] == [];
    }
  }

  /** A whitespace character in front of blanks gives blanks. */
  lemma SpaceCons(c: char, p: string)
    requires IsSpace(c) && AllSpace(p)
    ensures AllSpace([c] + p)
  {
    assert forall i :: 0 < i < |[c] + p| ==> ([c] + p)[i] == p[i - 1];
  }

  /** Drops trailing whitespace. */
  function TrimEnd(s: string): (r: string)
    ensures |r| <= |s| && r == s[..|r|]
    ensures AllSpace(s[|r|..])
    ensures r == [] || !IsSpace(r[|r| - 1])
  {
    if s != [] && IsSpace(s[|s| - 1]) then
      var r := TrimEnd(s[..|s| - 1]);
      assert s[|r|..] == s[..|s| - 1][|r|..] + [s[|s| - 1]];
      r
    else
      s
  }

  /** `String.prototype.trim`. */
  function Trim(s: string): (r: string)
    ensures |r| <= |s|
    ensures r == [] || (!IsSpace(r[0]) && !IsSpace(r[|r| - 1]))
    ensures r == [] <==> AllSpace(s)
  {
    var t := TrimStart(s);
    var r := TrimEnd(t);
    TrimStartDrops(s);
    r
  }

  /** Leading whitespace in front of a text that starts with a non-space is
      exactly what `trimStart` drops. */
  lemma {:induction false} TrimStartSkips(a: string, b: string)
    requires AllSpace(a)
    requires b == [] || !IsSpace(b[0])
    ensures TrimStart(a + b) == b
  {
    if a == [] {
      assert a + b == b;
    } else {
      assert (a + b)[1..] == a[1..] + b;
      TrimStartSkips(a[1..], b);
    }
  }

  /** Trailing whitespace behind a text that ends in a non-space is exactly
      what `trimEnd` drops. */
  lemma {:induction false} TrimEndSkips(a: string, b: string)
    requires AllSpace(b)
    requires a == [] || !IsSpace(a[|a| - 1])
    ensures TrimEnd(a + b) == a
  {
    if b == [] {
      assert a + b == a;
    } else {
      assert (a + b)[..|a + b| - 1] == a + b[..|b| - 1];
      TrimEndSkips(a, b[..|b| - 1]);
    }
  }

  /** A string without surrounding whitespace is its own trim. */
  lemma TrimOfTrimmed(s: string)
    requires s == [] || (!IsSpace(s[0]) && !IsSpace(s[|s| - 1]))
    ensures Trim(s) == s
  {
  }

  // ---------------------------------------------------------------------------
  // Searching
  // ---------------------------------------------------------------------------

  predicate StartsWith(s: string, p: string) {
    |p| <= |s| && s[..|p|] == p
  }

  predicate EndsWith(s: string, p: string) {
    |p| <= |s| && s[|s| - |p|..] == p
  }

  /** `s.includes(p)`: `p` occurs at some position of `s`. */
  predicate Contains(s: string, p: string)
    decreases |s|
  {
    StartsWith(s, p) || (s != [] && Contains(s[1..], p))
  }

  /** A pattern holding a character the text lacks does not occur in it. */
  lemma {:induction false} MissingCharNotContained(s: string, p: string, c: char)
    requires c in p && c !in s
    ensures !Contains(s, p)
    decreases |s|
  {
    if s != [] {
      MissingCharNotContained(s[1..], p, c);
    }
  }

  /** An occurrence of a longer pattern is an occurrence of each of its prefixes. */
  lemma {:induction false} ContainsPrefixOf(s: string, p: string, q: string)
    requires Contains(s, p + q)
    ensures Contains(s, p)
    decreases |s|
  {
    if StartsWith(s, p + q) {
      assert s[..|p|] == (p + q)[..|p|];
    } else {
      ContainsPrefixOf(s[1..], p, q);
    }
  }

  /** A string contains whatever is placed inside it. */
  lemma {:induction false} ContainsInfix(a: string, p: string, b: string)
    ensures Contains(a + p + b, p)
    decreases |a|
  {
    if a == [] {
      assert (a + p + b)[..|p|] == p;
    } else {
      assert (a + p + b)[1..] == a[1..] + p + b;
      ContainsInfix(a[1..], p, b);
    }
  }

  /** An occurrence in `h + s` lies in `s` unless it starts at the head's
      first character: here no later character of `h` can start the pattern
      and none starts at the first. */
  lemma {:induction false} NotContainsAfterHead(h: string, s: string, p: string)
    requires p != []
    requires forall i :: 0 < i < |h| ==> h[i] != p[0]
    requires h != [] ==> !StartsWith(h + s, p)
    requires !Contains(s, p)
    ensures !Contains(h + s, p)
    decreases |h|
  {
    if h == [] {
      assert h + s == s;
    } else {
      var t := h[1..];
      assert (h + s)[1..] == t + s;
      if t != [] {
        assert (t + s)[0] == h[1];
        if |p| <= |t + s| {
          assert (t + s)[..|p|][0] != p[0];
        }
      }
      NotContainsAfterHead(t, s, p);
      assert !Contains((h + s)[1..], p);
    }
  }

  /** Position of the first occurrence of `c`, or `|s|` when there is none. */
  function IndexOf(s: string, c: char): (r: nat)
    ensures r <= |s|
    ensures r < |s| ==> s[r] == c
    ensures forall k :: 0 <= k < r ==> s[k] != c
    ensures r == |s| <==> c !in s
  {
    if s == [] then 0
    else if s[0] == c then 0
    else 1 + IndexOf(s[1..], c)
  }

  /** JavaScript's `||` on two strings: the first unless it is empty. */
  function OrElse(a: string, b: string): string {
    if a != [] then a else b
  }

  // ---------------------------------------------------------------------------
  // Splitting on one character
  // ---------------------------------------------------------------------------

  /** `s.split(sep)` for a one-character separator: always at least one part,
      no part contains the separator. */
  function Split(s: string, sep: char): (parts: seq<string>)
    ensures |parts| >= 1
    ensures forall k :: 0 <= k < |parts| ==> sep !in parts[k]
  {
    if s == [] then
      [[]]
    else
      var rest := Split(s[1..], sep);
      if s[0] == sep then [[]] + rest else [[s[0]] + rest[0]] + rest[1..]
  }

  /** `parts.join(sep)`. */
  function Join(parts: seq<string>, sep: char): string
    requires |parts| >= 1
  {
    if |parts| == 1 then parts[0] else parts[0] + [sep] + Join(parts[1..], sep)
  }

  /** Splitting loses nothing: joining the parts back gives the input. */
  lemma {:induction false} JoinSplit(s: string, sep: char)
    ensures Join(Split(s, sep), sep) == s
  {
    if s != [] {
      var rest := Split(s[1..], sep);
      JoinSplit(s[1..], sep);
      if s[0] != sep {
        if |rest| == 1 {
        } else {
          assert Split(s, sep)[1..] == rest[1..];
        }
      }
    }
  }

  /** The first part is the text before the first separator, and the
      remaining parts are the split of the text after it. */
  lemma {:induction false} SplitAtFirst(s: string, sep: char)
    ensures Split(s, sep)[0] == s[..IndexOf(s, sep)]
    ensures IndexOf(s, sep) == |s| ==> |Split(s, sep)| == 1
    ensures IndexOf(s, sep) < |s| ==> Split(s, sep)[1..] == Split(s[IndexOf(s, sep) + 1..], sep)
  {
    if s != [] && s[0] != sep {
      SplitAtFirst(s[1..], sep);
      if IndexOf(s, sep) < |s| {
        assert s[1..][IndexOf(s[1..], sep) + 1..] == s[IndexOf(s, sep) + 1..];
      }
    }
  }

  /** A part free of the separator, followed by the separator, splits off as
      the first part. */
  lemma {:induction false} SplitAfterPart(a: string, sep: char, rest: string)
    requires sep !in a
    ensures Split(a + [sep] + rest, sep) == [a] + Split(rest, sep)
  {
    if a != [] {
      assert (a + [sep] + rest)[1..] == a[1..] + [sep] + rest;
      SplitAfterPart(a[1..], sep, rest);
      assert a == [a[0]] + a[1..];
    }
  }

  /** Three separator-free parts joined by the separator split back into
      the three parts. */
  lemma SplitThree(a: string, b: string, c: string, sep: char)
    requires sep !in a && sep !in b && sep !in c
    ensures Split(a + [sep] + b + [sep] + c, sep) == [a, b, c]
  {
    assert a + [sep] + b + [sep] + c == a + [sep] + (b + [sep] + c);
    SplitAfterPart(a, sep, b + [sep] + c);
    SplitAfterPart(b, sep, c);
    SplitWithoutSeparator(c, sep);
  }

  /** Text without the separator is a single part. */
  lemma {:induction false} SplitWithoutSeparator(a: string, sep: char)
    requires sep !in a
    ensures Split(a, sep) == [a]
  {
    if a != [] {
      SplitWithoutSeparator(a[1..], sep);
      assert a == [a[0]] + a[1..];
    }
  }

  // ---------------------------------------------------------------------------
  // Numbers to text
  // ---------------------------------------------------------------------------

  function DigitChar(d: nat): (c: char)
    requires d < 10
    ensures IsDigit(c)
  {
    ('0' as int + d) as char
  }

  function DigitOf(c: char): nat
    requires IsDigit(c)
  {
    c as int - '0' as int
  }

  /** Decimal text of a natural number, no leading zeros: `String(n)`. */
  function NatToString(n: nat): (r: string)
    ensures |r| >= 1 && AllDigits(r)
    ensures n >= 10 ==> r[0] != '0'
    ensures r[0] == '0' ==> r == "0"
    ensures n < 10 <==> |r| == 1
    ensures n < 100 ==> |r| <= 2
    decreases n
  {
    if n < 10 then [DigitChar(n)] else NatToString(n / 10) + [DigitChar(n % 10)]
  }

  /** `String(n)` for an integer: a minus sign for negative values. */
  function IntToString(n: int): string {
    if n < 0 then "-" + NatToString(-n) else NatToString(n)
  }

  /** `n.toString().padStart(2, '0')`. */
  function Pad2(n: nat): (r: string)
    ensures |r| >= 2
    ensures AllDigits(r)
    ensures n < 100 ==> |r| == 2
    ensures |r| == 2 || r[0] != '0'
  {
    if n < 10 then "0" + NatToString(n) else NatToString(n)
  }

  // ---------------------------------------------------------------------------
  // Text to numbers
  // ---------------------------------------------------------------------------

  /** Value of a run of decimal digits, most significant first. */
  function DigitsValue(s: string): nat
    requires AllDigits(s)
  {
    if s == [] then 0 else DigitsValue(s[..|s| - 1]) * 10 + DigitOf(s[|s| - 1])
  }

  function Pow10(n: nat): (r: nat)
    ensures r >= 1
  {
    if n == 0 then 1 else 10 * Pow10(n - 1)
  }

  /** Digit text and value agree: reading back the decimal text of `n` gives `n`. */
  lemma {:induction false} DigitsValueOfNatToString(n: nat)
    ensures DigitsValue(NatToString(n)) == n
    decreases n
  {
    if n >= 10 {
      var s := NatToString(n);
      assert s[..|s| - 1] == NatToString(n / 10);
      DigitsValueOfNatToString(n / 10);
    }
  }

  /** The longest prefix made of digits. */
  function LeadingDigits(s: string): (r: string)
    ensures AllDigits(r)
    ensures |r| <= |s| && r == s[..|r|]
    ensures |r| == |s| || !IsDigit(s[|r|])
  {
    if s != [] && IsDigit(s[0]) then [s[0]] + LeadingDigits(s[1..]) else []
  }

  /** `parseInt(s, 10)`: leading whitespace, an optional sign, then the longest
      run of digits; `None` is `NaN` (no digit at all). */
  function ParseInt(s: string): (r: Option<int>)
    ensures r.None? <==> LeadingDigits(Unsigned(TrimStart(s))) == []
  {
    var t := TrimStart(s);
    var ds := LeadingDigits(Unsigned(t));
    var v: int := if ds == [] then 0 else DigitsValue(ds);
    if ds == [] then None
    else if t[0] == '-' then Some(-v)
    else Some(v)
  }

  /** The text after an optional leading sign. */
  function Unsigned(t: string): (r: string)
    ensures |r| <= |t|
  {
    if t != [] && (t[0] == '-' || t[0] == '+') then t[1..] else t
  }

  /** `parseInt` reads back what `String` wrote. */
  lemma ParseIntOfNatToString(n: nat)
    ensures ParseInt(NatToString(n)) == Some(n)
  {
    ParseIntOfDigits(NatToString(n));
    DigitsValueOfNatToString(n);
  }

  /** The digit run ends where a non-digit starts. */
  lemma {:induction false} LeadingDigitsStop(ds: string, rest: string)
    requires AllDigits(ds)
    requires rest == [] || !IsDigit(rest[0])
    ensures LeadingDigits(ds + rest) == ds
  {
    if ds == [] {
      assert ds + rest == rest;
    } else {
      assert (ds + rest)[1..] == ds[1..] + rest;
      LeadingDigitsStop(ds[1..], rest);
      assert ds == [ds[0]] + ds[1..];
    }
  }

  /** `parseInt` of a number's text followed by anything that does not
      start with a digit reads the number. */
  lemma ParseIntOfNatPrefix(n: nat, rest: string)
    requires rest == [] || !IsDigit(rest[0])
    ensures ParseInt(NatToString(n) + rest) == Some(n)
  {
    var s := NatToString(n) + rest;
    assert !IsSpace(s[0]) && s[0] != '-' && s[0] != '+' by { assert IsDigit(s[0]); }
    assert TrimStart(s) == s;
    assert Unsigned(s) == s;
    LeadingDigitsStop(NatToString(n), rest);
    DigitsValueOfNatToString(n);
  }

  /** A non-empty run of digits reads as its value. */
  lemma ParseIntOfDigits(s: string)
    requires s != [] && AllDigits(s)
    ensures ParseInt(s) == Some(DigitsValue(s))
  {
    var c := s[0];
    assert IsDigit(c);
    assert !IsSpace(c) && c != '-' && c != '+';
    assert TrimStart(s) == s;
    assert Unsigned(s) == s;
    LeadingDigitsOfDigits(s);
  }

  lemma {:induction false} LeadingDigitsOfDigits(s: string)
    requires AllDigits(s)
    ensures LeadingDigits(s) == s
  {
    if s != [] {
      LeadingDigitsOfDigits(s[1..]);
    }
  }

  /** The result of `Number(s)`. */
  datatype NumValue = NaN | PosInf | NegInf | Finite(r: real)

  /** A decimal literal `digits[.digits]`, `digits.` or `.digits` (at least one
      digit in all) and its exact value. */
  function DecimalLiteral(s: string): (r: Option<real>)
    ensures r.Some? ==> r.value >= 0.0
  {
    var ip := LeadingDigits(s);
    var rest := s[|ip|..];
    if rest == [] then
      (if ip == [] then None else Some(DigitsValue(ip) as real))
    else if rest[0] == '.' && AllDigits(rest[1..]) && (ip != [] || |rest| > 1) then
      Some(DigitsValue(ip) as real + DigitsValue(rest[1..]) as real / Pow10(|rest| - 1) as real)
    else
      None
  }

  /** `Number(s)` for a string: surrounding whitespace is ignored, the empty
      string is 0, an optionally signed `Infinity` or decimal literal is read,
      everything else is `NaN`. */
  function NumberOf(s: string): (r: NumValue)
    ensures AllSpace(s) ==> r == Finite(0.0)
  {
    var t := Trim(s);
    if t == [] then Finite(0.0)
    else
      var neg := t[0] == '-';
      var body := Unsigned(t);
      if body == "Infinity" then (if neg then NegInf else PosInf)
      else match DecimalLiteral(body)
        case Some(v) => Finite(if neg then -v else v)
        case None => NaN
  }

  /** `Number` reads the decimal text of a natural number back. */
  lemma NumberOfNatToString(n: nat)
    ensures NumberOf(NatToString(n)) == Finite(n as real)
  {
    NumberOfDigits(NatToString(n));
    DigitsValueOfNatToString(n);
  }

  /** `Number` reads a run of digits as its value. */
  lemma NumberOfDigits(s: string)
    requires s != [] && AllDigits(s)
    ensures NumberOf(s) == Finite(DigitsValue(s) as real)
  {
    PlainDigits(s);
    DecimalLiteralOfDigits(s);
  }

  /** A run of digits needs no trimming, has no sign and is not `Infinity`. */
  lemma PlainDigits(s: string)
    requires s != [] && AllDigits(s)
    ensures Trim(s) == s && Unsigned(s) == s && s != "Infinity" && s[0] != '-'
  {
    assert IsDigit(s[0]) && IsDigit(s[|s| - 1]);
    TrimOfTrimmed(s);
  }

  /** A run of digits is a decimal literal with the digits' value. */
  lemma DecimalLiteralOfDigits(s: string)
    requires s != [] && AllDigits(s)
    ensures DecimalLiteral(s) == Some(DigitsValue(s) as real)
  {
    LeadingDigitsOfDigits(s);
    assert s[|s|..] == [];
  }

  // ---------------------------------------------------------------------------
  // Ordering
  // ---------------------------------------------------------------------------

  /** Code-point lexicographic order on strings. */
  predicate StrLe(a: string, b: string) {
    if a == [] then true
    else if b == [] then false
    else if a[0] != b[0] then a[0] < b[0]
    else StrLe(a[1..], b[1..])
  }

  lemma {:induction false} StrLeTotal(a: string, b: string)
    ensures StrLe(a, b) || StrLe(b, a)
  {
    if a != [] && b != [] && a[0] == b[0] {
      StrLeTotal(a[1..], b[1..]);
    }
  }

  lemma {:induction false} StrLeTransitive(a: string, b: string, c: string)
    requires StrLe(a, b) && StrLe(b, c)
    ensures StrLe(a, c)
  {
    if a != [] && b != [] && c != [] && a[0] == b[0] && b[0] == c[0] {
      StrLeTransitive(a[1..], b[1..], c[1..]);
    }
  }

  lemma {:induction false} StrLeAntisymmetric(a: string, b: string)
    requires StrLe(a, b) && StrLe(b, a)
    ensures a == b
  {
    if a != [] && b != [] {
      StrLeAntisymmetric(a[1..], b[1..]);
      assert a == [a[0]] + a[1..];
      assert b == [b[0]] + b[1..];
    }
  }
}
