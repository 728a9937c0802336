/**
 * The string operations of JavaScript that the workout code relies on:
 * `Number(str)`, `parseInt(str)`, `String.prototype.split`, `includes`,
 * `replace` with a string pattern, `padStart` and number-to-string rendering.
 */
module Text {
  import opened Types

  // ---------------------------------------------------------------- digits

  /** The value of an ASCII alphanumeric digit in bases up to 36, or 36 when `c` is not one. */
  function RadixDigit(c: char): (d: nat)
    ensures d <= 36
  {
    if '0' <= c <= '9' then (c as int) - ('0' as int)
    else if 'a' <= c <= 'z' then (c as int) - ('a' as int) + 10
    else if 'A' <= c <= 'Z' then (c as int) - ('A' as int) + 10
    else 36
  }

  /** The number bases JavaScript numerals use. */
  datatype Base = Binary | Octal | Decimal | Hexadecimal

  function Radix(base: Base): nat
  {
    match base
    case Binary => 2
    case Octal => 8
    case Decimal => 10
    case Hexadecimal => 16
  }

  /** `Radix(base) * v`, written with literal factors. */
  function Shift(base: Base, v: nat): nat
  {
    match base
    case Binary => 2 * v
    case Octal => 8 * v
    case Decimal => 10 * v
    case Hexadecimal => 16 * v
  }

  predicate IsDigitIn(c: char, base: Base)
  {
    RadixDigit(c) < Radix(base)
  }

  predicate AllDigitsIn(s: string, base: Base)
  {
    forall i | 0 <= i < |s| :: IsDigitIn(s[i], base)
  }

  /** The value of a string of digits of `base`, most significant first. */
  function ValueIn(s: string, base: Base): nat
    requires AllDigitsIn(s, base)
  {
    if s == [] then 0 else Shift(base, ValueIn(s[..|s| - 1], base)) + RadixDigit(s[|s| - 1])
  }

  /** The longest prefix of `s` made of digits of `base`. */
  function LeadingDigits(s: string, base: Base): (z: string)
    ensures z <= s && AllDigitsIn(z, base)
    ensures |z| < |s| ==> !IsDigitIn(s[|z|], base)
  {
    if s != [] && IsDigitIn(s[0], base) then [s[0]] + LeadingDigits(s[1..], base) else []
  }

  function DigitChar(d: nat): (c: char)
    requires d < 10
    ensures IsDigitIn(c, Decimal) && RadixDigit(c) == d
  {
    (('0' as int) + d) as char
  }

  /** Decimal rendering of a natural number, as `n.toString()` gives it. */
  function NatToString(n: nat): (s: string)
    ensures 1 <= |s| && AllDigitsIn(s, Decimal)
    ensures ValueIn(s, Decimal) == n
    ensures |s| > 1 ==> s[0] != '0'
    ensures '-' !in s
    ensures n < 10 ==> |s| == 1
    ensures n < 100 ==> |s| <= 2
  {
    if n < 10 then [DigitChar(n)]
    else
      var prefix := NatToString(n / 10);
      var s := prefix + [DigitChar(n % 10)];
      assert s[..|s| - 1] == prefix;
      s
  }

  /** A character that is not a digit does not occur in a string of digits. */
  lemma NotInDigits(s: string, c: char, base: Base)
    requires AllDigitsIn(s, base) && !IsDigitIn(c, base)
    ensures c !in s
  {
  }

  /** A leading zero does not change the value of a numeral. */
  lemma {:induction false} LeadingZero(s: string, base: Base)
    requires AllDigitsIn(s, base)
    ensures AllDigitsIn("0" + s, base) && ValueIn("0" + s, base) == ValueIn(s, base)
  {
    var z := "0" + s;
    assert IsDigitIn('0', base);
    if s != [] {
      assert z[..|z| - 1] == "0" + s[..|s| - 1];
      assert z[|z| - 1] == s[|s| - 1];
      LeadingZero(s[..|s| - 1], base);
    }
  }

  /** Decimal rendering of an integer, with a leading '-' when negative. */
  function IntToString(n: int): string
  {
    if n < 0 then "-" + NatToString(-n) else NatToString(n)
  }

  /** `s.padStart(2, '0')`. */
  function PadStart2(s: string): (r: string)
    ensures |r| == if |s| < 2 then 2 else |s|
    ensures r[|r| - |s|..] == s
    ensures forall i | 0 <= i < |r| - |s| :: r[i] == '0'
  {
    if |s| >= 2 then s else if |s| == 1 then "0" + s else "00"
  }

  // ------------------------------------------------------------ whitespace

  /**
   * The characters that `parseInt` and `Number` skip around a numeral: the
   * WhiteSpace (TAB, VT, FF, ZWNBSP and every space separator) and
   * LineTerminator productions of ECMAScript.
   */
  predicate IsJsSpace(c: char)
  {
    c == '\t' || c == '\U{B}' || c == '\U{C}' || c == '\U{FEFF}'
    || c == '\n' || c == '\r' || c == '\U{2028}' || c == '\U{2029}'
    || c == ' ' || c == '\U{A0}' || c == '\U{1680}' || ('\U{2000}' <= c <= '\U{200A}')
    || c == '\U{202F}' || c == '\U{205F}' || c == '\U{3000}'
  }

  function TrimStart(s: string): (r: string)
    ensures |r| <= |s|
    ensures r != [] ==> !IsJsSpace(r[0])
  {
    if s != [] && IsJsSpace(s[0]) then TrimStart(s[1..]) else s
  }

  function TrimEnd(s: string): (r: string)
    ensures |r| <= |s|
    ensures r != [] ==> !IsJsSpace(r[|r| - 1])
  {
    if s != [] && IsJsSpace(s[|s| - 1]) then TrimEnd(s[..|s| - 1]) else s
  }

  function Trim(s: string): string
  {
    TrimEnd(TrimStart(s))
  }

  /** Trimming only removes characters. */
  lemma {:induction false} TrimStartKeeps(s: string, c: char)
    ensures c in TrimStart(s) ==> c in s
  {
    if s != [] && IsJsSpace(s[0]) {
      TrimStartKeeps(s[1..], c);
      assert c in s[1..] ==> c in s;
    }
  }

  lemma {:induction false} TrimEndKeeps(s: string, c: char)
    ensures c in TrimEnd(s) ==> c in s
  {
    if s != [] && IsJsSpace(s[|s| - 1]) {
      TrimEndKeeps(s[..|s| - 1], c);
      assert c in s[..|s| - 1] ==> c in s;
    }
  }

  // ------------------------------------------------------------ numerals

  /**
   * `parseInt(s)` with no radix: skip leading white space, read an optional sign,
   * switch to base 16 after "0x"/"0X", and take the longest digit prefix; no digit
   * at all is NaN (None).
   */
  function ParseIntPrefix(s: string): (r: Option<int>)
    ensures '-' !in s && r.Some? ==> r.value >= 0
  {
    TrimStartKeeps(s, '-');
    var t := TrimStart(s);
    var negative := t != [] && t[0] == '-';
    var u := if t != [] && (t[0] == '+' || t[0] == '-') then t[1..] else t;
    var hex := |u| >= 2 && u[0] == '0' && (u[1] == 'x' || u[1] == 'X');
    var base := if hex then Hexadecimal else Decimal;
    var body := if hex then u[2..] else u;
    var z := LeadingDigits(body, base);
    if z == [] then None
    else
      var v: int := ValueIn(z, base);
      Some(if negative then -v else v)
  }

  /** The base of a "0x", "0o" or "0b" prefix (either case), if there is one. */
  function PrefixBase(t: string): Option<Base>
  {
    if |t| < 2 || t[0] != '0' then None
    else if t[1] == 'x' || t[1] == 'X' then Some(Hexadecimal)
    else if t[1] == 'o' || t[1] == 'O' then Some(Octal)
    else if t[1] == 'b' || t[1] == 'B' then Some(Binary)
    else None
  }

  /**
   * `Number(s)` on a string, for integral numerals: white space around is ignored,
   * the empty string is 0, a decimal numeral may carry a sign, and "0x"/"0o"/"0b"
   * numerals are read in their base. Everything else is NaN (None).
   */
  function JsNumber(s: string): (r: Option<int>)
    ensures '-' !in s && r.Some? ==> r.value >= 0
  {
    TrimStartKeeps(s, '-');
    TrimEndKeeps(TrimStart(s), '-');
    var t := Trim(s);
    var prefixed := PrefixBase(t);
    if t == [] then Some(0)
    else if prefixed.Some? && |t| > 2 && AllDigitsIn(t[2..], prefixed.value) then
      Some(ValueIn(t[2..], prefixed.value))
    else
      var negative := t[0] == '-';
      var u := if t[0] == '+' || t[0] == '-' then t[1..] else t;
      if u != [] && AllDigitsIn(u, Decimal) then
        var v: int := ValueIn(u, Decimal);
        Some(if negative then -v else v)
      else None
  }

  lemma {:induction false} ValueInPrefix(s: string, base: Base)
    requires AllDigitsIn(s, base)
    ensures LeadingDigits(s, base) == s
  {
    if s != [] {
      ValueInPrefix(s[1..], base);
    }
  }

  lemma {:induction false} TrimDigits(s: string)
    requires s != [] && AllDigitsIn(s, Decimal)
    ensures TrimStart(s) == s && TrimEnd(s) == s
  {
    assert !IsJsSpace(s[0]) && !IsJsSpace(s[|s| - 1]);
  }

  /** Rendering a natural number and reading it back with `Number` gives the number. */
  lemma NumberOfRendering(n: nat)
    ensures JsNumber(NatToString(n)) == Some(n)
  {
    var s := NatToString(n);
    TrimDigits(s);
    assert Trim(s) == s;
    assert PrefixBase(s) == None by {
      if |s| >= 2 { assert s[0] != '0'; }
    }
  }

  /** Rendering a natural number and reading it back with `parseInt` gives the number. */
  lemma ParseIntOfRendering(n: nat)
    ensures ParseIntPrefix(NatToString(n)) == Some(n)
  {
    ParseIntOfRenderingThen(n, []);
    assert NatToString(n) + [] == NatToString(n);
  }

  /** The digit prefix of a numeral followed by a non-digit is the numeral. */
  lemma {:induction false} LeadingDigitsBefore(z: string, rest: string, base: Base)
    requires AllDigitsIn(z, base) && (rest == [] || !IsDigitIn(rest[0], base))
    ensures LeadingDigits(z + rest, base) == z
  {
    if z == [] {
      assert z + rest == rest;
    } else {
      assert (z + rest)[1..] == z[1..] + rest;
      LeadingDigitsBefore(z[1..], rest, base);
    }
  }

  /** A text that starts with a digit has no leading white space. */
  lemma TrimStartAtDigit(s: string)
    requires s != [] && IsDigitIn(s[0], Decimal)
    ensures TrimStart(s) == s
  {
    assert !IsJsSpace(s[0]);
  }

  /** A rendered number followed by a non-digit other than 'x' or 'X' has no "0x" prefix. */
  lemma RenderingNotHex(n: nat, rest: string)
    requires rest == [] || (!IsDigitIn(rest[0], Decimal) && rest[0] != 'x' && rest[0] != 'X')
    ensures var s := NatToString(n) + rest; |s| >= 2 ==> s[1] != 'x' && s[1] != 'X'
  {
    var z := NatToString(n);
    var s := z + rest;
    if |z| >= 2 {
      assert s[1] == z[1] && IsDigitIn(z[1], Decimal);
    } else if |s| >= 2 {
      assert s[1] == rest[0];
    }
  }

  /** `parseInt` reads a rendered number back from the front of a text when a non-digit follows it. */
  lemma ParseIntOfRenderingThen(n: nat, rest: string)
    requires rest == [] || (!IsDigitIn(rest[0], Decimal) && rest[0] != 'x' && rest[0] != 'X')
    ensures ParseIntPrefix(NatToString(n) + rest) == Some(n)
  {
    var z := NatToString(n);
    var s := z + rest;
    assert s[0] == z[0] && IsDigitIn(z[0], Decimal);
    TrimStartAtDigit(s);
    assert s[0] != '+' && s[0] != '-';
    RenderingNotHex(n, rest);
    LeadingDigitsBefore(z, rest, Decimal);
  }

  // -------------------------------------------------------- split and join

  /** The position of the first `c` in `s`. */
  function IndexOf(s: string, c: char): (i: nat)
    requires c in s
    ensures i < |s| && s[i] == c && c !in s[..i]
  {
    if s[0] == c then 0 else IndexOf(s[1..], c) + 1
  }

  /** The first separator after a separator-free prefix is the one right after it. */
  lemma {:induction false} IndexOfAfter(p: string, sep: char, t: string)
    requires sep !in p
    ensures IndexOf(p + [sep] + t, sep) == |p|
  {
    if p != [] {
      assert (p + [sep] + t)[1..] == p[1..] + [sep] + t;
      IndexOfAfter(p[1..], sep, t);
    }
  }

  function Join(parts: seq<string>, sep: char): string
    requires |parts| >= 1
  {
    if |parts| == 1 then parts[0] else parts[0] + [sep] + Join(parts[1..], sep)
  }

  /** `s.split(sep)` for a one-character separator. */
  function Split(s: string, sep: char): (parts: seq<string>)
    ensures |parts| >= 1
    ensures (sep in s) <==> |parts| >= 2
    ensures forall k | 0 <= k < |parts| :: sep !in parts[k]
    ensures Join(parts, sep) == s
    decreases |s|
  {
    if sep !in s then [s]
    else
      var i := IndexOf(s, sep);
      var rest := Split(s[i + 1..], sep);
      assert s == s[..i] + [sep] + s[i + 1..];
      [s[..i]] + rest
  }

  /** Splitting a joined list gives the list back when no part holds the separator. */
  lemma {:induction false} SplitJoin(parts: seq<string>, sep: char)
    requires |parts| >= 1
    requires forall k | 0 <= k < |parts| :: sep !in parts[k]
    ensures Split(Join(parts, sep), sep) == parts
  {
    if |parts| == 1 {
    } else {
      var s := Join(parts, sep);
      var p := parts[0];
      var t := Join(parts[1..], sep);
      assert s == p + [sep] + t;
      assert s[|p|] == sep;
      IndexOfAfter(p, sep, t);
      assert s[..|p|] == p;
      assert s[|p| + 1..] == t;
      SplitJoin(parts[1..], sep);
    }
  }

  // ------------------------------------------------------ search and replace

  /** The position of the first occurrence of `pat` in `s`, if any. */
  function Find(s: string, pat: string): (r: Option<nat>)
    ensures r.Some? ==> r.value <= |s| && pat <= s[r.value..]
    ensures r.Some? ==> forall j | 0 <= j < r.value :: !(pat <= s[j..])
    ensures r.None? ==> forall j | 0 <= j <= |s| :: !(pat <= s[j..])
  {
    if pat <= s then Some(0)
    else if s == [] then None
    else
      match Find(s[1..], pat)
      case None =>
        assert forall j | 1 <= j <= |s| :: !(pat <= s[j..]) by {
          forall j | 1 <= j <= |s|
            ensures !(pat <= s[j..])
          {
            TailSuffix(s, j);
          }
        }
        None
      case Some(i) =>
        assert forall j | 1 <= j <= i :: !(pat <= s[j..]) by {
          forall j | 1 <= j <= i
            ensures !(pat <= s[j..])
          {
            TailSuffix(s, j);
          }
        }
        TailSuffix(s, i + 1);
        Some(i + 1)
  }

  lemma TailSuffix(s: string, j: int)
    requires 1 <= j <= |s|
    ensures s[j..] == s[1..][j - 1..]
  {
  }

  /** `s.includes(sub)`. */
  predicate Contains(s: string, sub: string)
  {
    Find(s, sub).Some?
  }

  /** `s.replace(pat, rep)` with a string pattern: only the first occurrence is replaced. */
  function ReplaceFirst(s: string, pat: string, rep: string): string
  {
    match Find(s, pat)
    case None => s
    case Some(i) => s[..i] + rep + s[i + |pat|..]
  }

  /**
   * When `pat` occurs at `j`, the first occurrence is at or before `j` and the
   * replacement puts `rep` exactly there, keeping the text around it.
   */
  lemma ReplaceFirstAt(s: string, pat: string, rep: string, j: nat)
    requires j <= |s| && pat <= s[j..]
    ensures Find(s, pat).Some? && Find(s, pat).value <= j
    ensures var i := Find(s, pat).value;
      var r := ReplaceFirst(s, pat, rep);
      |r| == |s| - |pat| + |rep| && r[..i] == s[..i] && r[i..i + |rep|] == rep && r[i + |rep|..] == s[i + |pat|..]
  {
    var i := Find(s, pat).value;
    assert |s[i..]| >= |pat|;
    var r := ReplaceFirst(s, pat, rep);
    assert r == s[..i] + rep + s[i + |pat|..];
  }
}
