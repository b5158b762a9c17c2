/** The JavaScript string and number primitives the ingestion service relies on:
    `String.prototype.split` with a one-character separator, `toLowerCase() === "nan"`,
    `parseInt` with no radix, and whether `parseFloat` yields `NaN`. */
module JsText {
  import opened Wrappers

  // ---------------------------------------------------------------------------
  // split / join
  // ---------------------------------------------------------------------------

  /** `s.split(sep)`: the maximal separator-free pieces of `s`, in order.
      Like JavaScript, an empty string gives one empty piece and a trailing
      separator gives a trailing empty piece. */
  function Split(s: string, sep: char): (parts: seq<string>)
    ensures |parts| >= 1
    decreases |s|
  {
    if s == [] then [""]
    else
      var rest := Split(s[1..], sep);
      if s[0] == sep then [""] + rest
      else [[s[0]] + rest[0]] + rest[1..]
  }

  /** `parts.join(sep)`, the inverse of `Split`. */
  function Join(parts: seq<string>, sep: char): string
    requires |parts| >= 1
  {
    if |parts| == 1 then parts[0] else parts[0] + [sep] + Join(parts[1..], sep)
  }

  lemma JoinCons(head: string, tail: seq<string>, sep: char)
    ensures Join([head] + tail, sep) == if tail == [] then head else head + [sep] + Join(tail, sep)
  {
    assert ([head] + tail)[1..] == tail;
  }

  /** Joining the pieces of a split gives back the original string. */
  lemma {:induction false} JoinSplit(s: string, sep: char)
    ensures Join(Split(s, sep), sep) == s
  {
    if s != [] {
      JoinSplit(s[1..], sep);
      if s[0] == sep {
        JoinSplitAtSeparator(s, sep);
      } else {
        JoinSplitInPiece(s, sep);
      }
    }
  }

  lemma JoinSplitAtSeparator(s: string, sep: char)
    requires s != [] && s[0] == sep
    requires Join(Split(s[1..], sep), sep) == s[1..]
    ensures Join(Split(s, sep), sep) == s
  {
    JoinCons("", Split(s[1..], sep), sep);
    assert s == [sep] + s[1..];
  }

  lemma JoinSplitInPiece(s: string, sep: char)
    requires s != [] && s[0] != sep
    requires Join(Split(s[1..], sep), sep) == s[1..]
    ensures Join(Split(s, sep), sep) == s
  {
    var rest := Split(s[1..], sep);
    assert Split(s, sep) == [[s[0]] + rest[0]] + rest[1..];
    JoinPrepend(s[0], rest, sep);
    assert s == [s[0]] + s[1..];
  }

  /** Putting a character in front of the first piece puts it in front of the join. */
  lemma JoinPrepend(c: char, parts: seq<string>, sep: char)
    requires |parts| >= 1
    ensures Join([[c] + parts[0]] + parts[1..], sep) == [c] + Join(parts, sep)
  {
    var tail := parts[1..];
    assert parts == [parts[0]] + tail;
    JoinCons([c] + parts[0], tail, sep);
    JoinCons(parts[0], tail, sep);
    if tail != [] {
      assert [c] + parts[0] + [sep] + Join(tail, sep) == [c] + (parts[0] + [sep] + Join(tail, sep));
    }
  }

  lemma {:induction false} SplitWithoutSeparator(a: string, sep: char)
    requires sep !in a
    ensures Split(a, sep) == [a]
  {
    if a != [] {
      SplitWithoutSeparator(a[1..], sep);
      assert a == [a[0]] + a[1..];
    }
  }

  lemma {:induction false} SplitAtSeparator(a: string, sep: char, t: string)
    requires sep !in a
    ensures Split(a + [sep] + t, sep) == [a] + Split(t, sep)
  {
    var s := a + [sep] + t;
    if a == [] {
      assert s[1..] == t;
    } else {
      assert s[1..] == a[1..] + [sep] + t;
      SplitAtSeparator(a[1..], sep, t);
      assert a == [a[0]] + a[1..];
    }
  }

  /** Splitting a join of separator-free pieces gives back exactly those pieces. */
  lemma {:induction false} SplitJoin(parts: seq<string>, sep: char)
    requires |parts| >= 1
    requires forall i :: 0 <= i < |parts| ==> sep !in parts[i]
    ensures Split(Join(parts, sep), sep) == parts
  {
    if |parts| == 1 {
      SplitWithoutSeparator(parts[0], sep);
    } else {
      SplitJoin(parts[1..], sep);
      SplitAtSeparator(parts[0], sep, Join(parts[1..], sep));
      assert parts == [parts[0]] + parts[1..];
    }
  }

  // ---------------------------------------------------------------------------
  // toLowerCase() === "nan"
  // ---------------------------------------------------------------------------

  function LowerChar(c: char): char
  {
    if 'A' <= c <= 'Z' then (c as int + 32) as char else c
  }

  /** Lower-casing of the ASCII letters. No other character lower-cases to `n`
      or `a`, so this is as good as `toLowerCase()` for comparing with `"nan"`. */
  function Lower(s: string): string
  {
    seq(|s|, i requires 0 <= i < |s| => LowerChar(s[i]))
  }

  /** The literal that marks a channel value as absent: `nan` in any letter case. */
  predicate IsNanLiteral(s: string)
  {
    |s| == 3 && (s[0] == 'n' || s[0] == 'N') && (s[1] == 'a' || s[1] == 'A') && (s[2] == 'n' || s[2] == 'N')
  }

  /** `IsNanLiteral` is exactly `s.toLowerCase() === "nan"`. */
  lemma NanLiteralLowered(s: string)
    ensures IsNanLiteral(s) <==> Lower(s) == "nan"
  {
    if IsNanLiteral(s) {
      assert Lower(s) == [LowerChar(s[0]), LowerChar(s[1]), LowerChar(s[2])];
    }
    if Lower(s) == "nan" {
      assert |Lower(s)| == 3;
      assert Lower(s)[0] == 'n' && Lower(s)[1] == 'a' && Lower(s)[2] == 'n';
    }
  }

  // ---------------------------------------------------------------------------
  // parseInt(s) with no radix
  // ---------------------------------------------------------------------------

  /** ECMAScript's StrWhiteSpaceChar: white space and line terminators. */
  predicate IsJsWhitespace(c: char)
  {
    var n := c as int;
    n == 0x09 || n == 0x0A || n == 0x0B || n == 0x0C || n == 0x0D || n == 0x20 ||
    n == 0xA0 || n == 0x1680 || (0x2000 <= n <= 0x200A) || n == 0x2028 || n == 0x2029 ||
    n == 0x202F || n == 0x205F || n == 0x3000 || n == 0xFEFF
  }

  /** The string with its leading white space removed. */
  function TrimStart(s: string): string
  {
    if s != [] && IsJsWhitespace(s[0]) then TrimStart(s[1..]) else s
  }

  /** `TrimStart` removes exactly the white space at the front: what it keeps is a
      suffix of `s` that does not start with white space, and everything it drops
      is white space. */
  lemma {:induction false} TrimStartSpec(s: string)
    ensures var t := TrimStart(s);
      && |t| <= |s| && t == s[|s| - |t|..]
      && (t == [] || !IsJsWhitespace(t[0]))
      && (forall i :: 0 <= i < |s| - |t| ==> IsJsWhitespace(s[i]))
  {
    if s != [] && IsJsWhitespace(s[0]) {
      TrimStartSpec(s[1..]);
      var t := TrimStart(s);
      assert t == TrimStart(s[1..]);
      forall i | 0 <= i < |s| - |t|
        ensures IsJsWhitespace(s[i])
      {
        if i > 0 {
          assert s[i] == s[1..][i - 1];
        }
      }
    }
  }

  /** The value of a digit character in bases up to 16; 16 for any other character. */
  function DigitValue(c: char): nat
  {
    if '0' <= c <= '9' then c as int - '0' as int
    else if 'a' <= c <= 'f' then c as int - 'a' as int + 10
    else if 'A' <= c <= 'F' then c as int - 'A' as int + 10
    else 16
  }

  /** Length of the longest prefix of `s` made of base-`base` digits. */
  function DigitRun(s: string, base: nat): (n: nat)
    ensures n <= |s|
  {
    if s != [] && DigitValue(s[0]) < base then 1 + DigitRun(s[1..], base) else 0
  }

  /** The number a run of digits denotes, most significant digit first. */
  function DigitsValue(ds: string, base: nat): nat
  {
    if ds == [] then 0 else DigitsValue(ds[..|ds| - 1], base) * base + DigitValue(ds[|ds| - 1])
  }

  /** Splits an optional leading sign off: whether it was `-`, and the rest. */
  function StripSign(t: string): (bool, string)
  {
    if t != [] && (t[0] == '-' || t[0] == '+') then (t[0] == '-', t[1..]) else (false, t)
  }

  /** The unsigned part of `parseInt`: an optional `0x`/`0X` prefix selecting
      base 16, then the longest run of digits, the rest ignored. */
  function ParseMagnitude(u: string): Option<nat>
  {
    var hex := |u| >= 2 && u[0] == '0' && (u[1] == 'x' || u[1] == 'X');
    var base := if hex then 16 else 10;
    var body := if hex then u[2..] else u;
    var n := DigitRun(body, base);
    if n == 0 then None else Some(DigitsValue(body[..n], base))
  }

  function Signed(negative: bool, m: nat): int
  {
    if negative then -(m as int) else m
  }

  /** `parseInt(s)`: optional leading white space, an optional sign, then the
      magnitude. `None` stands for `NaN` (no digit at all). */
  function ParseInt(s: string): Option<int>
  {
    var (negative, unsigned) := StripSign(TrimStart(s));
    match ParseMagnitude(unsigned)
    case None => None
    case Some(m) => Some(Signed(negative, m))
  }

  // ---------------------------------------------------------------------------
  // Decimal rendering, the inverse of parseInt on canonical input
  // ---------------------------------------------------------------------------

  function DecimalDigit(d: nat): char
    requires d < 10
  {
    ('0' as int + d) as char
  }

  /** The decimal digits of `n`, without leading zeros. */
  function ShowNat(n: nat): (s: string)
    ensures |s| >= 1
    ensures forall i :: 0 <= i < |s| ==> '0' <= s[i] <= '9'
    ensures |s| == 1 <==> n < 10
  {
    if n < 10 then [DecimalDigit(n)] else ShowNat(n / 10) + [DecimalDigit(n % 10)]
  }

  /** `String(n)` for an integer `n`. */
  function Show(n: int): string
  {
    if n < 0 then "-" + ShowNat(-n) else ShowNat(n)
  }

  lemma {:induction false} ShowNatValue(n: nat)
    ensures DigitsValue(ShowNat(n), 10) == n
  {
    if n >= 10 {
      ShowNatValue(n / 10);
      var s := ShowNat(n);
      assert s[..|s| - 1] == ShowNat(n / 10);
    }
  }

  lemma {:induction false} DigitRunOfDigits(a: string, rest: string, base: nat)
    requires forall i :: 0 <= i < |a| ==> DigitValue(a[i]) < base
    requires rest == [] || DigitValue(rest[0]) >= base
    ensures DigitRun(a + rest, base) == |a|
  {
    if a != [] {
      assert (a + rest)[1..] == a[1..] + rest;
      DigitRunOfDigits(a[1..], rest, base);
    } else {
      assert a + rest == rest;
    }
  }

  /** A string that starts with a visible ASCII character has no white space to trim. */
  lemma TrimStartPrintable(s: string)
    requires s != [] && '!' <= s[0] <= '~'
    ensures TrimStart(s) == s
  {
    assert !IsJsWhitespace(s[0]);
  }

  lemma TrimStartNoWhitespace(s: string)
    requires s == [] || !IsJsWhitespace(s[0])
    ensures TrimStart(s) == s
  {
  }

  lemma ParseMagnitudeDecimal(digits: string, rest: string)
    requires |digits| >= 1 && forall i :: 0 <= i < |digits| ==> '0' <= digits[i] <= '9'
    requires rest == [] || DigitValue(rest[0]) >= 10
    requires digits == "0" && rest != [] ==> rest[0] != 'x' && rest[0] != 'X'
    requires |digits| > 1 ==> digits[0] != '0'
    ensures ParseMagnitude(digits + rest) == Some(DigitsValue(digits, 10))
  {
    var u := digits + rest;
    assert DigitRun(u, 10) == |digits| by {
      assert forall i :: 0 <= i < |digits| ==> DigitValue(digits[i]) < 10;
      DigitRunOfDigits(digits, rest, 10);
    }
    TakePrefix(digits, rest);
    assert !(|u| >= 2 && u[0] == '0' && (u[1] == 'x' || u[1] == 'X')) by {
      if |u| >= 2 && u[0] == '0' {
        assert |digits| == 1 && u[1] == rest[0];
      }
    }
  }

  lemma {:induction false} ShowNatLeadingDigit(n: nat)
    ensures |ShowNat(n)| > 1 ==> ShowNat(n)[0] != '0'
    ensures ShowNat(n) == "0" <==> n == 0
  {
    if n >= 10 {
      ShowNatLeadingDigit(n / 10);
      assert ShowNat(n)[0] == ShowNat(n / 10)[0];
    }
  }

  lemma ParseIntParts(s: string, negative: bool, u: string, m: nat)
    requires StripSign(TrimStart(s)) == (negative, u)
    requires ParseMagnitude(u) == Some(m)
    ensures ParseInt(s) == Some(Signed(negative, m))
  {
  }

  lemma ShowSign(n: int, rest: string)
    ensures var m: nat := if n < 0 then -n else n;
      StripSign(TrimStart(Show(n) + rest)) == (n < 0, ShowNat(m) + rest)
  {
    if n < 0 {
      ShowSignNegative(-n, rest);
    } else {
      ShowSignNonNegative(n, rest);
    }
  }

  lemma ShowSignNegative(m: nat, rest: string)
    requires m > 0
    ensures StripSign(TrimStart(Show(-(m as int)) + rest)) == (true, ShowNat(m) + rest)
  {
    var u := ShowNat(m) + rest;
    assert Show(-(m as int)) + rest == ['-'] + u;
    StripMinus(u);
  }

  lemma StripMinus(u: string)
    ensures StripSign(TrimStart(['-'] + u)) == (true, u)
  {
    var s := ['-'] + u;
    assert s[0] == '-' && s[1..] == u;
    TrimStartPrintable(s);
  }

  lemma ShowSignNonNegative(n: nat, rest: string)
    ensures StripSign(TrimStart(Show(n) + rest)) == (false, ShowNat(n) + rest)
  {
    var s := ShowNat(n) + rest;
    assert s[0] == ShowNat(n)[0];
    TrimStartPrintable(s);
  }

  /** `parseInt` reads back the decimal rendering of any integer, and ignores
      whatever follows it as long as that does not continue the number (another
      digit, or an `x` turning a lone `0` into a hexadecimal prefix). */
  lemma ParseIntShow(n: int, rest: string)
    requires rest == [] || DigitValue(rest[0]) >= 10
    requires n == 0 && rest != [] ==> rest[0] != 'x' && rest[0] != 'X'
    ensures ParseInt(Show(n) + rest) == Some(n)
  {
    var m: nat := if n < 0 then -n else n;
    ShowNatLeadingDigit(m);
    ShowNatValue(m);
    ParseMagnitudeDecimal(ShowNat(m), rest);
    ShowSign(n, rest);
    ParseIntParts(Show(n) + rest, n < 0, ShowNat(m) + rest, m);
  }

  lemma ParseIntShowExact(n: int)
    ensures ParseInt(Show(n)) == Some(n)
  {
    ParseIntShow(n, "");
    assert Show(n) + "" == Show(n);
  }

  /** A `0x` or `0X` prefix selects base 16: the longest run of hexadecimal
      digits after it is read, whatever follows is ignored. */
  lemma ParseIntHex(x: char, digits: string, rest: string)
    requires x == 'x' || x == 'X'
    requires |digits| >= 1 && forall i :: 0 <= i < |digits| ==> DigitValue(digits[i]) < 16
    requires rest == [] || DigitValue(rest[0]) >= 16
    ensures ParseInt(['0', x] + digits + rest) == Some(DigitsValue(digits, 16))
  {
    var s := ['0', x] + digits + rest;
    TrimStartPrintable(s);
    assert StripSign(TrimStart(s)) == (false, s);
    ParseMagnitudeHex(x, digits, rest);
    ParseIntParts(s, false, s, DigitsValue(digits, 16));
  }

  lemma DropPrefix<T>(a: seq<T>, b: seq<T>)
    ensures (a + b)[|a|..] == b
  {
  }

  lemma TakePrefix<T>(a: seq<T>, b: seq<T>)
    ensures (a + b)[..|a|] == a
  {
  }

  lemma ParseMagnitudeHex(x: char, digits: string, rest: string)
    requires x == 'x' || x == 'X'
    requires |digits| >= 1 && forall i :: 0 <= i < |digits| ==> DigitValue(digits[i]) < 16
    requires rest == [] || DigitValue(rest[0]) >= 16
    ensures ParseMagnitude(['0', x] + digits + rest) == Some(DigitsValue(digits, 16))
  {
    var u := ['0', x] + digits + rest;
    var body := digits + rest;
    assert u == ['0', x] + body;
    DropPrefix(['0', x], body);
    assert u[0] == '0' && u[1] == x;
    assert DigitRun(body, 16) == |digits| by {
      DigitRunOfDigits(digits, rest, 16);
    }
    assert body[..|digits|] == digits;
  }

  /** A string that starts with neither white space, a sign nor a digit is `NaN`. */
  lemma ParseIntWithoutDigits(s: string)
    requires s != [] && !IsJsWhitespace(s[0]) && s[0] != '-' && s[0] != '+' && s[0] != '0'
    requires DigitValue(s[0]) >= 10
    ensures ParseInt(s) == None
  {
    TrimStartNoWhitespace(s);
    assert StripSign(TrimStart(s)) == (false, s);
  }

  /** A hexadecimal prefix with no hexadecimal digit after it is `NaN` too. */
  lemma ParseIntEmptyHex(x: char, rest: string)
    requires x == 'x' || x == 'X'
    requires rest == [] || DigitValue(rest[0]) >= 16
    ensures ParseInt(['0', x] + rest) == None
  {
    var s := ['0', x] + rest;
    TrimStartPrintable(s);
    assert StripSign(TrimStart(s)) == (false, s);
    assert s[2..] == rest;
  }

  // ---------------------------------------------------------------------------
  // parseFloat(s), only as far as NaN is concerned
  // ---------------------------------------------------------------------------

  /** A JavaScript number kept opaque: `Number(literal)` is whatever `parseFloat`
      reads from `literal`. */
  datatype Num = NaN | Number(literal: string)

  predicate IsDecimalDigit(c: char)
  {
    '0' <= c <= '9'
  }

  /** Whether `s` starts with `p`. */
  predicate StartsWith(s: string, p: string)
    decreases |p|
  {
    |p| <= |s| && (p == [] || (s[0] == p[0] && StartsWith(s[1..], p[1..])))
  }

  /** Whether `u` starts with an unsigned ECMAScript StrDecimalLiteral:
      `Infinity`, or a digit, or a dot and a digit. */
  predicate UnsignedDecimalStart(u: string)
  {
    StartsWith(u, "Infinity") ||
    (u != [] && IsDecimalDigit(u[0])) ||
    (|u| >= 2 && u[0] == '.' && IsDecimalDigit(u[1]))
  }

  /** Whether some prefix of `s`, after leading white space and an optional sign,
      is a StrDecimalLiteral: exactly when `parseFloat(s)` is not `NaN`. */
  predicate HasDecimalPrefix(s: string)
    decreases |s|
  {
    if s != [] && IsJsWhitespace(s[0]) then HasDecimalPrefix(s[1..])
    else if s != [] && (s[0] == '-' || s[0] == '+') then UnsignedDecimalStart(s[1..])
    else UnsignedDecimalStart(s)
  }

  /** `parseFloat(s)`, with the number itself left abstract. */
  function ParseFloat(s: string): (r: Num)
    ensures r.Number? ==> r.literal == s
  {
    if HasDecimalPrefix(s) then Number(s) else NaN
  }

  /** Text that starts with a digit is read as a number. */
  lemma ParseFloatLeadingDigit(s: string)
    requires s != [] && IsDecimalDigit(s[0])
    ensures ParseFloat(s) == Number(s)
  {
    assert !IsJsWhitespace(s[0]);
  }

  /** So is a sign followed by a dot and a digit, such as `-.5`. */
  lemma ParseFloatSignedFraction(s: string)
    requires |s| >= 3 && (s[0] == '-' || s[0] == '+') && s[1] == '.' && IsDecimalDigit(s[2])
    ensures ParseFloat(s) == Number(s)
  {
    assert !IsJsWhitespace(s[0]);
    assert s[1..][0] == '.' && s[1..][1] == s[2];
  }

  /** Leading white space is skipped. */
  lemma ParseFloatSkipsWhitespace(c: char, s: string)
    requires IsJsWhitespace(c)
    ensures ParseFloat([c] + s).NaN? <==> ParseFloat(s).NaN?
  {
    var t := [c] + s;
    assert t[0] == c && t[1..] == s;
    assert HasDecimalPrefix(t) == HasDecimalPrefix(s);
  }

  /** Text that starts with a visible character that can begin no number, such
      as the absent-value literal `nan`, is `NaN`. */
  lemma ParseFloatNaN(s: string)
    requires s != [] && '!' <= s[0] <= '~' && !IsDecimalDigit(s[0])
    requires s[0] != '-' && s[0] != '+' && s[0] != '.' && s[0] != 'I'
    ensures ParseFloat(s) == NaN
  {
    assert !IsJsWhitespace(s[0]);
  }
}
