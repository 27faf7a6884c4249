/**
 * Values as the bot sees them once JSON has been decoded, and the two
 * JavaScript coercions its command handler relies on: property access that
 * yields `undefined`, and `Number(s)` (through `isNaN` and `>=`).
 */
module JsValues {

  /** `None` stands for JavaScript's `undefined`. */
  datatype Option<+T> = None | Some(value: T)

  /** A decoded JSON value. Numbers are integers: no floating point is modelled. */
  datatype Json =
    | JNull
    | JBool(b: bool)
    | JNumber(n: int)
    | JString(s: string)
    | JArray(items: seq<Json>)
    | JObject(fields: map<string, Json>)

  /** `v[key]` on a value that is not null: undefined unless `v` is an object holding `key`. */
  function Prop(v: Json, key: string): Option<Json>
    requires !v.JNull?
  {
    if v.JObject? && key in v.fields then Some(v.fields[key]) else None
  }

  /** `x != undefined` under loose equality: false for undefined and for null alike. */
  predicate LooselyDefined(x: Option<Json>)
  {
    x.Some? && !x.value.JNull?
  }

  /** Position of the first `c` in `s`, or `|s|` when there is none. */
  function IndexOf(s: string, c: char): (i: nat)
    ensures i <= |s|
    ensures forall j | 0 <= j < i :: s[j] != c
    ensures i < |s| ==> s[i] == c
  {
    if s == [] then 0
    else if s[0] == c then 0
    else 1 + IndexOf(s[1..], c)
  }

  lemma IndexOfAbsent(s: string, c: char)
    requires c !in s
    ensures IndexOf(s, c) == |s|
  {
  }

  lemma {:induction false} IndexOfFirst(a: string, c: char, b: string)
    requires c !in a
    ensures IndexOf(a + [c] + b, c) == |a|
  {
    if a != [] {
      assert (a + [c] + b)[1..] == a[1..] + [c] + b;
      IndexOfFirst(a[1..], c, b);
    }
  }

  predicate IsDigit(c: char)
  {
    '0' <= c <= '9'
  }

  predicate AllDigits(s: string)
  {
    forall i | 0 <= i < |s| :: IsDigit(s[i])
  }

  predicate IsAsciiLetter(c: char)
  {
    'a' <= c <= 'z' || 'A' <= c <= 'Z'
  }

  /** The value of `c` as a digit: `0`-`9`, then `a`-`f` or `A`-`F` as 10 to 15; None for anything else. */
  function DigitValue(c: char): (d: Option<nat>)
    ensures d.Some? ==> d.value < 16
    ensures IsDigit(c) <==> d.Some? && d.value < 10
  {
    if '0' <= c <= '9' then Some(c as int - '0' as int)
    else if 'a' <= c <= 'f' then Some(c as int - 'a' as int + 10)
    else if 'A' <= c <= 'F' then Some(c as int - 'A' as int + 10)
    else None
  }

  predicate AllDigitsOf(s: string, radix: nat)
  {
    forall i | 0 <= i < |s| :: DigitValue(s[i]).Some? && DigitValue(s[i]).value < radix
  }

  /** The value of a string of digits in base `radix`, most significant first. */
  function DigitsValue(s: string, radix: nat): nat
    requires AllDigitsOf(s, radix)
  {
    if s == [] then 0 else DigitsValue(s[..|s| - 1], radix) * radix + DigitValue(s[|s| - 1]).value
  }

  function Pow10(k: nat): (p: nat)
    ensures p >= 1
  {
    if k == 0 then 1 else 10 * Pow10(k - 1)
  }

  /**
   * `StrWhiteSpaceChar` of ECMAScript's `StringToNumber`: the white-space
   * characters (tab, vertical tab, form feed, the byte-order mark and every
   * space separator of Unicode category Zs) and the line terminators.
   */
  predicate IsWhiteSpace(c: char)
  {
    c == '\t' || c == '\n' || c == '\U{B}' || c == '\U{C}' || c == '\r' || c == ' '
    || c == '\U{A0}' || c == '\U{1680}' || '\U{2000}' <= c <= '\U{200A}'
    || c == '\U{2028}' || c == '\U{2029}' || c == '\U{202F}' || c == '\U{205F}'
    || c == '\U{3000}' || c == '\U{FEFF}'
  }

  predicate AllWhiteSpace(w: string)
  {
    forall k | 0 <= k < |w| :: IsWhiteSpace(w[k])
  }

  /** `r` is `s` with some white space removed from its start and its end, and nothing else. */
  predicate InnerPart(s: string, r: string)
  {
    exists i, j | 0 <= i <= j <= |s| :: r == s[i..j] && AllWhiteSpace(s[..i]) && AllWhiteSpace(s[j..])
  }

  lemma InnerPartWhole(s: string)
    ensures InnerPart(s, s)
  {
    assert s == s[0..|s|] && s[..0] == [] && s[|s|..] == [];
  }

  /** A witness for `InnerPart`. */
  lemma InnerPartAt(s: string, r: string, i: nat, j: nat)
    requires i <= j <= |s| && r == s[i..j] && AllWhiteSpace(s[..i]) && AllWhiteSpace(s[j..])
    ensures InnerPart(s, r)
  {
  }

  lemma WhiteSpacePrepend(c: char, w: string)
    requires IsWhiteSpace(c) && AllWhiteSpace(w)
    ensures AllWhiteSpace([c] + w)
  {
    assert forall k | 1 <= k <= |w| :: ([c] + w)[k] == w[k - 1];
  }

  lemma WhiteSpaceAppend(w: string, c: char)
    requires AllWhiteSpace(w) && IsWhiteSpace(c)
    ensures AllWhiteSpace(w + [c])
  {
    assert forall k | 0 <= k < |w| :: (w + [c])[k] == w[k];
  }

  /** White space before a witness of `InnerPart(s[1..], r)` moves it one place right. */
  lemma InnerPartShiftRight(s: string, r: string, i: nat, j: nat)
    requires s != [] && IsWhiteSpace(s[0]) && i <= j <= |s| - 1
    requires r == s[1..][i..j] && AllWhiteSpace(s[1..][..i]) && AllWhiteSpace(s[1..][j..])
    ensures InnerPart(s, r)
  {
    assert AllWhiteSpace(s[..i + 1]) by {
      assert s[..i + 1] == [s[0]] + s[1..][..i];
      WhiteSpacePrepend(s[0], s[1..][..i]);
    }
    assert s[j + 1..] == s[1..][j..];
    assert r == s[i + 1..j + 1];
    InnerPartAt(s, r, i + 1, j + 1);
  }

  /** Dropping a leading white-space character keeps the inner parts. */
  lemma InnerPartOfTail(s: string, r: string)
    requires s != [] && IsWhiteSpace(s[0]) && InnerPart(s[1..], r)
    ensures InnerPart(s, r)
  {
    var i, j :| 0 <= i <= j <= |s[1..]| && r == s[1..][i..j] && AllWhiteSpace(s[1..][..i]) && AllWhiteSpace(s[1..][j..]);
    InnerPartShiftRight(s, r, i, j);
  }

  /** White space after a witness of `InnerPart(s[..|s| - 1], r)` keeps it a witness. */
  lemma InnerPartExtendRight(s: string, r: string, i: nat, j: nat)
    requires s != [] && IsWhiteSpace(s[|s| - 1]) && i <= j <= |s| - 1
    requires r == s[..|s| - 1][i..j] && AllWhiteSpace(s[..|s| - 1][..i]) && AllWhiteSpace(s[..|s| - 1][j..])
    ensures InnerPart(s, r)
  {
    var p := s[..|s| - 1];
    assert s[..i] == p[..i];
    assert AllWhiteSpace(s[j..]) by {
      assert s[j..] == p[j..] + [s[|s| - 1]];
      WhiteSpaceAppend(p[j..], s[|s| - 1]);
    }
    assert r == s[i..j];
    InnerPartAt(s, r, i, j);
  }

  /** Dropping a trailing white-space character keeps the inner parts. */
  lemma InnerPartOfInit(s: string, r: string)
    requires s != [] && IsWhiteSpace(s[|s| - 1]) && InnerPart(s[..|s| - 1], r)
    ensures InnerPart(s, r)
  {
    var p := s[..|s| - 1];
    var i, j :| 0 <= i <= j <= |p| && r == p[i..j] && AllWhiteSpace(p[..i]) && AllWhiteSpace(p[j..]);
    InnerPartExtendRight(s, r, i, j);
  }

  /** What `StringToNumber` parses: `s` without white space at either end. */
  function Trim(s: string): (r: string)
    ensures |r| <= |s|
    ensures r == [] || (!IsWhiteSpace(r[0]) && !IsWhiteSpace(r[|r| - 1]))
  {
    if s != [] && IsWhiteSpace(s[0]) then Trim(s[1..])
    else if s != [] && IsWhiteSpace(s[|s| - 1]) then Trim(s[..|s| - 1])
    else s
  }

  /** Trimming removes white space from the two ends of `s` and nothing else. */
  lemma {:induction false} TrimInnerPart(s: string)
    ensures InnerPart(s, Trim(s))
    decreases |s|
  {
    if s != [] && IsWhiteSpace(s[0]) {
      TrimInnerPart(s[1..]);
      InnerPartOfTail(s, Trim(s[1..]));
    } else if s != [] && IsWhiteSpace(s[|s| - 1]) {
      TrimInnerPart(s[..|s| - 1]);
      InnerPartOfInit(s, Trim(s[..|s| - 1]));
    } else {
      InnerPartWhole(s);
    }
  }

  /**
   * A number `Number(s)` can give other than NaN: a finite value, kept
   * exact, or one of the two infinities.
   */
  datatype Numeric = Finite(v: real) | Infinite(negative: bool)

  function Negate(x: Numeric): Numeric
  {
    match x
    case Finite(v) => Finite(-v)
    case Infinite(negative) => Infinite(!negative)
  }

  /** The value of the digits `whole` before a point and `frac` after it. */
  function MantissaValue(whole: string, frac: string): real
    requires AllDigits(whole) && AllDigits(frac)
  {
    DigitsValue(whole, 10) as real + DigitsValue(frac, 10) as real / Pow10(|frac|) as real
  }

  /** `digits`, `digits.digits`, `digits.` or `.digits`, with at least one digit; None for anything else. */
  function DecimalMantissa(s: string): Option<real>
  {
    var dot := IndexOf(s, '.');
    var whole := s[..dot];
    var frac := if dot < |s| then s[dot + 1..] else "";
    if AllDigits(whole) && AllDigits(frac) && |whole| + |frac| > 0 then
      Some(MantissaValue(whole, frac))
    else
      None
  }

  /** The exponent after `e` or `E`: an optional sign and at least one decimal digit. */
  function ExponentValue(s: string): Option<int>
  {
    var negative := s != [] && s[0] == '-';
    var digits := if s != [] && (s[0] == '-' || s[0] == '+') then s[1..] else s;
    if |digits| > 0 && AllDigits(digits) then
      Some(if negative then -(DigitsValue(digits, 10) as int) else DigitsValue(digits, 10))
    else
      None
  }

  /** The digits' value, negated after a minus sign. */
  function SignedDigits(sign: char, digits: string): int
    requires AllDigits(digits)
  {
    if sign == '-' then -(DigitsValue(digits, 10) as int) else DigitsValue(digits, 10)
  }

  /** `m` times ten to the power `e`. */
  function Scale(m: real, e: int): real
  {
    if e >= 0 then m * Pow10(e) as real else m / Pow10(-e) as real
  }

  function MinNat(a: nat, b: nat): nat
  {
    if a <= b then a else b
  }

  /** `StrUnsignedDecimalLiteral`: a mantissa, then optionally `e` or `E` and an exponent. */
  function UnsignedDecimal(s: string): Option<real>
  {
    var k := MinNat(IndexOf(s, 'e'), IndexOf(s, 'E'));
    match DecimalMantissa(s[..k])
    case None => None
    case Some(m) =>
      if k == |s| then Some(m)
      else
        match ExponentValue(s[k + 1..])
        case None => None
        case Some(e) => Some(Scale(m, e))
  }

  /** `Infinity` or an unsigned decimal literal. */
  function UnsignedNumber(s: string): Option<Numeric>
  {
    if s == "Infinity" then Some(Infinite(false))
    else
      match UnsignedDecimal(s)
      case None => None
      case Some(v) => Some(Finite(v))
  }

  /** `StrDecimalLiteral`: an optional sign before an unsigned number. */
  function DecimalLiteral(s: string): Option<Numeric>
  {
    if s != [] && s[0] == '-' then
      match UnsignedNumber(s[1..])
      case None => None
      case Some(x) => Some(Negate(x))
    else if s != [] && s[0] == '+' then UnsignedNumber(s[1..])
    else UnsignedNumber(s)
  }

  /** The base a `0x`, `0o` or `0b` prefix letter selects; 0 for any other character. */
  function RadixOf(c: char): nat
  {
    if c == 'x' || c == 'X' then 16
    else if c == 'o' || c == 'O' then 8
    else if c == 'b' || c == 'B' then 2
    else 0
  }

  /**
   * `StringNumericLiteral` once trimmed: nothing is 0; a `0x`/`0o`/`0b`
   * prefix reads the rest as unsigned hexadecimal, octal or binary digits;
   * anything else must be a decimal literal or `Infinity`, with an optional
   * sign. None stands for NaN.
   */
  function NumericLiteral(t: string): Option<Numeric>
  {
    if t == "" then Some(Finite(0.0))
    else if |t| >= 2 && t[0] == '0' && RadixOf(t[1]) > 0 then
      var digits := t[2..];
      if |digits| > 0 && AllDigitsOf(digits, RadixOf(t[1])) then Some(Finite(DigitsValue(digits, RadixOf(t[1])) as real))
      else None
    else DecimalLiteral(t)
  }

  /**
   * JavaScript's `Number(s)` for a string `s` (ECMAScript's `StringToNumber`):
   * white space at either end is ignored, the rest is a numeric literal.
   * None stands for NaN. The value is exact: the rounding to a double is
   * not modelled.
   */
  function ToNumber(s: string): (r: Option<Numeric>)
    ensures Trim(s) == "" ==> r == Some(Finite(0.0))
  {
    NumericLiteral(Trim(s))
  }

  /** A non-empty string of decimal digits is a mantissa worth its value. */
  lemma DigitsMantissa(t: string)
    requires t != "" && AllDigits(t)
    ensures DecimalMantissa(t) == Some(DigitsValue(t, 10) as real)
  {
    IndexOfAbsent(t, '.');
    assert t[..|t|] == t;
    assert MantissaValue(t, "") == DigitsValue(t, 10) as real by {
      assert DigitsValue("", 10) as real / Pow10(0) as real == 0.0;
    }
  }

  /** A non-empty string of decimal digits is the decimal literal of its value. */
  lemma DigitsAreDecimal(t: string)
    ensures t != "" && AllDigits(t) ==> DecimalLiteral(t) == Some(Finite(DigitsValue(t, 10) as real))
  {
    if t != "" && AllDigits(t) {
      IndexOfAbsent(t, 'e');
      IndexOfAbsent(t, 'E');
      DigitsMantissa(t);
      assert t[..|t|] == t;
    }
  }

  /** `isNaN(s)` for a string `s`: true exactly when `Number(s)` is NaN. */
  predicate IsNaN(s: string)
  {
    ToNumber(s).None?
  }

  /** An empty or all-white-space token, and any string of decimal digits, is a number. */
  lemma IsNaNFacts(s: string)
    ensures Trim(s) == "" ==> !IsNaN(s)
    ensures AllDigits(s) ==> !IsNaN(s)
  {
    if s != "" && AllDigits(s) {
      DigitsNumber(s);
    } else {
      AllDigitsTrimmed(s);
    }
  }

  /** A string of digits has no white space to trim. */
  lemma AllDigitsTrimmed(s: string)
    ensures AllDigits(s) ==> Trim(s) == s
  {
  }

  /** The decimal representation of `n`, as `String(n)` writes it. */
  function NatToDecimal(n: nat): (s: string)
    ensures |s| >= 1 && AllDigits(s)
  {
    var d := ['0' + (n % 10) as char];
    if n < 10 then d else NatToDecimal(n / 10) + d
  }

  lemma {:induction false} DigitsOfDecimal(n: nat)
    ensures DigitsValue(NatToDecimal(n), 10) == n
  {
    var s := NatToDecimal(n);
    if n >= 10 {
      DigitsOfDecimal(n / 10);
      assert s[..|s| - 1] == NatToDecimal(n / 10);
    }
  }

  /** A string with no white space at either end is its own trimmed form. */
  lemma TrimmedAlready(t: string)
    requires t != [] ==> !IsWhiteSpace(t[0]) && !IsWhiteSpace(t[|t| - 1])
    ensures Trim(t) == t
  {
  }

  /** A literal that starts with a minus sign is the negated unsigned number after it. */
  lemma NegativeLiteral(t: string)
    requires t != [] && t[0] == '-'
    ensures NumericLiteral(t) == if UnsignedNumber(t[1..]).Some? then Some(Negate(UnsignedNumber(t[1..]).value)) else None
  {
  }

  /** A non-empty string of decimal digits is its value to `Number`. */
  lemma DigitsNumber(s: string)
    requires s != "" && AllDigits(s)
    ensures ToNumber(s) == Some(Finite(DigitsValue(s, 10) as real))
  {
    DigitsAreDecimal(s);
    AllDigitsTrimmed(s);
    assert |s| >= 2 ==> RadixOf(s[1]) == 0;
    assert ToNumber(s) == NumericLiteral(s) == DecimalLiteral(s);
  }

  /** A minus sign before a non-empty string of decimal digits negates its value. */
  lemma NegatedDigits(t: string)
    requires |t| >= 2 && t[0] == '-' && AllDigits(t[1..])
    ensures ToNumber(t) == Some(Finite(-(DigitsValue(t[1..], 10) as real)))
  {
    var s := t[1..];
    DigitsAreDecimal(s);
    assert DecimalLiteral(s) == UnsignedNumber(s);
    assert t[|t| - 1] == s[|s| - 1];
    TrimmedAlready(t);
    NegativeLiteral(t);
    assert ToNumber(t) == NumericLiteral(t);
  }

  /** A literal that starts with a plus sign is the unsigned number after it. */
  lemma PlusLiteral(t: string)
    requires t != [] && t[0] == '+'
    ensures NumericLiteral(t) == UnsignedNumber(t[1..])
  {
  }

  /** A plus sign before a non-empty string of decimal digits keeps its value. */
  lemma PlusDigits(t: string)
    requires |t| >= 2 && t[0] == '+' && AllDigits(t[1..])
    ensures ToNumber(t) == Some(Finite(DigitsValue(t[1..], 10) as real))
  {
    var s := t[1..];
    DigitsAreDecimal(s);
    assert DecimalLiteral(s) == UnsignedNumber(s);
    assert t[|t| - 1] == s[|s| - 1];
    TrimmedAlready(t);
    PlusLiteral(t);
    assert ToNumber(t) == NumericLiteral(t);
  }

  /** A literal that starts with a digit or a point and has no exponent is a mantissa alone. */
  lemma PlainDecimal(t: string)
    requires t != [] && (IsDigit(t[0]) || t[0] == '.') && !IsWhiteSpace(t[|t| - 1])
    requires |t| >= 2 ==> RadixOf(t[1]) == 0
    requires 'e' !in t && 'E' !in t
    ensures ToNumber(t) == if DecimalMantissa(t).Some? then Some(Finite(DecimalMantissa(t).value)) else None
  {
    TrimmedAlready(t);
    assert t != "Infinity" by {
      assert "Infinity"[0] == 'I';
    }
    IndexOfAbsent(t, 'e');
    IndexOfAbsent(t, 'E');
    assert t[..|t|] == t;
  }

  /** Digits, a point and digits form a mantissa worth the whole part plus the fraction. */
  lemma FractionMantissa(t: string, d: nat)
    requires d < |t| && t[d] == '.' && |t| >= 2
    requires AllDigits(t[..d]) && AllDigits(t[d + 1..])
    ensures DecimalMantissa(t) == Some(MantissaValue(t[..d], t[d + 1..]))
  {
    assert IndexOf(t, '.') == d by {
      assert forall i | 0 <= i < d :: t[i] == t[..d][i];
    }
  }

  /** Digits around one point: the characters `PlainDecimal` asks about. */
  lemma FractionShape(t: string, d: nat)
    requires d < |t| && t[d] == '.' && |t| >= 2
    requires AllDigits(t[..d]) && AllDigits(t[d + 1..])
    ensures IsDigit(t[0]) || t[0] == '.'
    ensures IsDigit(t[|t| - 1]) || t[|t| - 1] == '.'
    ensures RadixOf(t[1]) == 0
    ensures 'e' !in t && 'E' !in t
  {
    if d > 0 {
      assert t[0] == t[..d][0];
    }
    if d < |t| - 1 {
      assert t[|t| - 1] == t[d + 1..][|t| - d - 2];
    }
    if d > 1 {
      assert t[1] == t[..d][1];
    } else if d == 0 {
      assert t[1] == t[d + 1..][0];
    }
    forall i | 0 <= i < |t|
      ensures t[i] != 'e' && t[i] != 'E'
    {
      if i < d {
        assert t[i] == t[..d][i];
      } else if i > d {
        assert t[i] == t[d + 1..][i - d - 1];
      }
    }
  }

  /**
   * `<digits>.<digits>`, where either side may be empty but not both
   * (`4.5`, `.5`, `4.`), is the whole part plus the fraction.
   */
  lemma FractionDigits(t: string, d: nat)
    requires d < |t| && t[d] == '.' && |t| >= 2
    requires AllDigits(t[..d]) && AllDigits(t[d + 1..])
    ensures ToNumber(t) == Some(Finite(MantissaValue(t[..d], t[d + 1..])))
  {
    FractionMantissa(t, d);
    FractionShape(t, d);
    PlainDecimal(t);
  }

  /** Digits, then `e` or `E`: a digit leads, no radix prefix follows, and the digits are the mantissa. */
  lemma ExponentShape(t: string, k: nat)
    requires 0 < k < |t| && (t[k] == 'e' || t[k] == 'E') && AllDigits(t[..k])
    ensures IsDigit(t[0]) && RadixOf(t[1]) == 0
    ensures MinNat(IndexOf(t, 'e'), IndexOf(t, 'E')) == k
    ensures DecimalMantissa(t[..k]) == Some(DigitsValue(t[..k], 10) as real)
  {
    assert IsDigit(t[0]) && RadixOf(t[1]) == 0 by {
      assert t[0] == t[..k][0];
      assert t[1] == if k > 1 then t[..k][1] else t[k];
    }
    assert MinNat(IndexOf(t, 'e'), IndexOf(t, 'E')) == k by {
      assert forall i | 0 <= i < k :: t[i] == t[..k][i];
    }
    DigitsMantissa(t[..k]);
  }

  /**
   * `<digits>e<sign><digits>` or `<digits>E<sign><digits>` with the sign
   * `-` or `+`: the first number times ten to the power of the signed second.
   */
  lemma SignedExponentDigits(t: string, k: nat)
    requires 0 < k && k + 2 < |t| && (t[k] == 'e' || t[k] == 'E') && (t[k + 1] == '-' || t[k + 1] == '+')
    requires AllDigits(t[..k]) && AllDigits(t[k + 2..])
    ensures ToNumber(t) == Some(Finite(Scale(DigitsValue(t[..k], 10) as real, SignedDigits(t[k + 1], t[k + 2..]))))
  {
    var m := DigitsValue(t[..k], 10) as real;
    var e := SignedDigits(t[k + 1], t[k + 2..]);
    assert UnsignedDecimal(t) == Some(Scale(m, e)) by {
      ExponentShape(t, k);
      assert t[k + 1..][1..] == t[k + 2..];
      MantissaAndExponent(t, k, m, e);
    }
    assert ToNumber(t) == Some(Finite(Scale(m, e))) by {
      assert t[|t| - 1] == t[k + 2..][|t| - k - 3];
      ExponentShape(t, k);
      DigitLeadLiteral(t);
    }
  }

  /** `0x`, `0o` or `0b` before digits of that base reads them in that base. */
  lemma PrefixedDigits(t: string)
    requires |t| >= 3 && t[0] == '0' && RadixOf(t[1]) > 0 && AllDigitsOf(t[2..], RadixOf(t[1]))
    ensures ToNumber(t) == Some(Finite(DigitsValue(t[2..], RadixOf(t[1])) as real))
  {
    TrimmedAlready(t);
  }

  /** `<digits>e<digits>` or `<digits>E<digits>` is the first number times ten to the power of the second. */
  lemma ExponentDigits(t: string, k: nat)
    requires 0 < k < |t| - 1 && (t[k] == 'e' || t[k] == 'E') && AllDigits(t[..k]) && AllDigits(t[k + 1..])
    ensures ToNumber(t) == Some(Finite(Scale(DigitsValue(t[..k], 10) as real, DigitsValue(t[k + 1..], 10))))
  {
    var m, e := DigitsValue(t[..k], 10) as real, DigitsValue(t[k + 1..], 10);
    assert UnsignedDecimal(t) == Some(Scale(m, e)) by {
      ExponentShape(t, k);
      assert ExponentValue(t[k + 1..]) == Some(e) by {
        assert t[k + 1..][0] != '-' && t[k + 1..][0] != '+';
      }
      MantissaAndExponent(t, k, m, e);
    }
    assert ToNumber(t) == Some(Finite(Scale(m, e))) by {
      assert t[|t| - 1] == t[k + 1..][|t| - k - 2];
      ExponentShape(t, k);
      DigitLeadLiteral(t);
    }
  }

  /** A literal that starts with a digit and has no radix prefix is an unsigned decimal literal. */
  lemma DigitLeadLiteral(t: string)
    requires t != [] && IsDigit(t[0]) && !IsWhiteSpace(t[|t| - 1])
    requires |t| >= 2 ==> RadixOf(t[1]) == 0
    ensures ToNumber(t) == if UnsignedDecimal(t).Some? then Some(Finite(UnsignedDecimal(t).value)) else None
  {
    TrimmedAlready(t);
    assert t != "Infinity" by {
      assert !IsDigit("Infinity"[0]);
    }
  }

  /** A literal whose parts before and after the first `e` or `E` are a mantissa and an exponent is worth their scaled value. */
  lemma MantissaAndExponent(s: string, k: nat, mv: real, ev: int)
    requires k == MinNat(IndexOf(s, 'e'), IndexOf(s, 'E')) && k < |s|
    requires DecimalMantissa(s[..k]) == Some(mv) && ExponentValue(s[k + 1..]) == Some(ev)
    ensures UnsignedDecimal(s) == Some(Scale(mv, ev))
  {
  }

  /** The decimal string of a natural number, as `String(n)` writes it, converts back to that number. */
  lemma DecimalRoundTrip(n: nat)
    ensures ToNumber(NatToDecimal(n)) == Some(Finite(n as real))
  {
    var s := NatToDecimal(n);
    DigitsNumber(s);
    DigitsOfDecimal(n);
  }

  /** Trimming a string surrounded by white space trims the surroundings too. */
  lemma {:induction false} TrimSurrounded(w1: string, s: string, w2: string)
    requires forall k | 0 <= k < |w1| :: IsWhiteSpace(w1[k])
    requires forall k | 0 <= k < |w2| :: IsWhiteSpace(w2[k])
    ensures Trim(w1 + s + w2) == Trim(s)
    decreases |w1| + |s| + |w2|
  {
    var x := w1 + s + w2;
    if w1 != [] {
      assert x[0] == w1[0] && x[1..] == w1[1..] + s + w2;
      TrimSurrounded(w1[1..], s, w2);
    } else if s != [] && IsWhiteSpace(s[0]) {
      assert x[0] == s[0] && x[1..] == [] + s[1..] + w2;
      TrimSurrounded([], s[1..], w2);
    } else if w2 != [] {
      assert x[|x| - 1] == w2[|w2| - 1];
      if s == [] {
        assert x[0] == w2[0] && x[1..] == [] + [] + w2[1..];
        TrimSurrounded([], [], w2[1..]);
      } else {
        assert x[0] == s[0] && x[..|x| - 1] == [] + s + w2[..|w2| - 1];
        TrimSurrounded([], s, w2[..|w2| - 1]);
      }
    } else {
      assert x == s;
    }
  }

  /** `Number` ignores white space of any kind around the literal. */
  lemma SurroundingWhiteSpaceIgnored(w1: string, s: string, w2: string)
    requires forall k | 0 <= k < |w1| :: IsWhiteSpace(w1[k])
    requires forall k | 0 <= k < |w2| :: IsWhiteSpace(w2[k])
    ensures ToNumber(w1 + s + w2) == ToNumber(s)
  {
    TrimSurrounded(w1, s, w2);
  }

  /** A mantissa that starts with a letter is not one. */
  lemma LetterMantissa(m: string)
    requires m != [] ==> IsAsciiLetter(m[0])
    ensures DecimalMantissa(m).None?
  {
    if m != [] {
      var dot := IndexOf(m, '.');
      assert dot > 0;
      assert !IsDigit(m[..dot][0]);
    }
  }

  /**
   * A word of ASCII letters is NaN, so it is no length, unless it is
   * exactly `Infinity`, the one word `Number` accepts.
   */
  lemma WordIsNaN(s: string)
    requires s != [] && forall k | 0 <= k < |s| :: IsAsciiLetter(s[k])
    ensures IsNaN(s) <==> s != "Infinity"
  {
    TrimmedAlready(s);
    if s != "Infinity" {
      var k := MinNat(IndexOf(s, 'e'), IndexOf(s, 'E'));
      LetterMantissa(s[..k]);
    }
  }

  /** A no-break space before the digits is trimmed like any other white space: `\u00A045` is 45, not NaN. */
  lemma NoBreakSpaceExample()
    ensures ToNumber("\U{A0}45") == Some(Finite(45.0)) && !IsNaN("\U{A0}45")
  {
    assert "\U{A0}45" == "\U{A0}" + "45" + "";
    SurroundingWhiteSpaceIgnored("\U{A0}", "45", "");
    DigitsNumber("45");
  }

  /** `1e2` is the number 100. */
  lemma ExponentExample()
    ensures ToNumber("1e2") == Some(Finite(100.0))
  {
    assert "1e2"[..1] == "1" && "1e2"[2..] == "2";
    assert DigitsValue("1", 10) == 1 && DigitsValue("2", 10) == 2 && Scale(1.0, 2) == 100.0;
    ExponentDigits("1e2", 1);
  }

  /** `0x1f` is the number 31. */
  lemma HexExample()
    ensures ToNumber("0x1f") == Some(Finite(31.0))
  {
    assert "0x1f"[2..] == "1f" && "1f"[..1] == "1";
    assert DigitsValue("1f", 16) == 31;
    PrefixedDigits("0x1f");
  }
}
