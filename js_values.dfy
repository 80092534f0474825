/** The part of ECMAScript value semantics the pivot table relies on: the
    values a record field can hold, ToString (section 7.1.17 of ECMA-262),
    which is also how an object property key is formed from a value, and the
    global `isNaN` (section 19.2.3), which applies ToNumber (section 7.1.4).
    On strings ToNumber succeeds exactly when the string is a
    StringNumericLiteral (section 7.1.4.1.1); that grammar is a regular
    language, recognised here by the scanner `Step`/`Run`. */
module JsValues {

  /** A JavaScript value as a record field can hold it. Numbers other than
      NaN are integral here (`Num`): dates, years, week numbers and epoch
      milliseconds are whole numbers. */
  datatype JsValue = Undefined | Null | Bool(b: bool) | Num(n: int) | NaN | Str(s: string)

  predicate IsDigit(c: char) {
    '0' <= c <= '9'
  }

  predicate AllDigits(s: string) {
    forall i :: 0 <= i < |s| ==> IsDigit(s[i])
  }

  function DigitChar(d: nat): (c: char)
    requires d < 10
    ensures IsDigit(c) && (c == '0' <==> d == 0)
  {
    (48 + d) as char
  }

  /** Decimal notation of a natural number: most significant digit first and
      no leading zero. */
  function NatToString(n: nat): (s: string)
    ensures |s| > 0 && AllDigits(s)
    ensures s[0] == '0' ==> n == 0
    decreases n
  {
    if n < 10 then [DigitChar(n)] else NatToString(n / 10) + [DigitChar(n % 10)]
  }

  /** Number::toString (section 6.1.6.1.20 of ECMA-262) on an integral value:
      an optional minus sign, then the decimal digits. */
  function IntToString(n: int): (s: string)
    ensures |s| > 0 && IsDigit(s[|s| - 1])
    ensures n < 0 <==> s[0] == '-'
    ensures n >= 0 ==> AllDigits(s)
  {
    if n < 0 then "-" + NatToString(-n) else NatToString(n)
  }

  /** ToString of a value; for a non-symbol value this is also ToPropertyKey,
      the key under which `obj[v]` stores a property. */
  function ToString(v: JsValue): string {
    match v
    case Undefined => "undefined"
    case Null => "null"
    case Bool(b) => if b then "true" else "false"
    case Num(n) => IntToString(n)
    case NaN => "NaN"
    case Str(s) => s
  }

  /** StrWhiteSpaceChar: the WhiteSpace and LineTerminator code points. */
  predicate IsStrWhiteSpace(c: char) {
    c == '\t' || c == '\U{B}' || c == '\U{C}' || c == ' ' || c == '\U{A0}' || c == '\U{FEFF}'
    || c == '\U{1680}' || ('\U{2000}' <= c <= '\U{200A}') || c == '\U{202F}' || c == '\U{205F}'
    || c == '\U{3000}' || c == '\n' || c == '\r' || c == '\U{2028}' || c == '\U{2029}'
  }

  predicate IsRadixDigit(c: char, radix: nat) {
    if radix == 16 then IsDigit(c) || ('a' <= c <= 'f') || ('A' <= c <= 'F')
    else if radix == 8 then '0' <= c <= '7'
    else c == '0' || c == '1'
  }

  const InfinityWord := "Infinity"

  /** States of the StringNumericLiteral scanner. `Zero` is a lone unsigned
      leading 0, which may still turn into a 0x / 0o / 0b prefix; `Word(k)`
      has read the first k letters of "Infinity"; `Dead` has seen a character
      no numeric literal can continue with. */
  datatype Scan =
    | Lead | Signed | Zero | Whole | Dot | Frac | ExpMark | ExpSign | Exp
    | RadixMark(radix: nat) | RadixDigits(radix: nat) | Word(matched: nat)
    | Trail | Dead

  /** The scanner accepts the whole string in this state. Leading white space
      alone is accepted: ToNumber of an empty or blank string is 0. */
  predicate Accepting(q: Scan) {
    q == Lead || q == Zero || q == Whole || q == Frac || q == Exp
    || q.RadixDigits? || q == Word(8) || q == Trail
  }

  /** After a complete literal only white space may follow. */
  function Ending(c: char): Scan {
    if IsStrWhiteSpace(c) then Trail else Dead
  }

  /** First character of a StrNumericLiteral; a sign is allowed only before a
      decimal literal, and only once. */
  function Start(c: char, unsigned: bool): Scan {
    if c == '0' && unsigned then Zero
    else if IsDigit(c) then Whole
    else if c == '.' then Dot
    else if c == 'I' then Word(1)
    else if unsigned && (c == '+' || c == '-') then Signed
    else Dead
  }

  /** After the digits of the integer part. */
  function AfterWhole(c: char): Scan {
    if IsDigit(c) then Whole
    else if c == '.' then Frac
    else if c == 'e' || c == 'E' then ExpMark
    else Ending(c)
  }

  function Step(q: Scan, c: char): Scan {
    match q
    case Lead => if IsStrWhiteSpace(c) then Lead else Start(c, true)
    case Signed => Start(c, false)
    case Zero =>
      if c == 'x' || c == 'X' then RadixMark(16)
      else if c == 'o' || c == 'O' then RadixMark(8)
      else if c == 'b' || c == 'B' then RadixMark(2)
      else AfterWhole(c)
    case Whole => AfterWhole(c)
    case Dot => if IsDigit(c) then Frac else Dead
    case Frac =>
      if IsDigit(c) then Frac else if c == 'e' || c == 'E' then ExpMark else Ending(c)
    case ExpMark =>
      if c == '+' || c == '-' then ExpSign else if IsDigit(c) then Exp else Dead
    case ExpSign => if IsDigit(c) then Exp else Dead
    case Exp => if IsDigit(c) then Exp else Ending(c)
    case RadixMark(r) => if IsRadixDigit(c, r) then RadixDigits(r) else Dead
    case RadixDigits(r) => if IsRadixDigit(c, r) then RadixDigits(r) else Ending(c)
    case Word(k) =>
      if k < |InfinityWord| && c == InfinityWord[k] then Word(k + 1)
      else if k == |InfinityWord| then Ending(c)
      else Dead
    case Trail => Ending(c)
    case Dead => Dead
  }

  /** The scanner state after reading `s` from left to right. */
  function Run(q: Scan, s: string): Scan
    decreases |s|
  {
    if s == [] then q else Run(Step(q, s[0]), s[1..])
  }

  /** `s` is a StringNumericLiteral, so ToNumber(s) is a number and not NaN. */
  predicate IsNumericString(s: string) {
    Accepting(Run(Lead, s))
  }

  /** The global `isNaN(v)`: ToNumber(v) is NaN. undefined converts to NaN,
      null and booleans to 0 or 1, and a string to NaN exactly when it is not
      a StringNumericLiteral. */
  predicate IsNaN(v: JsValue) {
    match v
    case Undefined => true
    case Null => false
    case Bool(_) => false
    case Num(_) => false
    case NaN => true
    case Str(s) => !IsNumericString(s)
  }

  lemma {:induction false} RunAppend(q: Scan, x: string, y: string)
    ensures Run(q, x + y) == Run(Run(q, x), y)
    decreases |x|
  {
    if x != [] {
      assert (x + y)[0] == x[0];
      assert (x + y)[1..] == x[1..] + y;
      assert Run(q, x + y) == Run(Step(q, x[0]), x[1..] + y);
      RunAppend(Step(q, x[0]), x[1..], y);
      assert Run(q, x) == Run(Step(q, x[0]), x[1..]);
    } else {
      assert x + y == y;
    }
  }

  /** Once dead, the scanner stays dead. */
  lemma {:induction false} RunDead(s: string)
    ensures Run(Dead, s) == Dead
    decreases |s|
  {
    if s != [] {
      RunDead(s[1..]);
    }
  }

  /** A string whose first character can start no literal is not numeric. */
  lemma DeadStart(s: string)
    requires |s| > 0 && Step(Lead, s[0]) == Dead
    ensures !IsNumericString(s)
  {
    RunDead(s[1..]);
  }

  /** A minus sign right after a digit can never be part of a numeric
      literal: a sign may only open the literal or follow an exponent mark. */
  lemma MinusAfterDigit(q: Scan, c: char)
    requires IsDigit(c)
    ensures Step(Step(q, c), '-') == Dead
  {
  }

  /** Every string of the form "<digits>-<anything>" is not numeric, so
      `isNaN` holds of it. */
  lemma DigitDashIsNaN(a: string, b: string)
    requires |a| > 0 && IsDigit(a[|a| - 1])
    ensures IsNaN(Str(a + "-" + b))
  {
    var init := a[..|a| - 1];
    var d := a[|a| - 1];
    assert a + "-" + b == init + ([d] + ("-" + b));
    RunAppend(Lead, init, [d] + ("-" + b));
    var q := Run(Lead, init);
    assert Run(q, [d] + ("-" + b)) == Run(Step(q, d), "-" + b);
    assert Run(Step(q, d), "-" + b) == Run(Step(Step(q, d), '-'), b);
    MinusAfterDigit(q, d);
    RunDead(b);
  }

  /** Reading further digits from a state that has read digits of the
      integer part leaves it there. */
  lemma {:induction false} RunWholeDigits(s: string)
    requires AllDigits(s)
    ensures Run(Whole, s) == Whole
    decreases |s|
  {
    if s != [] {
      RunWholeDigits(s[1..]);
    }
  }

  /** The decimal notation of an integer, as a string, is numeric: `isNaN`
      does not hold of "2024" or "-7". */
  lemma IntStringIsNumeric(n: int)
    ensures !IsNaN(Str(IntToString(n)))
  {
    var s := IntToString(n);
    if n < 0 {
      var digits := NatToString(-n);
      assert s == "-" + digits;
      assert Run(Lead, s) == Run(Signed, digits);
      assert Run(Signed, digits) == Run(Whole, digits[1..]);
      RunWholeDigits(digits[1..]);
    } else {
      var t := s[1..];
      assert AllDigits(t);
      assert Run(Lead, s) == Run(Step(Lead, s[0]), t);
      if s[0] != '0' {
        RunWholeDigits(t);
      }
    }
  }

  /** `isNaN` on the kinds of value a key can be: undefined and NaN are NaN,
      null and booleans are not. */
  lemma IsNaNOfValues()
    ensures IsNaN(Undefined) && IsNaN(NaN) && !IsNaN(Null) && !IsNaN(Bool(true))
  {
  }

  /** Numeric strings: surrounding white space is ignored and the empty
      string is 0. */
  lemma BlankStringExamples()
    ensures !IsNaN(Str("")) && !IsNaN(Str(" 42\n"))
  {
    assert Run(Lead, " 42\n") == Trail by {
      assert Run(Lead, " 42\n") == Run(Lead, "42\n");
      assert Run(Lead, "42\n") == Run(Whole, "2\n");
      assert Run(Whole, "2\n") == Run(Whole, "\n");
    }
  }

  /** Numeric strings: a decimal literal may carry a sign, a fraction and an
      exponent, and may start with its dot. */
  lemma DecimalStringExamples()
    ensures !IsNaN(Str("-1.5e3")) && !IsNaN(Str(".5"))
  {
    assert Run(Lead, "-1.5e3") == Exp by {
      assert Run(Lead, "-1.5e3") == Run(Signed, "1.5e3");
      assert Run(Signed, "1.5e3") == Run(Whole, ".5e3");
      assert Run(Whole, ".5e3") == Run(Frac, "5e3");
      assert Run(Frac, "5e3") == Run(Frac, "e3");
      assert Run(Frac, "e3") == Run(ExpMark, "3");
    }
    assert Run(Lead, ".5") == Frac by {
      assert Run(Lead, ".5") == Run(Dot, "5");
    }
  }

  /** Numeric strings: unsigned hexadecimal, octal and binary literals. */
  lemma RadixStringExamples()
    ensures !IsNaN(Str("0x1F")) && !IsNaN(Str("0o17")) && !IsNaN(Str("0b10"))
  {
    assert Run(Lead, "0x1F") == RadixDigits(16) by {
      assert Run(Lead, "0x1F") == Run(Zero, "x1F");
      assert Run(Zero, "x1F") == Run(RadixMark(16), "1F");
      assert Run(RadixMark(16), "1F") == Run(RadixDigits(16), "F");
    }
  }

  /** Strings that are NaN: a date-like string and the word NaN. */
  lemma NonNumericStringExamples()
    ensures IsNaN(Str("2024-3")) && IsNaN(Str("NaN"))
  {
    DeadStart("NaN");
    assert "2024" + "-" + "3" == "2024-3";
    DigitDashIsNaN("2024", "3");
  }

  /** A number followed by letters is NaN. */
  lemma TrailingLetterExample()
    ensures IsNaN(Str("12px"))
  {
    assert Run(Lead, "12px") == Run(Dead, "x") by {
      assert Run(Lead, "12px") == Run(Whole, "2px");
      assert Run(Whole, "2px") == Run(Whole, "px");
    }
    RunDead("x");
  }

  /** A sign is allowed only before a decimal literal: a signed hexadecimal
      literal is NaN. */
  lemma SignedRadixExample()
    ensures IsNaN(Str("-0x1F"))
  {
    assert Run(Lead, "-0x1F") == Run(Dead, "1F") by {
      assert Run(Lead, "-0x1F") == Run(Signed, "0x1F");
      assert Run(Signed, "0x1F") == Run(Whole, "x1F");
      assert Run(Whole, "x1F") == Run(Dead, "1F");
    }
    RunDead("1F");
  }

  /** Malformed decimal literals are NaN too: an exponent without digits and
      a lone dot. */
  lemma MalformedLiteralExamples()
    ensures IsNaN(Str("1e")) && IsNaN(Str("."))
  {
    assert Run(Lead, "1e") == ExpMark by {
      assert Run(Lead, "1e") == Run(Whole, "e");
    }
    assert Run(Lead, ".") == Dot by {
      assert Run(Lead, ".") == Run(Dot, "");
    }
  }
}
