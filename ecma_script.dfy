/** The fragment of JavaScript's value semantics that the client's arithmetic and
    response normalisation depend on: numbers (whole paise, or NaN), truthiness and
    `||`, `Number.prototype.toString` on integers, and the string-to-number
    conversions `parseInt`, `parseFloat` and ToNumber. */
module EcmaScript {

  /** A JavaScript number. Every amount in the client is a whole number of paise, so
      the finite numbers are integers; NaN is kept because `parseFloat` and `*` can
      produce it and it propagates through `+`. */
  datatype Number = Finite(value: int) | NaN

  function Add(a: Number, b: Number): Number {
    if a.Finite? && b.Finite? then Finite(a.value + b.value) else NaN
  }

  function Mul(a: Number, b: Number): Number {
    if a.Finite? && b.Finite? then Finite(a.value * b.value) else NaN
  }

  /** A JSON-shaped JavaScript value as a fetch response delivers it. */
  datatype JsValue =
    | JsUndefined
    | JsNull
    | JsBool(b: bool)
    | JsNumber(n: Number)
    | JsString(s: string)
    | JsArray(elements: seq<JsValue>)
    | JsObject(properties: map<string, JsValue>)

  /** What an expression evaluates to: a value, or a thrown exception. */
  datatype Completion<T> = Normal(value: T) | Throw(error: Exception)

  /** A thrown exception: a TypeError raised by the engine (reading a property of
      null or undefined, calling something that is not a function), or an `Error`
      with a message. */
  datatype Exception = TypeError | Error(message: string)

  /** ToBoolean: the falsy values are undefined, null, false, 0, NaN and "". */
  predicate Truthy(v: JsValue) {
    match v
    case JsUndefined => false
    case JsNull => false
    case JsBool(b) => b
    case JsNumber(n) => n.Finite? && n.value != 0
    case JsString(s) => s != ""
    case JsArray(_) => true
    case JsObject(_) => true
  }

  /** `a || b` */
  function Or(a: JsValue, b: JsValue): (r: JsValue)
    ensures Truthy(r) <==> Truthy(a) || Truthy(b)
  {
    if Truthy(a) then a else b
  }

  /** `v.key` on a value that is neither null nor undefined: an own property of an
      object, and undefined otherwise (the prototype properties of strings and arrays,
      such as `length`, are not modelled). */
  function Get(v: JsValue, key: string): JsValue {
    if v.JsObject? && key in v.properties then v.properties[key] else JsUndefined
  }

  /** The own properties that `{...v}` copies: those of an object, none for a
      primitive. */
  function Spread(v: JsValue): map<string, JsValue> {
    if v.JsObject? then v.properties else map[]
  }

  predicate IsNullish(v: JsValue) {
    v.JsUndefined? || v.JsNull?
  }

  // ---------------------------------------------------------------------------
  // Strings and digits

  /** StrWhiteSpaceChar of ECMA-262: WhiteSpace (tab, vertical tab, form feed, space,
      no-break space, zero-width no-break space and the space separators) and
      LineTerminator (line feed, carriage return, line and paragraph separators). */
  predicate IsStrWhiteSpace(c: char) {
    c == '\t' || c == '\n' || c == '\U{B}' || c == '\U{C}' || c == '\r' || c == ' '
    || c == '\U{A0}' || c == '\U{1680}' || ('\U{2000}' <= c <= '\U{200A}')
    || c == '\U{2028}' || c == '\U{2029}' || c == '\U{202F}' || c == '\U{205F}'
    || c == '\U{3000}' || c == '\U{FEFF}'
  }

  /** The string with its leading white space removed. */
  function TrimStart(s: string): (r: string)
    ensures |r| <= |s| && r == s[|s| - |r|..]
    ensures forall i :: 0 <= i < |s| - |r| ==> IsStrWhiteSpace(s[i])
    ensures r == [] || !IsStrWhiteSpace(r[0])
  {
    if s != [] && IsStrWhiteSpace(s[0]) then TrimStart(s[1..]) else s
  }

  /** The string with its trailing white space removed. */
  function TrimEnd(s: string): (r: string)
    ensures |r| <= |s| && r == s[..|r|]
    ensures forall i :: |r| <= i < |s| ==> IsStrWhiteSpace(s[i])
    ensures r == [] || !IsStrWhiteSpace(r[|r| - 1])
  {
    if s != [] && IsStrWhiteSpace(s[|s| - 1]) then TrimEnd(s[..|s| - 1]) else s
  }

  /** The value of a digit character in radixes up to 36; 36 for anything else. */
  function DigitValue(c: char): (d: nat)
    ensures d <= 36
    ensures d < 10 <==> '0' <= c <= '9'
  {
    if '0' <= c <= '9' then c as int - '0' as int
    else if 'a' <= c <= 'z' then c as int - 'a' as int + 10
    else if 'A' <= c <= 'Z' then c as int - 'A' as int + 10
    else 36
  }

  /** The length of the longest prefix of `s` made of digits of the given radix. */
  function LeadingDigits(s: string, radix: nat): (n: nat)
    ensures n <= |s|
    ensures forall i :: 0 <= i < n ==> DigitValue(s[i]) < radix
    ensures n == |s| || DigitValue(s[n]) >= radix
  {
    if s == [] || DigitValue(s[0]) >= radix then 0 else 1 + LeadingDigits(s[1..], radix)
  }

  /** The positional value of a digit string, most significant digit first. */
  function DigitsValue(s: string, radix: nat): nat {
    if s == [] then 0 else DigitsValue(s[..|s| - 1], radix) * radix + DigitValue(s[|s| - 1])
  }

  /** The string with one leading `+` or `-` removed. */
  function DropSign(t: string): string {
    if |t| > 0 && (t[0] == '-' || t[0] == '+') then t[1..] else t
  }

  predicate StartsWithMinus(t: string) {
    |t| > 0 && t[0] == '-'
  }

  predicate HasHexPrefix(u: string) {
    |u| >= 2 && u[0] == '0' && (u[1] == 'x' || u[1] == 'X')
  }

  /** The longest digit prefix of `u` in the radix, read as a number and signed;
      NaN when there is no digit at all. */
  function SignedDigitPrefix(u: string, radix: nat, negative: bool): (r: Number)
    ensures r.NaN? <==> LeadingDigits(u, radix) == 0
  {
    var z := u[..LeadingDigits(u, radix)];
    var magnitude: int := DigitsValue(z, radix);
    if z == [] then NaN
    else if negative then Finite(-magnitude)
    else Finite(magnitude)
  }

  /** `parseInt(s)` with no radix argument (ECMA-262, section 19.2.5): leading white
      space is skipped, one sign is accepted, a `0x` or `0X` prefix selects radix
      16 and radix 10 is used otherwise; the longest run of digits that follows is
      the result, and NaN when there is none. (A negative zero is the integer 0.) */
  function ParseInt(s: string): Number {
    var t := TrimStart(s);
    var u := DropSign(t);
    if HasHexPrefix(u) then SignedDigitPrefix(u[2..], 16, StartsWithMinus(t))
    else SignedDigitPrefix(u, 10, StartsWithMinus(t))
  }

  /** `parseFloat(s)` (ECMA-262, section 19.2.4) on strings whose numeric prefix is an
      optionally signed run of decimal digits: white space is skipped, one sign is
      accepted, and there is no hexadecimal prefix. */
  function ParseFloat(s: string): Number {
    var t := TrimStart(s);
    SignedDigitPrefix(DropSign(t), 10, StartsWithMinus(t))
  }

  /** ToNumber applied to a string (ECMA-262, section 7.1.4.1.1) for decimal integer
      literals: surrounding white space is ignored, an empty string is 0, and the
      rest must be an optionally signed run of decimal digits, or the result is NaN. */
  function StringToNumber(s: string): Number {
    var t := TrimEnd(TrimStart(s));
    var u := DropSign(t);
    if t == [] then Finite(0)
    else if u != [] && LeadingDigits(u, 10) == |u| then SignedDigitPrefix(u, 10, StartsWithMinus(t))
    else NaN
  }

  /** ToNumber (ECMA-262, section 7.1.4), as `*` applies it to its operands. */
  function ToNumber(v: JsValue): Number {
    match v
    case JsUndefined => NaN
    case JsNull => Finite(0)
    case JsBool(b) => Finite(if b then 1 else 0)
    case JsNumber(n) => n
    case JsString(s) => StringToNumber(s)
    case JsArray(_) => NaN
    case JsObject(_) => NaN
  }

  /** `n.toString()` for a non-negative integer: its decimal digits, with no leading
      zero. */
  function NatToString(n: nat): (s: string)
    ensures |s| >= 1
    ensures forall i :: 0 <= i < |s| ==> '0' <= s[i] <= '9'
    ensures s[0] == '0' <==> n == 0
  {
    if n < 10 then [('0' as int + n) as char]
    else NatToString(n / 10) + [('0' as int + n % 10) as char]
  }

  /** `n.toString()` for an integer below 10^21 in magnitude: a minus sign for a
      negative number, then the decimal digits of its magnitude. */
  function IntToString(n: int): string {
    if n < 0 then "-" + NatToString(-n) else NatToString(n)
  }

  /** `s.includes(sub)` */
  predicate Contains(s: string, sub: string)
    decreases |s|
  {
    (|sub| <= |s| && s[..|sub|] == sub) || (s != [] && Contains(s[1..], sub))
  }

  // ---------------------------------------------------------------------------
  // Properties of the conversions

  lemma {:induction false} DigitsValueOfNatToString(n: nat)
    ensures DigitsValue(NatToString(n), 10) == n
  {
    var s := NatToString(n);
    if n < 10 {
      assert s[..|s| - 1] == [];
    } else {
      assert s[..|s| - 1] == NatToString(n / 10);
      DigitsValueOfNatToString(n / 10);
    }
  }

  lemma LeadingDigitsOfNatToString(n: nat, rest: string)
    requires rest == [] || DigitValue(rest[0]) >= 10
    ensures LeadingDigits(NatToString(n) + rest, 10) == |NatToString(n)|
    ensures (NatToString(n) + rest)[..|NatToString(n)|] == NatToString(n)
  {
    var s := NatToString(n);
    assert forall i :: 0 <= i < |s| ==> (s + rest)[i] == s[i];
    assert |s| < |s + rest| ==> (s + rest)[|s|] == rest[0];
  }

  lemma {:induction false} SignedPrefixOfNatToString(m: nat, rest: string, negative: bool)
    requires rest == [] || DigitValue(rest[0]) >= 10
    ensures SignedDigitPrefix(NatToString(m) + rest, 10, negative) == Finite(if negative then -(m as int) else m as int)
  {
    LeadingDigitsOfNatToString(m, rest);
    DigitsValueOfNatToString(m);
  }

  lemma NoLeadingSpace(s: string)
    requires s != [] && !IsStrWhiteSpace(s[0])
    ensures TrimStart(s) == s
  {
  }

  lemma MinusIsNotSpace()
    ensures !IsStrWhiteSpace('-')
  {
  }

  /** A minus sign, digits and anything after them: no leading white space, and the
      sign is dropped. */
  lemma NegativeForm(m: nat, rest: string)
    ensures var s := "-" + NatToString(m) + rest;
      TrimStart(s) == s && StartsWithMinus(s) && DropSign(s) == NatToString(m) + rest
  {
    var u := NatToString(m) + rest;
    var s := "-" + NatToString(m) + rest;
    assert s == ['-'] + u;
    assert s[0] == '-' && s[1..] == u;
    MinusIsNotSpace();
    NoLeadingSpace(s);
  }

  /** Digits and anything after them: no leading white space and no sign. */
  lemma NonNegativeForm(m: nat, rest: string)
    ensures var s := NatToString(m) + rest;
      TrimStart(s) == s && !StartsWithMinus(s) && DropSign(s) == s
  {
    var s := NatToString(m) + rest;
    assert s[0] == NatToString(m)[0];
    NoLeadingSpace(s);
  }

  lemma {:induction false} NoHexPrefixOfNatToString(m: nat, rest: string)
    requires m == 0 ==> rest == [] || (rest[0] != 'x' && rest[0] != 'X')
    ensures !HasHexPrefix(NatToString(m) + rest)
  {
    var digits := NatToString(m);
    var u := digits + rest;
    assert u[0] == digits[0];
    if m == 0 {
      assert |digits| == 1;
      assert |u| >= 2 ==> u[1] == rest[0];
    }
  }

  /** The decimal string of an integer, followed by anything that does not continue
      the number, is parsed back to that integer by both `parseInt` and
      `parseFloat`. */
  lemma ParseIntToString(n: int, rest: string)
    requires rest == [] || DigitValue(rest[0]) >= 10
    requires n == 0 ==> rest == [] || (rest[0] != 'x' && rest[0] != 'X')
    ensures ParseInt(IntToString(n) + rest) == Finite(n)
    ensures ParseFloat(IntToString(n) + rest) == Finite(n)
  {
    var m := if n < 0 then -n else n;
    if n < 0 {
      NegativeForm(m, rest);
    } else {
      NonNegativeForm(m, rest);
    }
    NoHexPrefixOfNatToString(m, rest);
    SignedPrefixOfNatToString(m, rest, n < 0);
  }

  lemma ParseIntOfIntToString(n: int)
    ensures ParseInt(IntToString(n)) == Finite(n)
    ensures ParseFloat(IntToString(n)) == Finite(n)
  {
    ParseIntToString(n, "");
    assert IntToString(n) + "" == IntToString(n);
  }

  lemma NoTrailingSpace(s: string)
    requires s != [] && !IsStrWhiteSpace(s[|s| - 1])
    ensures TrimEnd(s) == s
  {
  }

  lemma DigitIsNotSpace(c: char)
    requires '0' <= c <= '9'
    ensures !IsStrWhiteSpace(c)
  {
  }

  /** A non-empty string ending in a digit has no trailing white space. */
  lemma EndsWithDigit(s: string)
    requires s != [] && '0' <= s[|s| - 1] <= '9'
    ensures TrimEnd(s) == s
  {
    DigitIsNotSpace(s[|s| - 1]);
    NoTrailingSpace(s);
  }

  /** A string that starts and ends with a decimal digit has no surrounding white
      space and no sign. */
  lemma DigitRunForm(d: string)
    requires d != [] && '0' <= d[0] <= '9' && '0' <= d[|d| - 1] <= '9'
    ensures TrimEnd(TrimStart(d)) == d && !StartsWithMinus(d) && DropSign(d) == d
  {
    DigitIsNotSpace(d[0]);
    NoLeadingSpace(d);
    EndsWithDigit(d);
  }

  /** The same after a minus sign: no surrounding white space, and the sign is
      dropped. */
  lemma NegativeDigitRunForm(d: string)
    requires d != [] && '0' <= d[|d| - 1] <= '9'
    ensures var s := "-" + d;
      TrimEnd(TrimStart(s)) == s && StartsWithMinus(s) && DropSign(s) == d
  {
    var s := "-" + d;
    assert s[0] == '-' && s[1..] == d && s[|s| - 1] == d[|d| - 1];
    MinusIsNotSpace();
    NoLeadingSpace(s);
    EndsWithDigit(s);
  }

  lemma NatToStringEnds(m: nat)
    ensures var d := NatToString(m); '0' <= d[0] <= '9' && '0' <= d[|d| - 1] <= '9'
  {
  }

  /** The decimal string of a negative integer has no surrounding white space, and
      is a minus sign followed by the magnitude's digits. */
  lemma NegativeIntToStringForm(m: nat)
    requires m > 0
    ensures var s := IntToString(-(m as int));
      TrimEnd(TrimStart(s)) == s && StartsWithMinus(s) && DropSign(s) == NatToString(m)
  {
    var d := NatToString(m);
    NatToStringEnds(m);
    assert IntToString(-(m as int)) == "-" + d;
    NegativeDigitRunForm(d);
  }

  /** The decimal string of a non-negative integer has no surrounding white space
      and no sign. */
  lemma NonNegativeIntToStringForm(m: nat)
    ensures var s := IntToString(m);
      TrimEnd(TrimStart(s)) == s && !StartsWithMinus(s) && DropSign(s) == NatToString(m)
  {
    var d := NatToString(m);
    NatToStringEnds(m);
    assert IntToString(m) == d;
    DigitRunForm(d);
  }

  /** The digits of `m.toString()` are all decimal digits and read back, signed, as
      m or -m. */
  lemma NatToStringDigits(m: nat, negative: bool)
    ensures LeadingDigits(NatToString(m), 10) == |NatToString(m)|
    ensures SignedDigitPrefix(NatToString(m), 10, negative) == Finite(if negative then -(m as int) else m as int)
  {
    var digits := NatToString(m);
    assert digits + "" == digits;
    LeadingDigitsOfNatToString(m, "");
    SignedPrefixOfNatToString(m, "", negative);
  }

  /** ToNumber of a string without surrounding white space that is an optional
      sign followed by decimal digits only. */
  lemma StringToNumberOfDigits(s: string)
    requires s != [] && TrimEnd(TrimStart(s)) == s
    requires DropSign(s) != [] && LeadingDigits(DropSign(s), 10) == |DropSign(s)|
    ensures StringToNumber(s) == SignedDigitPrefix(DropSign(s), 10, StartsWithMinus(s))
  {
  }

  /** ToNumber reads the decimal string of an integer back as that integer. */
  lemma StringToNumberOfIntToString(n: int)
    ensures StringToNumber(IntToString(n)) == Finite(n)
  {
    var m: nat := if n < 0 then -n else n;
    if n < 0 {
      NegativeIntToStringForm(m);
    } else {
      NonNegativeIntToStringForm(m);
    }
    NatToStringDigits(m, n < 0);
    StringToNumberOfDigits(IntToString(n));
  }

  /** A string whose first character after white space and one sign is not a decimal
      digit (or that has nothing there) is NaN for `parseInt`, and for `parseFloat`
      too unless that character is `.` or `I`, which JavaScript reads as the start of
      a fraction or of `Infinity`. */
  lemma NoDigitsIsNaN(s: string)
    requires var u := DropSign(TrimStart(s)); u == [] || DigitValue(u[0]) >= 10
    ensures ParseInt(s) == NaN
    ensures var u := DropSign(TrimStart(s)); u == [] || (u[0] != '.' && u[0] != 'I') ==> ParseFloat(s) == NaN
  {
  }

  /** A run of digits of the radix followed by anything that does not start with
      one is the longest digit prefix. */
  lemma {:induction false} LeadingDigitsOfRun(d: string, rest: string, radix: nat)
    requires forall i :: 0 <= i < |d| ==> DigitValue(d[i]) < radix
    requires rest == [] || DigitValue(rest[0]) >= radix
    ensures LeadingDigits(d + rest, radix) == |d|
    ensures (d + rest)[..|d|] == d
  {
    if d == [] {
      assert d + rest == rest;
    } else {
      assert (d + rest)[0] == d[0];
      assert (d + rest)[1..] == d[1..] + rest;
      LeadingDigitsOfRun(d[1..], rest, radix);
    }
  }

  /** White space in front of a string that does not start with white space is
      exactly what TrimStart drops. */
  lemma {:induction false} TrimStartOfSpaces(w: string, s: string)
    requires forall i :: 0 <= i < |w| ==> IsStrWhiteSpace(w[i])
    requires s == [] || !IsStrWhiteSpace(s[0])
    ensures TrimStart(w + s) == s
  {
    if w == [] {
      assert w + s == s;
    } else {
      assert (w + s)[0] == w[0];
      assert (w + s)[1..] == w[1..] + s;
      TrimStartOfSpaces(w[1..], s);
    }
  }

  /** A run of decimal digits followed by anything that does not start with one
      has no sign, and its digit prefix is the run. */
  lemma DecimalRunForm(d: string, rest: string)
    requires d != [] && forall i :: 0 <= i < |d| ==> '0' <= d[i] <= '9'
    requires rest == [] || DigitValue(rest[0]) >= 10
    ensures var s := d + rest;
      && !IsStrWhiteSpace(s[0]) && DropSign(s) == s && !StartsWithMinus(s)
      && SignedDigitPrefix(s, 10, false) == Finite(DigitsValue(d, 10))
  {
    var s := d + rest;
    assert s[0] == d[0];
    DigitIsNotSpace(s[0]);
    LeadingDigitsOfRun(d, rest, 10);
  }

  /** Such a run starts with a hexadecimal prefix only when it is a single zero
      followed by `x` or `X`. */
  lemma DecimalRunHex(d: string, rest: string)
    requires d != [] && forall i :: 0 <= i < |d| ==> '0' <= d[i] <= '9'
    ensures HasHexPrefix(d + rest) <==> d == "0" && rest != [] && (rest[0] == 'x' || rest[0] == 'X')
  {
    var s := d + rest;
    assert s[0] == d[0];
    if |d| >= 2 {
      assert s[1] == d[1];
    } else if |s| >= 2 {
      assert s[1] == rest[0];
    }
  }

  /** White space, then a run of decimal digits, then anything that does not start
      with a digit: `parseInt` reads the run unless it is a single zero followed by
      `x` or `X` (a hexadecimal prefix), and so does `parseFloat` unless the run is
      followed by a fraction or an exponent (`.`, `e`, `E`), which JavaScript would
      read on. */
  lemma ParseDecimalPrefix(w: string, d: string, rest: string)
    requires forall i :: 0 <= i < |w| ==> IsStrWhiteSpace(w[i])
    requires d != [] && forall i :: 0 <= i < |d| ==> '0' <= d[i] <= '9'
    requires rest == [] || DigitValue(rest[0]) >= 10
    ensures rest == [] || (rest[0] != '.' && rest[0] != 'e' && rest[0] != 'E') ==>
              ParseFloat(w + (d + rest)) == Finite(DigitsValue(d, 10))
    ensures !(d == "0" && rest != [] && (rest[0] == 'x' || rest[0] == 'X')) ==>
              ParseInt(w + (d + rest)) == Finite(DigitsValue(d, 10))
  {
    var s := d + rest;
    DecimalRunForm(d, rest);
    DecimalRunHex(d, rest);
    TrimStartOfSpaces(w, s);
  }

  /** `0x` or `0X` and anything after it: no sign and a hexadecimal prefix, and in
      radix 10 the digit prefix is the zero alone. */
  lemma HexForm(x: char, v: string)
    requires x == 'x' || x == 'X'
    ensures var s := ['0', x] + v;
      && !IsStrWhiteSpace(s[0]) && DropSign(s) == s && !StartsWithMinus(s) && HasHexPrefix(s)
      && s[2..] == v && SignedDigitPrefix(s, 10, false) == Finite(0)
  {
    var s := ['0', x] + v;
    assert s[0] == '0' && s[1] == x;
    DigitIsNotSpace('0');
    assert s == "0" + ([x] + v);
    LeadingDigitsOfRun("0", [x] + v, 10);
    assert "0"[..0] == "";
  }

  /** A run of hexadecimal digits followed by anything that does not start with one
      reads as the run's value in radix 16, and NaN when the run is empty. */
  lemma HexRunValue(h: string, rest: string)
    requires forall i :: 0 <= i < |h| ==> DigitValue(h[i]) < 16
    requires rest == [] || DigitValue(rest[0]) >= 16
    ensures SignedDigitPrefix(h + rest, 16, false) == if h == [] then NaN else Finite(DigitsValue(h, 16))
  {
    LeadingDigitsOfRun(h, rest, 16);
  }

  /** White space, `0x` or `0X`, a run of hexadecimal digits, then anything that
      does not start with one: `parseInt` reads the run in radix 16 (NaN when it is
      empty), while `parseFloat` stops after the zero. */
  lemma ParseHexPrefix(w: string, x: char, h: string, rest: string)
    requires forall i :: 0 <= i < |w| ==> IsStrWhiteSpace(w[i])
    requires x == 'x' || x == 'X'
    requires forall i :: 0 <= i < |h| ==> DigitValue(h[i]) < 16
    requires rest == [] || DigitValue(rest[0]) >= 16
    ensures ParseInt(w + (['0', x] + (h + rest))) == if h == [] then NaN else Finite(DigitsValue(h, 16))
    ensures ParseFloat(w + (['0', x] + (h + rest))) == Finite(0)
  {
    var v := h + rest;
    var s := ['0', x] + v;
    HexForm(x, v);
    TrimStartOfSpaces(w, s);
    HexRunValue(h, rest);
  }
}
