/** Values stored in the configuration overlay, and the inference rule
    (`parseValue` in pkg/appsettings/load.go) that turns the raw text of an
    environment variable or a command-line argument into one of them. */
module Values {
  import opened Wrappers

  /** A value of the untyped overlay `map[string]interface{}`.
      Bool, Int and Str are what `parseValue` yields for booleans, integers
      and plain text; Float keeps the text that `strconv.ParseFloat`
      accepted (floating-point numerics are not modelled); Json stands for
      any other value the JSON decoder put in a file's top-level object
      (arrays, nested objects, null), kept as its opaque encoding. */
  datatype Value =
    | Bool(b: bool)
    | Int(i: int)
    | Float(literal: string)
    | Str(s: string)
    | Json(encoding: string)

  /** Bounds of Go's `int` on the 64-bit platforms the library targets. */
  const MinInt: int := -0x8000_0000_0000_0000
  const MaxInt: int := 0x7FFF_FFFF_FFFF_FFFF

  predicate InIntRange(n: int) { MinInt <= n <= MaxInt }

  // ---------------------------------------------------------------------
  // strings.ToLower, on ASCII letters

  predicate IsUpper(c: char) { 'A' <= c <= 'Z' }

  function LowerChar(c: char): char
  {
    if IsUpper(c) then (c as int - 'A' as int + 'a' as int) as char else c
  }

  /** No ASCII upper-case letter occurs in `s`. */
  predicate IsLowerCase(s: string)
  {
    forall i :: 0 <= i < |s| ==> !IsUpper(s[i])
  }

  /** `strings.ToLower`: every letter A-Z becomes a-z, everything else is kept. */
  function Lower(s: string): (r: string)
    ensures |r| == |s|
    ensures forall i :: 0 <= i < |s| ==> r[i] == LowerChar(s[i])
    ensures IsLowerCase(r)
  {
    if s == [] then [] else [LowerChar(s[0])] + Lower(s[1..])
  }

  /** Lowering twice is lowering once: keys written by the string sources
      are already normalised. */
  lemma LowerIdempotent(s: string)
    ensures Lower(Lower(s)) == Lower(s)
  {
    LowerKeepsLowerCase(Lower(s));
  }

  /** `Lower` leaves a string alone exactly when it has no upper-case letter. */
  lemma LowerFixesExactlyLowerCase(s: string)
    ensures Lower(s) == s <==> IsLowerCase(s)
  {
    if IsLowerCase(s) {
      LowerKeepsLowerCase(s);
    } else {
      var i :| 0 <= i < |s| && IsUpper(s[i]);
      assert Lower(s)[i] != s[i];
    }
  }

  lemma LowerKeepsLowerCase(s: string)
    requires IsLowerCase(s)
    ensures Lower(s) == s
  {
    forall i | 0 <= i < |s| ensures Lower(s)[i] == s[i] {
      assert !IsUpper(s[i]);
    }
  }

  // ---------------------------------------------------------------------
  // strconv.ParseBool

  /** The spellings `strconv.ParseBool` reads as true, and as false. */
  const TrueLiterals: set<string> := {"1", "t", "T", "TRUE", "true", "True"}
  const FalseLiterals: set<string> := {"0", "f", "F", "FALSE", "false", "False"}

  /** `strconv.ParseBool`: exactly the twelve spellings, case-sensitive
      beyond them. */
  function ParseBool(s: string): (r: Option<bool>)
    ensures r == Some(true) <==> s in TrueLiterals
    ensures r == Some(false) <==> s in FalseLiterals
    ensures r.None? <==> s !in TrueLiterals + FalseLiterals
  {
    if s in TrueLiterals then Some(true)
    else if s in FalseLiterals then Some(false)
    else None
  }

  // ---------------------------------------------------------------------
  // strconv.Atoi: optional sign, one or more decimal digits, within int range

  predicate IsDigit(c: char) { '0' <= c <= '9' }

  predicate AllDigits(s: string)
  {
    forall i :: 0 <= i < |s| ==> IsDigit(s[i])
  }

  /** The number a string of decimal digits denotes, most significant first. */
  function DigitsValue(ds: string): nat
    requires AllDigits(ds)
  {
    if ds == [] then 0
    else 10 * DigitsValue(ds[..|ds| - 1]) + (ds[|ds| - 1] as int - '0' as int)
  }

  /** The digits after an optional leading `+` or `-`. */
  function Unsigned(s: string): string
  {
    if |s| > 0 && (s[0] == '+' || s[0] == '-') then s[1..] else s
  }

  /** A sign and digits in the syntax `strconv.Atoi` accepts. */
  predicate IsIntSyntax(s: string)
  {
    |Unsigned(s)| > 0 && AllDigits(Unsigned(s))
  }

  /** The number a sign and digits denote, before any range check. */
  function SignedValue(s: string): int
    requires IsIntSyntax(s)
  {
    if s[0] == '-' then 0 - DigitsValue(Unsigned(s)) else DigitsValue(Unsigned(s))
  }

  /** `strconv.Atoi`: a syntax error for anything but a sign and digits, and a
      range error when the value does not fit in `int`; both are None. */
  function ParseInt(s: string): (r: Option<int>)
    ensures r.Some? <==> IsIntSyntax(s) && InIntRange(SignedValue(s))
    ensures r.Some? ==> r.value == SignedValue(s)
  {
    var digits := Unsigned(s);
    if digits == [] || !AllDigits(digits) then None
    else
      var n: int := if s[0] == '-' then 0 - DigitsValue(digits) else DigitsValue(digits);
      if InIntRange(n) then Some(n) else None
  }

  /** Leading zeros add nothing to the value of a digit string. */
  lemma {:induction false} DigitsValueLeadingZero(ds: string)
    requires AllDigits(ds)
    ensures AllDigits("0" + ds)
    ensures DigitsValue("0" + ds) == DigitsValue(ds)
  {
    var zs := "0" + ds;
    assert forall i :: 0 < i < |zs| ==> zs[i] == ds[i - 1];
    if ds != [] {
      var init := ds[..|ds| - 1];
      DigitsValueLeadingZero(init);
      assert zs[..|zs| - 1] == "0" + init;
    }
  }

  /** `Atoi` reads "+" followed by digits, and digits with a leading zero,
      as the plain digits. */
  lemma ParseIntPlusAndLeadingZero(ds: string)
    requires |ds| > 0 && AllDigits(ds)
    ensures ParseInt("+" + ds) == ParseInt(ds)
    ensures ParseInt("0" + ds) == ParseInt(ds)
    ensures ParseInt("-0" + ds) == ParseInt("-" + ds)
  {
    assert ds[0] != '+' && ds[0] != '-';
    assert Unsigned(ds) == ds;
    assert Unsigned("+" + ds) == ds;
    DigitsValueLeadingZero(ds);
    assert Unsigned("0" + ds) == "0" + ds;
    assert Unsigned("-0" + ds) == "0" + ds;
    assert Unsigned("-" + ds) == ds;
  }

  // ---------------------------------------------------------------------
  // parseValue

  /** `parseValue`: the first parse that succeeds wins, in the order bool,
      int, float; text that none of them accepts is returned as it is.
      `isFloat` is the set of strings `strconv.ParseFloat(_, 64)` accepts. */
  function ParseValue(s: string, isFloat: string -> bool): (r: Value)
    ensures r.Int? ==> InIntRange(r.i)
    ensures r.Float? ==> r.literal == s
    ensures r.Str? ==> r.s == s
    ensures !r.Json?
  {
    match ParseBool(s)
    case Some(b) => Bool(b)
    case None =>
      match ParseInt(s)
      case Some(n) => Int(n)
      case None => if isFloat(s) then Float(s) else Str(s)
  }

  /** The order of the attempts in `parseValue`: exactly the twelve boolean
      spellings give booleans; otherwise an integer literal in range gives
      that integer; otherwise a float literal gives a float; anything else
      stays text. */
  lemma ParseValueOrder(s: string, isFloat: string -> bool)
    ensures ParseValue(s, isFloat) == Bool(true) <==> s in TrueLiterals
    ensures ParseValue(s, isFloat) == Bool(false) <==> s in FalseLiterals
    ensures ParseValue(s, isFloat).Int? <==> s !in TrueLiterals + FalseLiterals && ParseInt(s).Some?
    ensures ParseValue(s, isFloat).Int? ==> ParseInt(s) == Some(ParseValue(s, isFloat).i)
    ensures ParseValue(s, isFloat).Float? <==>
              s !in TrueLiterals + FalseLiterals && ParseInt(s).None? && isFloat(s)
    ensures ParseValue(s, isFloat).Str? <==>
              s !in TrueLiterals + FalseLiterals && ParseInt(s).None? && !isFloat(s)
  {
  }

  // ---------------------------------------------------------------------
  // Decimal rendering, the inverse the integer branch is checked against

  function DigitChar(d: nat): char
    requires d < 10
  {
    ('0' as int + d) as char
  }

  /** The shortest decimal rendering of a natural number. */
  function FormatNat(n: nat): string
  {
    if n < 10 then [DigitChar(n)] else FormatNat(n / 10) + [DigitChar(n % 10)]
  }

  /** Decimal rendering of an integer, with `-` for negatives (`strconv.Itoa`). */
  function FormatInt(n: int): string
  {
    if n < 0 then "-" + FormatNat(-n) else FormatNat(n)
  }

  lemma {:induction false} FormatNatDigits(n: nat)
    ensures |FormatNat(n)| > 0 && AllDigits(FormatNat(n))
    ensures DigitsValue(FormatNat(n)) == n
  {
    if n >= 10 {
      FormatNatDigits(n / 10);
      var s := FormatNat(n / 10) + [DigitChar(n % 10)];
      assert s[..|s| - 1] == FormatNat(n / 10);
    }
  }

  /** Reading back the decimal rendering of any `int` gives that `int`. */
  lemma ParseIntFormatInt(n: int)
    requires InIntRange(n)
    ensures ParseInt(FormatInt(n)) == Some(n)
  {
    var s := FormatInt(n);
    if n < 0 {
      var digits := FormatNat(-n);
      FormatNatDigits(-n);
      assert s == "-" + digits && s[0] == '-';
      assert Unsigned(s) == digits;
      assert DigitsValue(digits) == -n;
    } else {
      var digits := FormatNat(n);
      FormatNatDigits(n);
      assert s == digits && IsDigit(s[0]);
      assert Unsigned(s) == digits;
    }
  }

  /** No decimal rendering other than "0" and "1" is a boolean spelling. */
  lemma FormatIntNotBool(n: int)
    requires n != 0 && n != 1
    ensures FormatInt(n) !in TrueLiterals + FalseLiterals
  {
    var s := FormatInt(n);
    if n < 0 {
      assert s[0] == '-';
    } else {
      FormatNatDigits(n);
      assert IsDigit(s[0]);
      if |s| == 1 {
        assert s[..0] == [];
        assert DigitsValue(s) == s[0] as int - '0' as int;
        assert s != "0" && s != "1";
      }
    }
  }

  /** Every integer other than 0 and 1, written in decimal, is inferred as
      that integer; 0 and 1 are read as booleans first. */
  lemma ParseValueFormatInt(n: int, isFloat: string -> bool)
    requires InIntRange(n)
    ensures n == 0 ==> ParseValue(FormatInt(n), isFloat) == Bool(false)
    ensures n == 1 ==> ParseValue(FormatInt(n), isFloat) == Bool(true)
    ensures n != 0 && n != 1 ==> ParseValue(FormatInt(n), isFloat) == Int(n)
  {
    if n == 0 {
      assert FormatInt(n) == "0";
    } else if n == 1 {
      assert FormatInt(n) == "1";
    } else {
      FormatIntNotBool(n);
      ParseIntFormatInt(n);
    }
  }

  /** An integer literal outside the 64-bit range is not an integer to
      `parseValue`: it falls through to the float attempt, and is text when
      that fails too. */
  lemma ParseValueOutOfRange(s: string, isFloat: string -> bool)
    requires IsIntSyntax(s) && !InIntRange(SignedValue(s))
    ensures ParseValue(s, isFloat) == if isFloat(s) then Float(s) else Str(s)
  {
  }

  /** The boolean spellings are case-sensitive beyond the three listed
      forms, and a boolean word followed by more text is plain text. */
  lemma ParseValueMixedCase(isFloat: string -> bool)
    requires !isFloat("tRUE") && !isFloat("true123")
    ensures ParseValue("tRUE", isFloat) == Str("tRUE")
    ensures ParseValue("true123", isFloat) == Str("true123")
  {
    assert Unsigned("tRUE")[0] == 't';
    assert Unsigned("true123")[0] == 't';
  }

  /** The boolean rows of `TestParseValue` in pkg/appsettings/load_test.go:
      "0" is the boolean false, never the integer 0. */
  lemma ParseValueBoolRows(isFloat: string -> bool)
    ensures ParseValue("true", isFloat) == Bool(true)
    ensures ParseValue("false", isFloat) == Bool(false)
    ensures ParseValue("True", isFloat) == Bool(true)
    ensures ParseValue("FALSE", isFloat) == Bool(false)
    ensures ParseValue("0", isFloat) == Bool(false)
  {
  }

  /** The integer rows of `TestParseValue`. */
  lemma ParseValueIntRows(isFloat: string -> bool)
    ensures ParseValue("123", isFloat) == Int(123)
    ensures ParseValue("-456", isFloat) == Int(-456)
  {
    ParseValueFormatInt(123, isFloat);
    assert FormatInt(123) == "123";
    ParseValueFormatInt(-456, isFloat);
    assert FormatInt(-456) == "-456";
  }

  /** The float rows of `TestParseValue`, for a float recogniser that
      accepts them as `strconv.ParseFloat` does. */
  lemma ParseValueFloatRows(isFloat: string -> bool)
    requires isFloat("123.45") && isFloat("-67.89") && isFloat("0.0")
    ensures ParseValue("123.45", isFloat) == Float("123.45")
    ensures ParseValue("-67.89", isFloat) == Float("-67.89")
    ensures ParseValue("0.0", isFloat) == Float("0.0")
  {
    assert !IsDigit(Unsigned("123.45")[3]);
    assert !IsDigit(Unsigned("-67.89")[2]);
    assert !IsDigit(Unsigned("0.0")[1]);
  }

  /** The rows of `TestParseValue` that stay text, including the empty
      string, for a float recogniser that rejects them as
      `strconv.ParseFloat` does. */
  lemma ParseValueStringRows(isFloat: string -> bool)
    requires !isFloat("hello") && !isFloat("") && !isFloat("123abc") && !isFloat("true123")
    ensures ParseValue("hello", isFloat) == Str("hello")
    ensures ParseValue("", isFloat) == Str("")
    ensures ParseValue("123abc", isFloat) == Str("123abc")
    ensures ParseValue("true123", isFloat) == Str("true123")
  {
    assert !IsDigit(Unsigned("hello")[0]);
    assert !IsDigit(Unsigned("123abc")[3]);
    assert !IsDigit(Unsigned("true123")[0]);
  }
}
