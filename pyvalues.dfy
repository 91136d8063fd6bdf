/**
 * Python values as they reach the parameter validators, and the conversion
 * `float(v)` those validators apply to them.
 *
 * A float is finite, NaN or an infinity; text is converted by Python's decimal
 * grammar over ASCII digits: surrounding white space (Python's `isspace`
 * set without the ASCII separators FS to US), an optional sign, digits with
 * an optional point, an optional exponent, or one of `nan`, `inf`,
 * `infinity` in any case; an underscore is allowed only between two digits
 * and is then ignored.
 */
module PyValues {
  import opened Geometry

  /** A value stored under a key of the options dictionary. */
  datatype Raw = NoneVal | Num(value: real) | NaN | Inf(negative: bool) | Text(s: string)

  /** A Python float. */
  datatype PyFloat = Finite(r: real) | NotANumber | Infinity(negative: bool)

  /** The outcome of `float(v)`: a float, a ValueError or a TypeError. */
  datatype Conversion = Converted(f: PyFloat) | ValueErr | TypeErr

  /**
   * Python's `str.isspace`: the ASCII controls TAB to CR and FS to US, the
   * space, NEL, NO-BREAK SPACE, OGHAM SPACE MARK, the spaces U+2000 to
   * U+200A, the line and paragraph separators, the narrow no-break and
   * mathematical spaces and the ideographic space.
   */
  predicate IsSpace(c: char)
  {
    || '\U{9}' <= c <= '\U{D}' || '\U{1C}' <= c <= '\U{20}'
    || c == '\U{85}' || c == '\U{A0}' || c == '\U{1680}'
    || '\U{2000}' <= c <= '\U{200A}' || c == '\U{2028}' || c == '\U{2029}'
    || c == '\U{202F}' || c == '\U{205F}' || c == '\U{3000}'
  }

  predicate IsDigit(c: char) { '0' <= c <= '9' }

  function DigitOf(c: char): nat
    requires IsDigit(c)
  {
    (c as int - '0' as int) as nat
  }

  /**
   * The white space `float()` strips: it maps every non-ASCII `isspace`
   * character to a space and then strips only TAB to CR and the space, so
   * the ASCII separators FS to US stay and make the text invalid.
   */
  predicate IsFloatSpace(c: char)
  {
    IsSpace(c) && !('\U{1C}' <= c <= '\U{1F}')
  }

  /** `s` without the leading characters that `blank` holds of. */
  function StripLeft(s: string, blank: char -> bool): (t: string)
    ensures |t| <= |s|
    ensures t == [] || !blank(t[0])
  {
    if s != [] && blank(s[0]) then StripLeft(s[1..], blank) else s
  }

  /** `s` without the trailing characters that `blank` holds of. */
  function StripRight(s: string, blank: char -> bool): (t: string)
    ensures |t| <= |s| && t == s[..|t|]
    ensures t == [] || !blank(t[|t| - 1])
  {
    if s != [] && blank(s[|s| - 1]) then StripRight(s[..|s| - 1], blank) else s
  }

  /** `s.strip()`: white space removed at both ends. */
  function Strip(s: string): (t: string)
    ensures |t| <= |s|
    ensures t == [] || (!IsSpace(t[0]) && !IsSpace(t[|t| - 1]))
  {
    StripRight(StripLeft(s, IsSpace), IsSpace)
  }

  /** The strip inside `float()`: its own white space removed at both ends. */
  function FloatStrip(s: string): (t: string)
    ensures |t| <= |s|
    ensures t == [] || (!IsFloatSpace(t[0]) && !IsFloatSpace(t[|t| - 1]))
  {
    StripRight(StripLeft(s, IsFloatSpace), IsFloatSpace)
  }

  /**
   * The stripped text is the part of the input between a run of white space
   * at the start and a run at the end, kept as it is.  `Strip` and
   * `FloatStrip` are this with `IsSpace` and with `IsFloatSpace`.
   */
  lemma StripMeaning(s: string, blank: char -> bool)
    ensures var t, i := StripRight(StripLeft(s, blank), blank), |s| - |StripLeft(s, blank)|;
      && t == s[i..i + |t|]
      && (forall k :: 0 <= k < i ==> blank(s[k]))
      && (forall k :: i + |t| <= k < |s| ==> blank(s[k]))
  {
    var l := StripLeft(s, blank);
    var t := StripRight(l, blank);
    var i := |s| - |l|;
    StripLeftMeaning(s, blank);
    StripRightMeaning(l, blank);
    SuffixOfSuffix(s, l, t, blank);
  }

  /** A prefix of a suffix is a slice, and what follows it in the suffix follows it in the whole. */
  lemma SuffixOfSuffix(s: string, l: string, t: string, blank: char -> bool)
    requires |l| <= |s| && l == s[|s| - |l|..] && |t| <= |l| && t == l[..|t|]
    requires forall k :: |t| <= k < |l| ==> blank(l[k])
    ensures t == s[|s| - |l|..|s| - |l| + |t|]
    ensures forall k :: |s| - |l| + |t| <= k < |s| ==> blank(s[k])
  {
    var i := |s| - |l|;
    forall k | i + |t| <= k < |s| ensures blank(s[k]) {
      assert s[k] == l[k - i];
    }
  }

  lemma {:induction false} StripLeftMeaning(s: string, blank: char -> bool)
    ensures var t := StripLeft(s, blank);
      t == s[|s| - |t|..] && forall k :: 0 <= k < |s| - |t| ==> blank(s[k])
  {
    if s != [] && blank(s[0]) {
      StripLeftMeaning(s[1..], blank);
    }
  }

  lemma {:induction false} StripRightMeaning(s: string, blank: char -> bool)
    ensures var t := StripRight(s, blank);
      forall k :: |t| <= k < |s| ==> blank(s[k])
  {
    if s != [] && blank(s[|s| - 1]) {
      StripRightMeaning(s[..|s| - 1], blank);
    }
  }

  function LowerChar(c: char): char
  {
    if 'A' <= c <= 'Z' then (c as int - 'A' as int + 'a' as int) as char else c
  }

  function Lower(s: string): (t: string)
    ensures |t| == |s|
  {
    if s == [] then [] else [LowerChar(s[0])] + Lower(s[1..])
  }

  /** Index just past the run of digits that starts at k. */
  function DigitRun(s: string, k: nat): (e: nat)
    requires k <= |s|
    ensures k <= e <= |s|
    ensures forall i :: k <= i < e ==> IsDigit(s[i])
    ensures e == |s| || !IsDigit(s[e])
    decreases |s| - k
  {
    if k < |s| && IsDigit(s[k]) then DigitRun(s, k + 1) else k
  }

  /** The natural number a string of decimal digits denotes. */
  function DigitsValue(ds: string): nat
    requires forall i :: 0 <= i < |ds| ==> IsDigit(ds[i])
  {
    if ds == [] then 0 else DigitsValue(ds[..|ds| - 1]) * 10 + DigitOf(ds[|ds| - 1])
  }

  function Pow10(n: nat): (p: nat)
    ensures p >= 1
  {
    if n == 0 then 1 else 10 * Pow10(n - 1)
  }

  function Scale(m: real, e: int): real
  {
    if e >= 0 then m * Pow10(e) as real else m / Pow10(-e) as real
  }

  /** The exponent suffix: empty, or `e`/`E`, an optional sign and at least one digit. */
  function ParseExponent(s: string): Option<int>
  {
    if s == [] then Some(0)
    else if s[0] != 'e' && s[0] != 'E' then None
    else
      var neg := |s| > 1 && s[1] == '-';
      var start := if |s| > 1 && (s[1] == '+' || s[1] == '-') then 2 else 1;
      var end := DigitRun(s, start);
      if end == start || end != |s| then None
      else
        var v: int := DigitsValue(s[start..end]);
        Some(if neg then -v else v)
  }

  /** An unsigned decimal numeral with optional fraction and exponent. */
  function ParseDecimal(b: string): Option<real>
  {
    var i := DigitRun(b, 0);
    var j := if i < |b| && b[i] == '.' then DigitRun(b, i + 1) else i;
    var fracDigits := if i < |b| && b[i] == '.' then b[i + 1..j] else [];
    if i + |fracDigits| == 0 then None
    else
      assert forall k :: 0 <= k < |b[..i] + fracDigits| ==> IsDigit((b[..i] + fracDigits)[k]);
      match ParseExponent(b[j..])
      case None => None
      case Some(e) => Some(Scale(DigitsValue(b[..i] + fracDigits) as real / Pow10(|fracDigits|) as real, e))
  }

  /**
   * Digit grouping: the text without its underscores, or None (a ValueError)
   * when an underscore does not follow a digit or is not followed by one.
   * `afterDigit` says whether the character before `s` was a digit.
   */
  function Ungroup(s: string, afterDigit: bool): (r: Option<string>)
    ensures r.Some? ==> |r.value| <= |s| && forall i :: 0 <= i < |r.value| ==> r.value[i] != '_'
  {
    if s == [] then Some([])
    else if s[0] == '_' then
      if afterDigit && |s| > 1 && IsDigit(s[1]) then Ungroup(s[1..], false) else None
    else
      match Ungroup(s[1..], IsDigit(s[0]))
      case None => None
      case Some(t) => Some([s[0]] + t)
  }

  /** Every underscore sits between two digits (`1_000`), the first character counting `afterDigit` as its predecessor. */
  predicate GroupedAt(s: string, afterDigit: bool)
  {
    forall i :: 0 <= i < |s| ==> BetweenDigits(s, afterDigit, i)
  }

  /** The character at `i` is not an underscore, or it has a digit on either side. */
  predicate BetweenDigits(s: string, afterDigit: bool, i: nat)
    requires i < |s|
  {
    s[i] == '_' ==> (if i == 0 then afterDigit else IsDigit(s[i - 1])) && i + 1 < |s| && IsDigit(s[i + 1])
  }

  /** Ungrouping succeeds exactly when every underscore sits between two digits. */
  lemma {:induction false} UngroupMeaning(s: string, afterDigit: bool)
    ensures Ungroup(s, afterDigit).Some? <==> GroupedAt(s, afterDigit)
  {
    if s != [] {
      UngroupMeaning(s[1..], IsDigit(s[0]));
      GroupedStep(s, afterDigit);
    }
  }

  /** GroupedAt looks at the first character, then at the rest. */
  lemma GroupedStep(s: string, afterDigit: bool)
    requires s != []
    ensures GroupedAt(s, afterDigit) <==>
      BetweenDigits(s, afterDigit, 0) && GroupedAt(s[1..], IsDigit(s[0]))
  {
    var t := s[1..];
    forall j | 0 <= j < |t|
      ensures BetweenDigits(t, IsDigit(s[0]), j) <==> BetweenDigits(s, afterDigit, j + 1)
    {
      assert t[j] == s[j + 1];
      assert j + 1 < |t| ==> t[j + 1] == s[j + 2];
      assert j > 0 ==> t[j - 1] == s[j];
    }
    if BetweenDigits(s, afterDigit, 0) && GroupedAt(t, IsDigit(s[0])) {
      forall i | 0 <= i < |s|
        ensures BetweenDigits(s, afterDigit, i)
      {
        if i > 0 {
          assert BetweenDigits(t, IsDigit(s[0]), i - 1);
        }
      }
    }
  }

  /**
   * `float(s)` for a string: None stands for the ValueError.  Underscores
   * must sit between digits and are then dropped before the text is
   * stripped and parsed.
   */
  function ParseText(s: string): Option<PyFloat>
  {
    match Ungroup(s, false)
    case None => None
    case Some(t) => ParseSigned(FloatStrip(t))
  }

  /** Stripped text: an optional sign, then the number. */
  function ParseSigned(t: string): Option<PyFloat>
  {
    if |t| > 0 && (t[0] == '+' || t[0] == '-') then ParseUnsigned(t[0] == '-', t[1..])
    else ParseUnsigned(false, t)
  }

  /** Text without underscores or white space is parsed as it stands. */
  lemma {:induction false} ParsePlain(s: string)
    requires forall i :: 0 <= i < |s| ==> s[i] != '_' && !IsSpace(s[i])
    ensures ParseText(s) == ParseSigned(s)
  {
    UngroupPlain(s, false);
    StripOfNoSpace(s);
  }

  /** Text without underscores is only stripped before it is parsed. */
  lemma ParseUngrouped(s: string)
    requires forall i :: 0 <= i < |s| ==> s[i] != '_'
    ensures ParseText(s) == ParseSigned(FloatStrip(s))
  {
    UngroupPlain(s, false);
  }

  lemma {:induction false} UngroupPlain(s: string, afterDigit: bool)
    requires forall i :: 0 <= i < |s| ==> s[i] != '_'
    ensures Ungroup(s, afterDigit) == Some(s)
  {
    if s != [] {
      UngroupPlain(s[1..], IsDigit(s[0]));
      assert [s[0]] + s[1..] == s;
    }
  }

  /** The text after the sign: a special word or a decimal numeral. */
  function ParseUnsigned(neg: bool, body: string): Option<PyFloat>
  {
    var low := Lower(body);
    if low == "nan" then Some(NotANumber)
    else if low == "inf" || low == "infinity" then Some(Infinity(neg))
    else
      match ParseDecimal(body)
      case None => None
      case Some(r) => Some(Finite(if neg then -r else r))
  }

  /** Python `float(v)`. */
  function ToFloat(v: Raw): (c: Conversion)
    ensures c.TypeErr? <==> v.NoneVal?
    ensures v.Num? ==> c == Converted(Finite(v.value))
    ensures v.Text? ==> (c.ValueErr? <==> ParseText(v.s).None?)
  {
    match v
    case NoneVal => TypeErr
    case Num(r) => Converted(Finite(r))
    case NaN => Converted(NotANumber)
    case Inf(n) => Converted(Infinity(n))
    case Text(s) =>
      match ParseText(s)
      case None => ValueErr
      case Some(f) => Converted(f)
  }

  /** Text converts to what it parses to. */
  lemma ToFloatParsed(s: string, f: PyFloat)
    requires ParseText(s) == Some(f)
    ensures ToFloat(Text(s)) == Converted(f)
  {
  }

  /** Text with an underscore that lacks a digit on either side is a ValueError. */
  lemma ToFloatGrouping(s: string)
    ensures !GroupedAt(s, false) ==> ToFloat(Text(s)) == ValueErr
  {
    UngroupMeaning(s, false);
  }

  /** Python truthiness: None, zero and the empty string are false. */
  predicate Truthy(v: Raw)
  {
    match v
    case NoneVal => false
    case Num(r) => r != 0.0
    case NaN => true
    case Inf(_) => true
    case Text(s) => s != ""
  }

  /** The decimal digits of a natural number, as `str(n)` writes them. */
  function DigitString(n: nat): (ds: string)
    ensures |ds| >= 1
    ensures forall i :: 0 <= i < |ds| ==> IsDigit(ds[i])
  {
    var d := ((n % 10) + '0' as int) as char;
    if n < 10 then [d] else DigitString(n / 10) + [d]
  }

  lemma {:induction false} DigitsValueOfDigitString(n: nat)
    ensures DigitsValue(DigitString(n)) == n
  {
    var ds := DigitString(n);
    if n >= 10 {
      assert ds[..|ds| - 1] == DigitString(n / 10);
      DigitsValueOfDigitString(n / 10);
    }
  }

  lemma {:induction false} StripOfNoSpace(s: string)
    requires forall i :: 0 <= i < |s| ==> !IsSpace(s[i])
    ensures Strip(s) == s && FloatStrip(s) == s
  {
  }

  lemma DigitRunAll(ds: string, k: nat)
    requires k <= |ds|
    requires forall i :: 0 <= i < |ds| ==> IsDigit(ds[i])
    ensures DigitRun(ds, k) == |ds|
    decreases |ds| - k
  {
    if k < |ds| { DigitRunAll(ds, k + 1); }
  }

  lemma ParseDecimalOfDigits(ds: string)
    requires |ds| >= 1
    requires forall i :: 0 <= i < |ds| ==> IsDigit(ds[i])
    ensures ParseDecimal(ds) == Some(DigitsValue(ds) as real)
  {
    DigitRunAll(ds, 0);
    assert ds[..|ds|] + [] == ds;
    assert ds[|ds|..] == [];
    assert ParseExponent(ds[|ds|..]) == Some(0);
    var v := DigitsValue(ds) as real;
    assert Pow10(0) == 1;
    assert Scale(v / 1.0, 0) == v;
  }

  /**
   * Parsing is the inverse of writing a natural number in decimal: the text
   * `str(n)` converts back to the float n.
   */
  lemma ParseTextOfDigitString(n: nat)
    ensures ParseText(DigitString(n)) == Some(Finite(n as real))
  {
    var ds := DigitString(n);
    assert forall i :: 0 <= i < |ds| ==> ds[i] != '_' && !IsSpace(ds[i]);
    ParsePlain(ds);
    ParseUnsignedDigits(ds);
    DigitsValueOfDigitString(n);
  }

  lemma ParseUnsignedDigits(ds: string)
    requires |ds| >= 1
    requires forall i :: 0 <= i < |ds| ==> IsDigit(ds[i])
    ensures ParseUnsigned(false, ds) == Some(Finite(DigitsValue(ds) as real))
    ensures ParseSigned(ds) == Some(Finite(DigitsValue(ds) as real))
  {
    LowerStartsWithDigit(ds);
    ParseDecimalOfDigits(ds);
  }

  lemma LowerStartsWithDigit(ds: string)
    requires |ds| >= 1 && IsDigit(ds[0])
    ensures Lower(ds) != "nan" && Lower(ds) != "inf" && Lower(ds) != "infinity"
  {
    assert Lower(ds)[0] == ds[0];
  }

  lemma ParseFivePointFive()
    ensures ParseText("5.5") == Some(Finite(5.5))
  {
    UngroupPlain("5.5", false);
    assert FloatStrip("5.5") == "5.5";
    SignedFivePointFive();
  }

  lemma SignedFivePointFive()
    ensures ParseSigned("5.5") == Some(Finite(5.5))
  {
    var s := "5.5";
    assert Lower(s)[0] == '5';
    assert DigitRun(s, 0) == 1;
    assert DigitRun(s, 2) == 3;
    assert s[..1] + s[2..3] == "55";
    assert DigitsValue("55") == 55;
    assert s[3..] == [];
  }

  lemma ParseRejectsWords()
    ensures ParseText("abc") == None
    ensures ParseText("") == None
  {
    UngroupPlain("abc", false);
    assert FloatStrip("abc") == "abc";
    UngroupPlain("", false);
    assert FloatStrip("") == "";
    SignedRejectsWords();
  }

  lemma SignedRejectsWords()
    ensures ParseSigned("abc") == None
    ensures ParseSigned("") == None
  {
    var s := "abc";
    assert Lower(s)[0] == 'a';
    assert DigitRun(s, 0) == 0;
  }

  lemma ParseRejectsComma()
    ensures ParseText("1,5") == None
  {
    UngroupPlain("1,5", false);
    assert FloatStrip("1,5") == "1,5";
    SignedRejectsComma();
  }

  lemma SignedRejectsComma()
    ensures ParseSigned("1,5") == None
  {
    var s := "1,5";
    assert Lower(s)[0] == '1';
    assert DigitRun(s, 0) == 1;
    assert s[1..] == ",5";
  }

  lemma LowerOfLowerCase(s: string)
    requires forall i :: 0 <= i < |s| ==> !('A' <= s[i] <= 'Z')
    ensures Lower(s) == s
  {
    if s != [] {
      LowerOfLowerCase(s[1..]);
    }
  }

  lemma ParseNotANumber()
    ensures ParseText("nan") == Some(NotANumber)
    ensures ParseText("inf") == Some(Infinity(false))
  {
    NotANumberText();
    InfinityText();
  }

  lemma NotANumberText()
    ensures ParseText("nan") == Some(NotANumber)
  {
    UngroupPlain("nan", false);
    assert FloatStrip("nan") == "nan";
    SignedNotANumber();
  }

  lemma SignedNotANumber()
    ensures ParseSigned("nan") == Some(NotANumber)
  {
    LowerOfLowerCase("nan");
  }

  lemma InfinityText()
    ensures ParseText("inf") == Some(Infinity(false))
  {
    UngroupPlain("inf", false);
    assert FloatStrip("inf") == "inf";
    SignedInfinity();
  }

  lemma SignedInfinity()
    ensures ParseSigned("inf") == Some(Infinity(false))
  {
    LowerOfLowerCase("inf");
  }

  /**
   * Digit groups: "1_000" converts to 1000, while an underscore that is
   * doubled or does not sit between digits is a ValueError.
   */
  lemma ParseDigitGroups()
    ensures ParseText("1_000") == Some(Finite(1000.0))
    ensures ParseText("1__0") == None
    ensures ParseText("_1") == None
    ensures ParseText("1_") == None
  {
    ThousandText();
    MisplacedText();
  }

  lemma ThousandText()
    ensures ParseText("1_000") == Some(Finite(1000.0))
  {
    GroupedThousand();
    ParseOfUngrouped("1_000", "1000");
    ThousandPlain();
    SignedThousand();
  }

  lemma ThousandPlain()
    ensures FloatStrip("1000") == "1000"
  {
  }

  /** Text is parsed as its ungrouped form, stripped. */
  lemma ParseOfUngrouped(s: string, t: string)
    requires Ungroup(s, false) == Some(t)
    ensures ParseText(s) == ParseSigned(FloatStrip(t))
  {
  }

  lemma SignedThousand()
    ensures ParseSigned("1000") == Some(Finite(1000.0))
  {
    ParseUnsignedDigits("1000");
    ThousandValue();
  }

  lemma MisplacedText()
    ensures ParseText("1__0") == None
    ensures ParseText("_1") == None
    ensures ParseText("1_") == None
  {
    MisplacedUnderscores();
  }

  lemma MisplacedUnderscores()
    ensures Ungroup("1__0", false) == None
    ensures Ungroup("_1", false) == None
    ensures Ungroup("1_", false) == None
  {
    assert "1__0"[1..] == "__0";
    assert "1_"[1..] == "_";
  }

  lemma ThousandValue()
    ensures DigitsValue("1000") == 1000
  {
    assert "1000"[..3] == "100" && "100"[..2] == "10" && "10"[..1] == "1" && "1"[..0] == "";
  }

  lemma GroupedThousand()
    ensures Ungroup("1_000", false) == Some("1000")
  {
    var s := "1_000";
    assert s[1..] == "_000" && s[2..] == "000";
    UngroupPlain("000", false);
    assert [s[0]] + "000" == "1000";
  }

  /** White space outside ASCII is stripped too: NO-BREAK SPACE and IDEOGRAPHIC SPACE around "5.5". */
  lemma ParseUnicodeSpace()
    ensures ParseText("\U{A0}5.5\U{3000}") == Some(Finite(5.5))
  {
    var s := "\U{A0}5.5\U{3000}";
    UngroupPlain(s, false);
    ParseOfUngrouped(s, s);
    StripSpacedFivePointFive();
    SignedFivePointFive();
  }

  /**
   * The ASCII separators FS to US are white space for `str.strip` but not
   * for `float()`: a text that starts with FS does not convert.
   */
  lemma FloatKeepsSeparators()
    ensures Strip("\U{1C}5") == "5"
    ensures ToFloat(Text("\U{1C}5")) == ValueErr
  {
    var s := "\U{1C}5";
    assert s[1..] == "5";
    assert StripLeft(s, IsSpace) == "5";
    UngroupPlain(s, false);
    assert FloatStrip(s) == s;
    SignedRejectsSeparator();
  }

  lemma SignedRejectsSeparator()
    ensures ParseSigned("\U{1C}5") == None
  {
    var s := "\U{1C}5";
    assert Lower(s)[0] == '\U{1C}';
    assert DigitRun(s, 0) == 0;
  }

  lemma StripSpacedFivePointFive()
    ensures FloatStrip("\U{A0}5.5\U{3000}") == "5.5"
  {
    var s := "\U{A0}5.5\U{3000}";
    assert s[1..] == "5.5\U{3000}";
    assert StripLeft("5.5\U{3000}", IsFloatSpace) == "5.5\U{3000}";
    assert StripLeft(s, IsFloatSpace) == "5.5\U{3000}";
    assert "5.5\U{3000}"[..3] == "5.5";
    assert StripRight("5.5", IsFloatSpace) == "5.5";
    assert StripRight("5.5\U{3000}", IsFloatSpace) == "5.5";
  }
}
