/**
 * The two validators of the desktop form: the number check that tolerates
 * text input (white space and a decimal comma), and the form check that
 * collects one message per failing field.
 */
module GuiValidation {
  import opened Geometry
  import opened PyValues

  /** Why a field was rejected; every one of these is a ValueError in the form. */
  datatype Problem =
    | EmptyText
    | NaNValue
    | InfiniteValue
    | TooSmall(value: real, minimum: real)
    | TooLarge(value: real, maximum: real)
    | InvalidNumber(text: string)

  /** `validar_numero_seguro`: a value, a ValueError, or a TypeError it lets through. */
  datatype Checked = Accepted(value: real) | Rejected(problem: Problem) | TypeErrorRaised

  function ReplaceChar(s: string, a: char, b: char): (t: string)
    ensures |t| == |s|
    ensures forall i :: 0 <= i < |s| ==> t[i] == (if s[i] == a then b else s[i])
  {
    if s == [] then [] else [if s[0] == a then b else s[0]] + ReplaceChar(s[1..], a, b)
  }

  /** `valor.strip().replace(',', '.')`. */
  function Normalise(s: string): string
  {
    ReplaceChar(Strip(s), ',', '.')
  }

  /** The float the check works with: text is normalised before conversion. */
  function Convert(v: Raw): Conversion
  {
    if v.Text? then ToFloat(Text(Normalise(v.s))) else ToFloat(v)
  }

  /** The outcome for a value that converts to `f`. */
  function ValidateConverted(f: PyFloat, minimum: real, maximum: real): Checked
  {
    match f
    case NotANumber => Rejected(NaNValue)
    case Infinity(_) => Rejected(InfiniteValue)
    case Finite(r) =>
      if r < minimum then Rejected(TooSmall(r, minimum))
      else if r > maximum then Rejected(TooLarge(r, maximum))
      else Accepted(r)
  }

  function ValidateNumberSafe(v: Raw, minimum: real, maximum: real): Checked
  {
    Decide(v.Text? && Normalise(v.s) == [], Convert(v), if v.Text? then Normalise(v.s) else [], minimum, maximum)
  }

  /** The outcome for blank text or for a conversion result; `text` is what an invalid number reports. */
  function Decide(blank: bool, conv: Conversion, text: string, minimum: real, maximum: real): Checked
  {
    if blank then Rejected(EmptyText)
    else
      match conv
      case TypeErr => TypeErrorRaised
      case ValueErr => Rejected(InvalidNumber(text))
      case Converted(f) => ValidateConverted(f, minimum, maximum)
  }

  lemma DecideMeaning(blank: bool, conv: Conversion, text: string, minimum: real, maximum: real)
    ensures var c := Decide(blank, conv, text, minimum, maximum);
      && (c.Accepted? <==> conv.Converted? && conv.f.Finite? && minimum <= conv.f.r <= maximum && !blank)
      && (c.Accepted? ==> conv == Converted(Finite(c.value)))
      && (c.TypeErrorRaised? <==> !blank && conv.TypeErr?)
      && (blank ==> c == Rejected(EmptyText))
      && (c == Rejected(NaNValue) <==> conv == Converted(NotANumber) && !blank)
      && (c == Rejected(InfiniteValue) <==> conv.Converted? && conv.f.Infinity? && !blank)
      && (c.Rejected? && c.problem.InvalidNumber? <==> !blank && conv.ValueErr?)
  {
  }

  /**
   * A value is returned exactly when the normalised input converts to a finite
   * float inside the inclusive range; blank text, NaN and infinities are each
   * rejected with their own message, and None lets the TypeError through.
   */
  lemma ValidateNumberSafeMeaning(v: Raw, minimum: real, maximum: real)
    ensures var c := ValidateNumberSafe(v, minimum, maximum);
      && (c.Accepted? <==> (Convert(v).Converted? && Convert(v).f.Finite?
                            && minimum <= Convert(v).f.r <= maximum
                            && !(v.Text? && Normalise(v.s) == [])))
      && (c.Accepted? ==> Convert(v) == Converted(Finite(c.value)))
      && (c.TypeErrorRaised? <==> v.NoneVal?)
      && (v.Text? && Normalise(v.s) == [] ==> c == Rejected(EmptyText))
      && (c == Rejected(NaNValue) <==> Convert(v) == Converted(NotANumber) && !(v.Text? && Normalise(v.s) == []))
      && (c == Rejected(InfiniteValue) <==> (Convert(v).Converted? && Convert(v).f.Infinity?
                                            && !(v.Text? && Normalise(v.s) == [])))
      && (c.Rejected? && c.problem.InvalidNumber? <==> v.Text? && Normalise(v.s) != [] && Convert(v).ValueErr?)
  {
    DecideMeaning(v.Text? && Normalise(v.s) == [], Convert(v), if v.Text? then Normalise(v.s) else [], minimum, maximum);
    assert Convert(v).TypeErr? <==> v.NoneVal?;
  }

  lemma NormaliseFourComma()
    ensures Normalise(" 1,5 ") == "1.5"
  {
    assert " 1,5 "[1..] == "1,5 ";
    assert StripLeft(" 1,5 ", IsSpace) == StripLeft("1,5 ", IsSpace) == "1,5 ";
    assert "1,5 "[..3] == "1,5";
    assert StripRight("1,5 ", IsSpace) == StripRight("1,5", IsSpace) == "1,5";
    assert ReplaceChar("1,5", ',', '.') == "1.5";
  }

  lemma ParseOnePointFive()
    ensures ParseText("1.5") == Some(Finite(1.5))
  {
    UngroupPlain("1.5", false);
    assert FloatStrip("1.5") == "1.5";
    SignedOnePointFive();
  }

  lemma SignedOnePointFive()
    ensures ParseSigned("1.5") == Some(Finite(1.5))
  {
    var s := "1.5";
    assert Lower(s)[0] == '1';
    assert DigitRun(s, 0) == 1;
    assert DigitRun(s, 2) == 3;
    assert s[..1] + s[2..3] == "15";
    assert DigitsValue("15") == 15;
    assert s[3..] == [];
  }

  /** A decimal comma is accepted. */
  lemma AcceptsDecimalComma()
    ensures ValidateNumberSafe(Text(" 1,5 "), 1.0, 50.0) == Accepted(1.5)
  {
    ConvertDecimalComma();
    assert Normalise(" 1,5 ") != [];
  }

  lemma ConvertDecimalComma()
    ensures Normalise(" 1,5 ") == "1.5"
    ensures Convert(Text(" 1,5 ")) == Converted(Finite(1.5))
  {
    NormaliseFourComma();
    ParseOnePointFive();
    ToFloatParsed("1.5", Finite(1.5));
  }

  /** Blank text is an empty-field error. */
  lemma RejectsBlank()
    ensures ValidateNumberSafe(Text("  "), 1.0, 50.0) == Rejected(EmptyText)
  {
    assert "  "[1..] == " ";
    assert StripLeft("  ", IsSpace) == StripLeft(" ", IsSpace) == StripLeft("", IsSpace) == [];
    assert Normalise("  ") == [];
  }

  /** A word is an invalid number, reported with the normalised text. */
  lemma RejectsWords()
    ensures ValidateNumberSafe(Text("abc"), 1.0, 50.0) == Rejected(InvalidNumber("abc"))
  {
    NormaliseWord();
    ParseRejectsWords();
    assert Convert(Text("abc")) == ValueErr;
  }

  lemma NormaliseWord()
    ensures Normalise("abc") == "abc"
  {
    StripOfNoSpace("abc");
    assert ReplaceChar("abc", ',', '.') == "abc";
  }

  /** The bounds are inclusive, and None lets its TypeError escape. */
  lemma RangeBoundsInclusive()
    ensures ValidateNumberSafe(Num(0.5), 1.0, 50.0) == Rejected(TooSmall(0.5, 1.0))
    ensures ValidateNumberSafe(Num(50.0), 1.0, 50.0) == Accepted(50.0)
    ensures ValidateNumberSafe(Num(50.5), 1.0, 50.0) == Rejected(TooLarge(50.5, 50.0))
    ensures ValidateNumberSafe(NoneVal, 1.0, 50.0) == TypeErrorRaised
  {
  }

  /** The form as the validator reads it: the two text fields and the nine numeric fields. */
  datatype Form = Form(
    filePath: string,
    fileExists: bool,
    projectName: string,
    roadWidth: Raw,
    sidewalkWidth: Raw,
    blockDepth: Raw,
    minLotArea: Raw,
    minFrontage: Raw,
    lotWidth: Raw,
    lotDepth: Raw,
    greenPercent: Raw,
    institutionalPercent: Raw)

  datatype FormError =
    | NoFileSelected
    | FileNotFound
    | NoProjectName
    | FieldError(field: Field, problem: Problem)
    | PercentagesOver100

  /** The list of messages, or the TypeError that escapes the form check. */
  datatype FormOutcome = Errors(errors: seq<FormError>) | Raised

  /** The nine numeric fields of the form. */
  datatype Field =
    | RoadWidth
    | SidewalkWidth
    | BlockDepth
    | MinLotArea
    | MinFrontage
    | LotWidth
    | LotDepth
    | GreenPercent
    | InstitutionalPercent

  /** The name a field's message starts with. */
  function Label(field: Field): string
  {
    match field
    case RoadWidth => "Largura da Rua"
    case SidewalkWidth => "Largura da Calçada"
    case BlockDepth => "Profundidade Máxima da Quadra"
    case MinLotArea => "Área Mínima do Lote"
    case MinFrontage => "Testada Mínima do Lote"
    case LotWidth => "Largura Padrão do Lote"
    case LotDepth => "Profundidade Padrão do Lote"
    case GreenPercent => "Percentual de Área Verde"
    case InstitutionalPercent => "Percentual de Área Institucional"
  }

  /** The numeric fields in the order they are checked, with their inclusive ranges. */
  datatype FieldRule = FieldRule(field: Field, minimum: real, maximum: real)

  const Rules: seq<FieldRule> := [
    FieldRule(RoadWidth, 1.0, 50.0),
    FieldRule(SidewalkWidth, 0.0, 20.0),
    FieldRule(BlockDepth, 10.0, 500.0),
    FieldRule(MinLotArea, 50.0, 5000.0),
    FieldRule(MinFrontage, 3.0, 100.0),
    FieldRule(LotWidth, 5.0, 100.0),
    FieldRule(LotDepth, 10.0, 200.0),
    FieldRule(GreenPercent, 0.0, 100.0),
    FieldRule(InstitutionalPercent, 0.0, 100.0)
  ]

  function Values(f: Form): (vs: seq<Raw>)
    ensures |vs| == |Rules|
  {
    [f.roadWidth, f.sidewalkWidth, f.blockDepth, f.minLotArea, f.minFrontage,
     f.lotWidth, f.lotDepth, f.greenPercent, f.institutionalPercent]
  }

  function CheckOf(f: Form, k: nat): Checked
    requires k < |Rules|
  {
    ValidateNumberSafe(Values(f)[k], Rules[k].minimum, Rules[k].maximum)
  }

  /** The message a check appends: one when it rejects, none otherwise. */
  function MessageOf(f: Form, k: nat): seq<FormError>
    requires k < |Rules|
  {
    MessageFor(CheckOf(f, k), k)
  }

  function MessageFor(c: Checked, k: nat): seq<FormError>
    requires k < |Rules|
  {
    if c.Rejected? then [FieldError(Rules[k].field, c.problem)] else []
  }

  /** The outcomes of the nine field checks, in check order. */
  function Checks(f: Form): (cs: seq<Checked>)
    ensures |cs| == |Rules|
    ensures forall k :: 0 <= k < |Rules| ==> cs[k] == CheckOf(f, k)
  {
    seq(|Rules|, k requires 0 <= k < |Rules| => CheckOf(f, k))
  }

  /**
   * The list after the file and name checks and the first n field checks:
   * one message per failing check, in check order.
   */
  function Collected(f: Form, n: nat): (es: seq<FormError>)
    requires n <= |Rules|
  {
    MessagesAfter(FileErrors(f) + NameErrors(f), Checks(f), n)
  }

  /** `base` followed by the messages of the first n checks of `cs`. */
  function MessagesAfter(base: seq<FormError>, cs: seq<Checked>, n: nat): seq<FormError>
    requires n <= |cs| <= |Rules|
  {
    if n == 0 then base else MessagesAfter(base, cs, n - 1) + MessageFor(cs[n - 1], n - 1)
  }

  /** The messages are none exactly when the base is empty and none of the first n checks rejects. */
  lemma {:induction false} MessagesAfterEmpty(base: seq<FormError>, cs: seq<Checked>, n: nat)
    requires n <= |cs| <= |Rules|
    ensures MessagesAfter(base, cs, n) == [] <==> base == [] && forall j :: 0 <= j < n ==> !cs[j].Rejected?
  {
    if n > 0 {
      MessagesAfterEmpty(base, cs, n - 1);
    }
  }

  function FileErrors(f: Form): seq<FormError>
  {
    if f.filePath == [] then [NoFileSelected]
    else if !f.fileExists then [FileNotFound]
    else []
  }

  function NameErrors(f: Form): seq<FormError>
  {
    if Strip(f.projectName) == [] then [NoProjectName] else []
  }

  /** A percentage that failed its check counts as 0 in the sum. */
  function PercentOrZero(c: Checked): real
  {
    if c.Accepted? then c.value else 0.0
  }

  function SumErrors(f: Form): seq<FormError>
  {
    if PercentOrZero(CheckOf(f, 7)) + PercentOrZero(CheckOf(f, 8)) > 100.0 then [PercentagesOver100] else []
  }

  /** What the form check produces, stated over all checks at once. */
  function ExpectedOutcome(f: Form): FormOutcome
  {
    if exists k :: 0 <= k < |Rules| && CheckOf(f, k).TypeErrorRaised? then Raised
    else Errors(Collected(f, |Rules|) + SumErrors(f))
  }

  /** One `try` block of the form check: run the number check, append its message if it rejects. */
  method CheckField(errors: seq<FormError>, f: Form, k: nat) returns (errors': seq<FormError>, c: Checked)
    requires k < |Rules|
    ensures c == CheckOf(f, k)
    ensures errors' == errors + MessageOf(f, k)
  {
    c := ValidateNumberSafe(Values(f)[k], Rules[k].minimum, Rules[k].maximum);
    errors' := errors;
    if c.Rejected? {
      errors' := errors' + [FieldError(Rules[k].field, c.problem)];
    }
  }

  /** Some of the first n field checks lets its TypeError escape. */
  predicate RaisesBelow(f: Form, n: nat)
    requires n <= |Rules|
  {
    exists k :: 0 <= k < n && CheckOf(f, k).TypeErrorRaised?
  }

  /**
   * One more check raises exactly when it or an earlier one does, and adds its
   * own message; none of zero checks raises.
   */
  lemma CheckNext(f: Form, n: nat)
    requires n < |Rules|
    ensures !RaisesBelow(f, 0)
    ensures RaisesBelow(f, n + 1) <==> RaisesBelow(f, n) || CheckOf(f, n).TypeErrorRaised?
    ensures Collected(f, n + 1) == Collected(f, n) + MessageOf(f, n)
  {
    if CheckOf(f, n).TypeErrorRaised? {
      assert 0 <= n < n + 1;
    }
  }

  /** The seven dimension fields, each in its own `try` block. */
  method CheckDimensions(errors: seq<FormError>, f: Form) returns (errors': seq<FormError>, raised: bool)
    requires errors == Collected(f, 0)
    ensures raised == RaisesBelow(f, 7)
    ensures !raised ==> errors' == Collected(f, 7)
  {
    errors' := errors;
    var c;
    CheckNext(f, 0);
    errors', c := CheckField(errors', f, 0);
    if c.TypeErrorRaised? { RaisesBelowRaisesLater(f, 1, 7); return errors', true; }
    CheckNext(f, 1);
    errors', c := CheckField(errors', f, 1);
    if c.TypeErrorRaised? { RaisesBelowRaisesLater(f, 2, 7); return errors', true; }
    CheckNext(f, 2);
    errors', c := CheckField(errors', f, 2);
    if c.TypeErrorRaised? { RaisesBelowRaisesLater(f, 3, 7); return errors', true; }
    CheckNext(f, 3);
    errors', c := CheckField(errors', f, 3);
    if c.TypeErrorRaised? { RaisesBelowRaisesLater(f, 4, 7); return errors', true; }
    CheckNext(f, 4);
    errors', c := CheckField(errors', f, 4);
    if c.TypeErrorRaised? { RaisesBelowRaisesLater(f, 5, 7); return errors', true; }
    CheckNext(f, 5);
    errors', c := CheckField(errors', f, 5);
    if c.TypeErrorRaised? { RaisesBelowRaisesLater(f, 6, 7); return errors', true; }
    CheckNext(f, 6);
    errors', c := CheckField(errors', f, 6);
    raised := c.TypeErrorRaised?;
  }

  /** A check that raises among the first m raises among the first n >= m too. */
  lemma RaisesBelowRaisesLater(f: Form, m: nat, n: nat)
    requires m <= n <= |Rules| && RaisesBelow(f, m)
    ensures RaisesBelow(f, n)
  {
  }

  /** `validar_parametros`: the checks run one after the other, each appending its message. */
  method ValidateParameters(f: Form) returns (outcome: FormOutcome)
    ensures outcome == ExpectedOutcome(f)
  {
    var errors: seq<FormError> := [];
    if f.filePath == [] {
      errors := errors + [NoFileSelected];
    } else if !f.fileExists {
      errors := errors + [FileNotFound];
    }
    if Strip(f.projectName) == [] {
      errors := errors + [NoProjectName];
    }
    assert errors == Collected(f, 0);
    var raised;
    errors, raised := CheckDimensions(errors, f);
    if raised { RaisesBelowRaises(f, 7); return Raised; }
    var green, institutional;
    errors, green := CheckField(errors, f, 7);
    if green.TypeErrorRaised? { RaisedAt(f, 7); return Raised; }
    errors, institutional := CheckField(errors, f, 8);
    if institutional.TypeErrorRaised? { RaisedAt(f, 8); return Raised; }
    var total := (if green.Accepted? then green.value else 0.0) + (if institutional.Accepted? then institutional.value else 0.0);
    var sumErrors := if total > 100.0 then [PercentagesOver100] else [];
    NoneRaisedOutcome(f);
    outcome := Errors(errors + sumErrors);
  }

  /** When no check raises, the outcome is every message in check order, then the sum check's. */
  lemma NoneRaisedOutcome(f: Form)
    requires !RaisesBelow(f, 7) && !CheckOf(f, 7).TypeErrorRaised? && !CheckOf(f, 8).TypeErrorRaised?
    ensures ExpectedOutcome(f) == Errors(Collected(f, 7) + MessageOf(f, 7) + MessageOf(f, 8) + SumErrors(f))
  {
    CheckNext(f, 7);
    CheckNext(f, 8);
    assert !RaisesBelow(f, 9);
  }

  lemma RaisesBelowRaises(f: Form, n: nat)
    requires n <= |Rules| && RaisesBelow(f, n)
    ensures ExpectedOutcome(f) == Raised
  {
  }

  /** One field that raises decides the outcome of the whole form check. */
  lemma RaisedAt(f: Form, k: nat)
    requires k < |Rules| && CheckOf(f, k).TypeErrorRaised?
    ensures ExpectedOutcome(f) == Raised
  {
  }

  lemma CollectedEmpty(f: Form, n: nat)
    requires n <= |Rules|
    ensures Collected(f, n) == [] <==>
      f.filePath != [] && f.fileExists && Strip(f.projectName) != []
      && forall j :: 0 <= j < n ==> !CheckOf(f, j).Rejected?
  {
    var cs := Checks(f);
    MessagesAfterEmpty(FileErrors(f) + NameErrors(f), cs, n);
  }

  /**
   * The form is valid (no message at all) exactly when a file is chosen and
   * exists, the project is named, every field is accepted and the two
   * percentages add up to at most 100.
   */
  lemma ValidFormIffAllChecksPass(f: Form)
    ensures ExpectedOutcome(f) == Errors([]) <==>
      f.filePath != [] && f.fileExists && Strip(f.projectName) != []
      && (forall k :: 0 <= k < |Rules| ==> CheckOf(f, k).Accepted?)
      && CheckOf(f, 7).value + CheckOf(f, 8).value <= 100.0
  {
    CollectedEmpty(f, |Rules|);
    if forall k :: 0 <= k < |Rules| ==> CheckOf(f, k).Accepted? {
      assert CheckOf(f, 7).Accepted? && CheckOf(f, 8).Accepted?;
    }
  }

  /** A None field aborts the whole check with the TypeError, whatever the other fields hold. */
  lemma NoneFieldRaises(f: Form)
    requires f.roadWidth == NoneVal
    ensures ExpectedOutcome(f) == Raised
  {
    assert CheckOf(f, 0).TypeErrorRaised?;
  }

  /** With every field valid, the only message the percentages can produce is the sum error. */
  lemma PercentSumOnlyError(f: Form)
    requires f.filePath != [] && f.fileExists && Strip(f.projectName) != []
    requires forall k :: 0 <= k < |Rules| ==> CheckOf(f, k).Accepted?
    requires CheckOf(f, 7).value + CheckOf(f, 8).value > 100.0
    ensures ExpectedOutcome(f) == Errors([PercentagesOver100])
  {
    CollectedEmpty(f, |Rules|);
  }
}
