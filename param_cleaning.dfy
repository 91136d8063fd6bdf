/**
 * The options cleaner shared, line for line, by the advanced and the robust
 * processors: it walks the ten default options in order and builds a fresh
 * dictionary in which every numeric option is a finite number of at least 0.1
 * and the orientation option is a non-empty label.
 */
module ParamCleaning {
  import opened Geometry
  import opened PyValues

  /** A label option: literal text, or `str(v)` of a value that is not text. */
  datatype Label = Literal(s: string) | StrOf(v: Raw)

  /** A cleaned option value. */
  datatype Setting = Number(r: real) | Choice(option: Label)

  /** The default options, in the order the cleaner visits them. */
  const Defaults: seq<(string, Setting)> := [
    ("largura_rua", Number(8.0)),
    ("largura_calcada", Number(2.0)),
    ("profundidade_max_quadra", Number(80.0)),
    ("orientacao_preferencial", Choice(Literal("Automática"))),
    ("area_minima_lote", Number(200.0)),
    ("testada_minima_lote", Number(8.0)),
    ("largura_padrao_lote", Number(12.0)),
    ("profundidade_padrao_lote", Number(30.0)),
    ("percentual_area_verde", Number(15.0)),
    ("percentual_area_institucional", Number(5.0))
  ]

  function DefaultKeys(): set<string>
  {
    set j | 0 <= j < |Defaults| :: Defaults[j].0
  }

  /** What `parametros.get(chave, padrao)` yields when the key is absent: the default itself. */
  function RawOf(d: Setting): Raw
  {
    match d
    case Number(r) => Num(r)
    case Choice(Literal(s)) => Text(s)
    case Choice(StrOf(v)) => v
  }

  /**
   * A label in its one written form: text is always a `Literal`, so a
   * comparison with a named label is a comparison of the texts.
   */
  predicate Canonical(l: Label)
  {
    l.StrOf? ==> !l.v.Text?
  }

  /** `str(v)`: text stays as it is, any other value is rendered by Python; the label is canonical. */
  function StrValue(v: Raw): (l: Label)
    ensures Canonical(l)
    ensures l.Literal? <==> v.Text?
    ensures v.Text? ==> l == Literal(v.s)
  {
    if v.Text? then Literal(v.s) else StrOf(v)
  }

  /**
   * One option.  A label option keeps `str(v)` when v is truthy and falls back
   * to the default otherwise; a numeric option keeps `max(0.1, float(v))` when
   * the conversion gives a finite float and falls back to the default when it
   * gives NaN or an infinity or raises.
   */
  function CleanValue(d: Setting, v: Raw): (c: Setting)
    ensures c.Number? <==> d.Number?
    ensures c.Number? ==> c == d || c.r >= 0.1
    ensures d.Number? && c.r != d.r ==> ToFloat(v).Converted? && ToFloat(v).f.Finite?
  {
    if d.Choice? then
      (if Truthy(v) then Choice(StrValue(v)) else d)
    else
      match ToFloat(v)
      case Converted(Finite(r)) => Number(MaxReal(0.1, r))
      case Converted(_) => d
      case ValueErr => d
      case TypeErr => d
  }

  function Lookup(params: map<string, Raw>, key: string, d: Setting): Raw
  {
    if key in params then params[key] else RawOf(d)
  }

  /** The dictionary after the first n defaults have been visited. */
  function CleanPrefix(params: map<string, Raw>, n: nat): map<string, Setting>
    requires n <= |Defaults|
  {
    if n == 0 then map[]
    else
      var (key, d) := Defaults[n - 1];
      CleanPrefix(params, n - 1)[key := CleanValue(d, Lookup(params, key, d))]
  }

  function Cleaned(params: map<string, Raw>): map<string, Setting>
  {
    CleanPrefix(params, |Defaults|)
  }

  /** `_validar_e_limpar_parametros`: the loop over the defaults. */
  method ValidateAndClean(params: map<string, Raw>) returns (clean: map<string, Setting>)
    ensures clean == Cleaned(params)
    ensures clean.Keys == DefaultKeys()
    ensures forall j :: 0 <= j < |Defaults| ==>
              clean[Defaults[j].0] == CleanValue(Defaults[j].1, Lookup(params, Defaults[j].0, Defaults[j].1))
  {
    clean := map[];
    for i := 0 to |Defaults|
      invariant clean == CleanPrefix(params, i)
    {
      var (key, d) := Defaults[i];
      var v := if key in params then params[key] else RawOf(d);
      CleanPrefixNext(params, i, key, d);
      clean := clean[key := CleanValue(d, v)];
    }
    CleanedHasDefaultKeys(params);
    forall j | 0 <= j < |Defaults|
      ensures clean[Defaults[j].0] == CleanValue(Defaults[j].1, Lookup(params, Defaults[j].0, Defaults[j].1))
    {
      CleanedAt(params, j);
    }
  }

  lemma CleanPrefixNext(params: map<string, Raw>, i: nat, key: string, d: Setting)
    requires i < |Defaults| && Defaults[i] == (key, d)
    ensures CleanPrefix(params, i + 1) == CleanPrefix(params, i)[key := CleanValue(d, Lookup(params, key, d))]
  {
  }

  lemma {:induction false} CleanPrefixKeys(params: map<string, Raw>, n: nat)
    requires n <= |Defaults|
    ensures CleanPrefix(params, n).Keys == set j | 0 <= j < n :: Defaults[j].0
  {
    if n > 0 {
      CleanPrefixKeys(params, n - 1);
      CleanPrefixKeysNext(params, n - 1);
    }
  }

  lemma CleanPrefixKeysNext(params: map<string, Raw>, k: nat)
    requires k < |Defaults|
    ensures CleanPrefix(params, k + 1).Keys == CleanPrefix(params, k).Keys + {Defaults[k].0}
    ensures (set j | 0 <= j < k + 1 :: Defaults[j].0) == (set j | 0 <= j < k :: Defaults[j].0) + {Defaults[k].0}
  {
    var before := set j | 0 <= j < k :: Defaults[j].0;
    var after := set j | 0 <= j < k + 1 :: Defaults[j].0;
    assert after == before + {Defaults[k].0};
  }

  /** Exactly the ten default keys survive: unknown keys are dropped, missing keys are added. */
  lemma CleanedHasDefaultKeys(params: map<string, Raw>)
    ensures Cleaned(params).Keys == DefaultKeys()
  {
    CleanPrefixKeys(params, |Defaults|);
  }

  lemma DefaultsDistinct()
    ensures forall i, j :: 0 <= i < j < |Defaults| ==> Defaults[i].0 != Defaults[j].0
  {
  }

  lemma {:induction false} CleanPrefixAt(params: map<string, Raw>, n: nat, j: nat)
    requires j < n <= |Defaults|
    ensures Defaults[j].0 in CleanPrefix(params, n)
    ensures CleanPrefix(params, n)[Defaults[j].0]
            == CleanValue(Defaults[j].1, Lookup(params, Defaults[j].0, Defaults[j].1))
  {
    DefaultsDistinct();
    if j < n - 1 {
      CleanPrefixAt(params, n - 1, j);
    }
  }

  /** The value under each default key is that key's input cleaned against its default. */
  lemma CleanedAt(params: map<string, Raw>, j: nat)
    requires j < |Defaults|
    ensures Defaults[j].0 in Cleaned(params)
    ensures Cleaned(params)[Defaults[j].0]
            == CleanValue(Defaults[j].1, Lookup(params, Defaults[j].0, Defaults[j].1))
  {
    CleanPrefixAt(params, |Defaults|, j);
  }

  /** A missing key receives its default. */
  lemma MissingKeyGetsDefault(params: map<string, Raw>, j: nat)
    requires j < |Defaults| && Defaults[j].0 !in params
    ensures Defaults[j].0 in Cleaned(params)
    ensures Cleaned(params)[Defaults[j].0] == Defaults[j].1
  {
    CleanedAt(params, j);
  }

  /**
   * Every numeric option comes out as a number of at least 0.1 (so finite, as no
   * NaN or infinity is representable here), and the label option as a label.
   */
  lemma CleanedNumbersAtLeastTenth(params: map<string, Raw>, j: nat)
    requires j < |Defaults|
    ensures Defaults[j].0 in Cleaned(params)
    ensures Defaults[j].1.Number? ==> Cleaned(params)[Defaults[j].0].Number? && Cleaned(params)[Defaults[j].0].r >= 0.1
    ensures Defaults[j].1.Choice? ==> Cleaned(params)[Defaults[j].0].Choice?
  {
    CleanedAt(params, j);
  }

  /** The three outcomes of a numeric option. */
  lemma CleanNumberCases(d: real, v: Raw)
    ensures ToFloat(v) == Converted(NotANumber) ==> CleanValue(Number(d), v) == Number(d)
    ensures ToFloat(v).Converted? && ToFloat(v).f.Infinity? ==> CleanValue(Number(d), v) == Number(d)
    ensures ToFloat(v).ValueErr? || ToFloat(v).TypeErr? ==> CleanValue(Number(d), v) == Number(d)
    ensures forall r :: ToFloat(v) == Converted(Finite(r)) && r < 0.1 ==> CleanValue(Number(d), v) == Number(0.1)
    ensures forall r :: ToFloat(v) == Converted(Finite(r)) && r >= 0.1 ==> CleanValue(Number(d), v) == Number(r)
  {
  }

  /** A label option is `str(v)` exactly when v is truthy; a canonical default stays canonical. */
  lemma CleanLabelCases(d: Label, v: Raw)
    ensures Truthy(v) ==> CleanValue(Choice(d), v) == Choice(StrValue(v))
    ensures !Truthy(v) ==> CleanValue(Choice(d), v) == Choice(d)
    ensures CleanValue(Choice(d), NoneVal) == Choice(d) && CleanValue(Choice(d), Text("")) == Choice(d)
    ensures Canonical(d) ==> CleanValue(Choice(d), v).Choice? && Canonical(CleanValue(Choice(d), v).option)
  {
  }

  /** The problematic options of the robustness scenario: NaN, infinity, negatives, None, 0. */
  function ProblematicParams(): map<string, Raw>
  {
    map[
      "largura_rua" := NaN,
      "largura_calcada" := Inf(false),
      "profundidade_max_quadra" := Num(-50.0),
      "orientacao_preferencial" := NoneVal,
      "area_minima_lote" := Num(0.0),
      "testada_minima_lote" := NaN,
      "largura_padrao_lote" := Num(1000000.0),
      "profundidade_padrao_lote" := Num(-10.0),
      "percentual_area_verde" := NaN,
      "percentual_area_institucional" := Num(150.0)
    ]
  }

  /**
   * Cleaning the problematic options leaves every numeric value finite and
   * non-negative: NaN and infinity fall back to the defaults, negatives and 0
   * are raised to 0.1, and None leaves the orientation at its default.
   */
  lemma ProblematicParamsAreRepaired()
    ensures Cleaned(ProblematicParams()).Keys == DefaultKeys()
    ensures var c := Cleaned(ProblematicParams());
      "largura_rua" in c && c["largura_rua"] == Number(8.0)
      && "largura_calcada" in c && c["largura_calcada"] == Number(2.0)
      && "profundidade_max_quadra" in c && c["profundidade_max_quadra"] == Number(0.1)
      && "orientacao_preferencial" in c && c["orientacao_preferencial"] == Choice(Literal("Automática"))
      && "area_minima_lote" in c && c["area_minima_lote"] == Number(0.1)
      && "testada_minima_lote" in c && c["testada_minima_lote"] == Number(8.0)
      && "largura_padrao_lote" in c && c["largura_padrao_lote"] == Number(1000000.0)
      && "profundidade_padrao_lote" in c && c["profundidade_padrao_lote"] == Number(0.1)
      && "percentual_area_verde" in c && c["percentual_area_verde"] == Number(15.0)
      && "percentual_area_institucional" in c && c["percentual_area_institucional"] == Number(150.0)
    ensures forall k :: k in Cleaned(ProblematicParams()) && Cleaned(ProblematicParams())[k].Number? ==>
              Cleaned(ProblematicParams())[k].r >= 0.0
  {
    var p := ProblematicParams();
    CleanedHasDefaultKeys(p);
    RepairedRoadWidths(p);
    RepairedNegatives(p);
    RepairedOrientation(p);
    RepairedLotOptions(p);
    forall k | k in Cleaned(p) && Cleaned(p)[k].Number?
      ensures Cleaned(p)[k].r >= 0.0
    {
      var j :| 0 <= j < |Defaults| && Defaults[j].0 == k;
      CleanedNumbersAtLeastTenth(p, j);
    }
  }

  lemma RepairedRoadWidths(p: map<string, Raw>)
    requires p == ProblematicParams()
    ensures var c := Cleaned(p);
      "largura_rua" in c && c["largura_rua"] == Number(8.0)
      && "largura_calcada" in c && c["largura_calcada"] == Number(2.0)
  {
    CleanedAt(p, 0);
    CleanedAt(p, 1);
  }

  lemma RepairedNegatives(p: map<string, Raw>)
    requires p == ProblematicParams()
    ensures var c := Cleaned(p);
      "profundidade_max_quadra" in c && c["profundidade_max_quadra"] == Number(0.1)
      && "area_minima_lote" in c && c["area_minima_lote"] == Number(0.1)
  {
    CleanedAt(p, 2);
    CleanedAt(p, 4);
  }

  lemma RepairedOrientation(p: map<string, Raw>)
    requires p == ProblematicParams()
    ensures var c := Cleaned(p);
      "orientacao_preferencial" in c && c["orientacao_preferencial"] == Choice(Literal("Automática"))
  {
    CleanedAt(p, 3);
    assert !Truthy(p["orientacao_preferencial"]);
  }

  lemma RepairedLotOptions(p: map<string, Raw>)
    requires p == ProblematicParams()
    ensures var c := Cleaned(p);
      "testada_minima_lote" in c && c["testada_minima_lote"] == Number(8.0)
      && "largura_padrao_lote" in c && c["largura_padrao_lote"] == Number(1000000.0)
      && "profundidade_padrao_lote" in c && c["profundidade_padrao_lote"] == Number(0.1)
      && "percentual_area_verde" in c && c["percentual_area_verde"] == Number(15.0)
      && "percentual_area_institucional" in c && c["percentual_area_institucional"] == Number(150.0)
  {
    CleanedAt(p, 5);
    CleanedAt(p, 6);
    CleanedAt(p, 7);
    CleanedAt(p, 8);
    CleanedAt(p, 9);
  }

  /** The cleaned options as the processors read them. */
  datatype Options = Options(
    roadWidth: real, sidewalkWidth: real, maxBlockDepth: real, orientation: Label,
    minLotArea: real, minFrontage: real, lotWidth: real, lotDepth: real,
    greenPercent: real, institutionalPercent: real)

  function NumberAt(m: map<string, Setting>, key: string): real
  {
    if key in m && m[key].Number? then m[key].r else 0.0
  }

  function LabelAt(m: map<string, Setting>, key: string): Label
  {
    if key in m && m[key].Choice? then m[key].option else Literal("")
  }

  function OptionsOf(m: map<string, Setting>): Options
  {
    Options(NumberAt(m, "largura_rua"), NumberAt(m, "largura_calcada"), NumberAt(m, "profundidade_max_quadra"),
            LabelAt(m, "orientacao_preferencial"), NumberAt(m, "area_minima_lote"), NumberAt(m, "testada_minima_lote"),
            NumberAt(m, "largura_padrao_lote"), NumberAt(m, "profundidade_padrao_lote"),
            NumberAt(m, "percentual_area_verde"), NumberAt(m, "percentual_area_institucional"))
  }

  predicate AllAtLeastTenth(o: Options)
  {
    && o.roadWidth >= 0.1 && o.sidewalkWidth >= 0.1 && o.maxBlockDepth >= 0.1
    && o.minLotArea >= 0.1 && o.minFrontage >= 0.1 && o.lotWidth >= 0.1 && o.lotDepth >= 0.1
    && o.greenPercent >= 0.1 && o.institutionalPercent >= 0.1
  }

  /** Whatever the input, every numeric option a processor reads after cleaning is at least 0.1. */
  lemma CleanedOptionsAtLeastTenth(params: map<string, Raw>)
    ensures AllAtLeastTenth(OptionsOf(Cleaned(params)))
  {
    CleanedNumbersAtLeastTenth(params, 0);
    CleanedNumbersAtLeastTenth(params, 1);
    CleanedNumbersAtLeastTenth(params, 2);
    CleanedNumbersAtLeastTenth(params, 4);
    CleanedNumbersAtLeastTenth(params, 5);
    CleanedNumbersAtLeastTenth(params, 6);
    CleanedNumbersAtLeastTenth(params, 7);
    CleanedNumbersAtLeastTenth(params, 8);
    CleanedNumbersAtLeastTenth(params, 9);
  }
}
