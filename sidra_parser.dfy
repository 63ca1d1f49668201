/**
 * The flattener for responses of IBGE's SIDRA statistics API. A response is a
 * list of variables; each variable has results, each result has
 * classifications and series, and each series maps a year to a value. The
 * parser turns this into one flat record per usable (series, year) value, in
 * nesting order, attaching the variable's and the locality's descriptive
 * fields and the classification categories of the enclosing result.
 *
 * The nesting order is captured by `Entries`, the flat list of every
 * (series, year) entry of the response; `Emit` says which records those
 * entries produce; the imperative `ParseSidraResponse` is proved to compute
 * exactly `Emit(toFloat, Entries(data))`.
 */
module SidraParser {
  import opened Wrappers
  import opened Strings

  /** A JSON value as the decoder delivers it; ints and floats alike as numbers, objects as their entries in order. */
  datatype Json =
    | JNull
    | JBool(b: bool)
    | JNumber(x: real)
    | JString(s: string)
    | JArray(items: seq<Json>)
    | JObject(entries: seq<(string, Json)>)

  /** Python truthiness of a decoded JSON value. */
  predicate Truthy(v: Json)
  {
    match v
    case JNull => false
    case JBool(b) => b
    case JNumber(x) => x != 0.0
    case JString(s) => s != ""
    case JArray(items) => items != []
    case JObject(entries) => entries != []
  }

  // ------------------------------------------------------------ the response

  /**
   * The fields of a series' locality. `nivel` is the `nome` inside its `nivel`
   * object; an absent field reads as `JNull`, as `dict.get` returns None.
   */
  datatype Localidade = Localidade(id: Json, nome: Json, nivel: Json)

  /** A time series: its locality and its year → value entries, in document order. */
  datatype Serie = Serie(localidade: Localidade, valores: seq<(string, Json)>)

  /** A classification (an absent `nome` reads as "") and its category id → name entries. */
  datatype Classificacao = Classificacao(nome: string, categoria: seq<(string, Json)>)

  datatype Resultado = Resultado(classificacoes: seq<Classificacao>, series: seq<Serie>)

  datatype Variavel = Variavel(id: Json, nome: Json, unidade: Json, resultados: seq<Resultado>)

  /** One output row; `classificacoes` holds the extra "classif_<nome>" columns. */
  datatype Record = Record(
    variavelId: Json, variavelNome: Json, unidade: Json,
    localidadeId: Json, localidadeNome: Json, localidadeNivel: Json,
    ano: int, valor: real, classificacoes: map<string, Json>)

  /** `int(ano)` refused a year key of a value that was to be kept; the exception leaves the parser. */
  datatype SidraError = InvalidYear(key: string)

  type Parsed = Result<seq<Record>, SidraError>

  /** Python's `float` on a string: the number it denotes, or None where it raises ValueError. */
  type FloatParser = string -> Option<real>

  // ---------------------------------------------------------- numeric values

  /** The Brazilian-format clean-up: strip whitespace, drop every '.', turn every ',' into '.'. */
  function Normalise(s: string): string
  {
    ReplaceChar(ReplaceChar(Strip(s), '.', ""), ',', ".")
  }

  /**
   * The normalised string has no thousands separator left: no ',' at all, and
   * exactly one '.' per ',' of the input (its decimal comma). Every other
   * non-blank character occurs as often as before.
   */
  lemma NormaliseSeparators(s: string, x: char)
    requires !IsSpace(x) && x != '.' && x != ','
    ensures CountChar(Normalise(s), ',') == 0
    ensures CountChar(Normalise(s), '.') == CountChar(s, ',')
    ensures CountChar(Normalise(s), x) == CountChar(s, x)
  {
    var t := Strip(s);
    var u := ReplaceChar(t, '.', "");
    CountReplaced(u, ',', '.');
    CountAfterReplace(u, ',', '.', '.');
    CountAfterReplace(u, ',', '.', x);
    CountAfterDelete(t, '.', '.');
    CountAfterDelete(t, '.', ',');
    CountAfterDelete(t, '.', x);
    StripCount(s, ',');
    StripCount(s, x);
  }

  /** Digit groups written with '.' between them, the way Brazilian notation writes thousands. */
  function Grouped(groups: seq<string>): string
  {
    if |groups| <= 1 then (if groups == [] then "" else groups[0])
    else Grouped(groups[..|groups| - 1]) + "." + groups[|groups| - 1]
  }

  /** The same digit groups without separators. */
  function Concat(groups: seq<string>): string
  {
    if groups == [] then "" else Concat(groups[..|groups| - 1]) + groups[|groups| - 1]
  }

  lemma {:induction false} DropSeparators(groups: seq<string>)
    requires forall i :: 0 <= i < |groups| ==> AllDigits(groups[i])
    ensures ReplaceChar(Grouped(groups), '.', "") == Concat(groups)
    ensures AllDigits(Concat(groups))
  {
    if groups == [] {
    } else if |groups| == 1 {
      ReplaceAbsent(groups[0], '.', "");
      assert Concat(groups) == Concat([]) + groups[0];
    } else {
      var init, last := groups[..|groups| - 1], groups[|groups| - 1];
      DropSeparators(init);
      var g := Grouped(init);
      ReplaceAppend(g + ".", last, '.', "");
      ReplaceAppend(g, ".", '.', "");
      ReplaceAbsent(last, '.', "");
      assert ReplaceChar(".", '.', "") == "";
      assert ReplaceChar(g + ".", '.', "") == Concat(init) by {
        assert Concat(init) + "" == Concat(init);
      }
    }
  }

  lemma GroupedStart(groups: seq<string>)
    requires groups != [] && groups[0] != []
    ensures Grouped(groups) != [] && Grouped(groups)[0] == groups[0][0]
  {
    if |groups| > 1 {
      GroupedStart(groups[..|groups| - 1]);
    }
  }

  lemma GroupedUnpadded(groups: seq<string>, fraction: string)
    requires groups != [] && groups[0] != [] && fraction != []
    requires IsDigit(groups[0][0]) && IsDigit(fraction[|fraction| - 1])
    ensures Strip(Grouped(groups) + "," + fraction) == Grouped(groups) + "," + fraction
  {
    var g := Grouped(groups);
    var s := g + "," + fraction;
    GroupedStart(groups);
    assert s[0] == g[0];
    assert s[|s| - 1] == fraction[|fraction| - 1];
    StripUnpadded(s);
  }

  lemma DropThousands(groups: seq<string>, fraction: string)
    requires forall i :: 0 <= i < |groups| ==> AllDigits(groups[i])
    requires AllDigits(fraction)
    ensures ReplaceChar(Grouped(groups) + "," + fraction, '.', "") == Concat(groups) + "," + fraction
  {
    var g := Grouped(groups);
    DropSeparators(groups);
    ReplaceAppend(g + ",", fraction, '.', "");
    ReplaceAppend(g, ",", '.', "");
    ReplaceAbsent(fraction, '.', "");
    ReplaceAbsent(",", '.', "");
  }

  lemma DecimalPoint(d: string, fraction: string)
    requires AllDigits(d) && AllDigits(fraction)
    ensures ReplaceChar(d + "," + fraction, ',', ".") == d + "." + fraction
  {
    ReplaceAppend(d + ",", fraction, ',', ".");
    ReplaceAppend(d, ",", ',', ".");
    ReplaceAbsent(d, ',', ".");
    ReplaceAbsent(fraction, ',', ".");
    assert ReplaceChar(",", ',', ".") == ".";
  }

  /**
   * A number in Brazilian notation, digit groups separated by '.' and a
   * decimal comma before the fraction, normalises to the digits without
   * separators, a '.', and the fraction: "1.234.567,89" becomes "1234567.89".
   */
  lemma NormaliseBrazilian(groups: seq<string>, fraction: string)
    requires groups != [] && groups[0] != [] && fraction != []
    requires forall i :: 0 <= i < |groups| ==> AllDigits(groups[i])
    requires AllDigits(fraction)
    ensures Normalise(Grouped(groups) + "," + fraction) == Concat(groups) + "." + fraction
  {
    assert IsDigit(groups[0][0]) && IsDigit(fraction[|fraction| - 1]);
    GroupedUnpadded(groups, fraction);
    DropThousands(groups, fraction);
    DropSeparators(groups);
    DecimalPoint(Concat(groups), fraction);
  }

  /**
   * `_parse_numeric_value`: numbers pass through (booleans too, Python counting
   * them as ints); a string is normalised and handed to `float`; any other value
   * gives None.
   */
  function ParseNumeric(toFloat: FloatParser, v: Json): (r: Option<real>)
    ensures v.JNumber? ==> r == Some(v.x)
    ensures v.JBool? ==> r == Some(if v.b then 1.0 else 0.0)
    ensures v.JString? ==> r == toFloat(Normalise(v.s))
    ensures v.JNull? || v.JArray? || v.JObject? ==> r == None
  {
    match v
    case JNumber(x) => Some(x)
    case JBool(b) => Some(if b then 1.0 else 0.0)
    case JString(s) => toFloat(Normalise(s))
    case _ => None
  }

  /**
   * A string value in Brazilian notation parses as Python's `float` reads the
   * plain digits with a decimal point: "1.234.567,89" is `float("1234567.89")`.
   */
  lemma ParseBrazilian(toFloat: FloatParser, groups: seq<string>, fraction: string)
    requires groups != [] && groups[0] != [] && fraction != []
    requires forall i :: 0 <= i < |groups| ==> AllDigits(groups[i])
    requires AllDigits(fraction)
    ensures ParseNumeric(toFloat, JString(Grouped(groups) + "," + fraction)) == toFloat(Concat(groups) + "." + fraction)
  {
    NormaliseBrazilian(groups, fraction);
  }

  /** Blanks around a string value do not change the number it parses to. */
  lemma ParseBlank(toFloat: FloatParser, pad1: string, s: string, pad2: string)
    requires AllSpace(pad1) && AllSpace(pad2)
    ensures ParseNumeric(toFloat, JString(pad1 + s + pad2)) == ParseNumeric(toFloat, JString(s))
  {
    StripBlank(pad1, s, pad2);
  }

  /**
   * `float` is never shown a ',': two float parsers that agree on every
   * comma-free text give the same result on every value.
   */
  lemma ParseWithoutComma(f: FloatParser, g: FloatParser, v: Json)
    requires forall t :: CountChar(t, ',') == 0 ==> f(t) == g(t)
    ensures ParseNumeric(f, v) == ParseNumeric(g, v)
  {
    if v.JString? {
      NormaliseSeparators(v.s, '0');
    }
  }

  /** A value survives the filter: truthy and neither of the missing-data markers "-" and "...". */
  predicate Keep(v: Json)
  {
    Truthy(v) && v != JString("-") && v != JString("...")
  }

  /** `int(key)`: optional surrounding whitespace, an optional sign, one or more decimal digits. */
  function ParseYear(key: string): Option<int>
  {
    var t := Strip(key);
    if |t| >= 2 && (t[0] == '-' || t[0] == '+') && AllDigits(t[1..]) then
      var n: int := ParseDigits(t[1..]);
      Some(if t[0] == '-' then -n else n)
    else if |t| >= 1 && AllDigits(t) then Some(ParseDigits(t))
    else None
  }

  /** `int(str(y)) == y`: a year key written by the API's own formatting reads back as that year. */
  lemma YearRoundTrip(y: int)
    ensures ParseYear(FormatInt(y)) == Some(y)
  {
    var d := Decimal(if y < 0 then -y else y);
    ParseDecimal(if y < 0 then -y else y);
    if y < 0 {
      var t := "-" + d;
      StripUnpadded(t);
      assert t[1..] == d;
    } else {
      StripUnpadded(d);
    }
  }

  /** Blanks around a year key are ignored, as `int` strips them. */
  lemma YearIgnoresBlanks(y: nat)
    ensures ParseYear(" " + Decimal(y) + " ") == Some(y)
  {
    var d := Decimal(y);
    var padded := " " + d + " ";
    assert StripLeft(padded) == d + " " by {
      assert padded[1..] == d + " ";
    }
    assert StripRight(d + " ") == d by {
      assert (d + " ")[..|d|] == d;
      StripUnpadded(d);
    }
    ParseDecimal(y);
  }

  // ---------------------------------------------------------- flat entries

  /** One (series, year) entry together with everything the parser knows when it reaches it. */
  datatype Entry = Entry(variavel: Variavel, info: map<string, Json>, localidade: Localidade, key: string, value: Json)

  /** The entries of a response, in the order of the nested loops: variable, result, series, year. */
  function Entries(data: seq<Variavel>): seq<Entry>
  {
    if data == [] then [] else VariavelEntries(data[0]) + Entries(data[1..])
  }

  function VariavelEntries(v: Variavel): seq<Entry>
  {
    ResultadosEntries(v, v.resultados)
  }

  function ResultadosEntries(v: Variavel, rs: seq<Resultado>): seq<Entry>
  {
    if rs == [] then []
    else SeriesEntries(v, ClassifInfo(rs[0].classificacoes), rs[0].series) + ResultadosEntries(v, rs[1..])
  }

  function SeriesEntries(v: Variavel, info: map<string, Json>, ss: seq<Serie>): seq<Entry>
  {
    if ss == [] then []
    else ValoresEntries(v, info, ss[0].localidade, ss[0].valores) + SeriesEntries(v, info, ss[1..])
  }

  function ValoresEntries(v: Variavel, info: map<string, Json>, loc: Localidade, kvs: seq<(string, Json)>): seq<Entry>
  {
    if kvs == [] then []
    else [Entry(v, info, loc, kvs[0].0, kvs[0].1)] + ValoresEntries(v, info, loc, kvs[1..])
  }

  // ------------------------------------------------------ classifications

  /** The column a classification's categories are written to. */
  function ClassifColumn(nome: string): string { "classif_" + nome }

  /** The inner loop: every category of one classification overwrites the same column. */
  function CategoriesUpdate(info: map<string, Json>, column: string, cats: seq<(string, Json)>): map<string, Json>
  {
    if cats == [] then info
    else CategoriesUpdate(info, column, cats[..|cats| - 1])[column := cats[|cats| - 1].1]
  }

  /** `classificacao_info` after the loop over a result's classifications. */
  function ClassifInfo(cs: seq<Classificacao>): map<string, Json>
  {
    if cs == [] then map[]
    else
      var last := cs[|cs| - 1];
      CategoriesUpdate(ClassifInfo(cs[..|cs| - 1]), ClassifColumn(last.nome), last.categoria)
  }

  /** Of several categories only the last survives; a classification without categories adds no column. */
  lemma {:induction false} CategoriesLastWins(info: map<string, Json>, column: string, cats: seq<(string, Json)>)
    ensures cats == [] ==> CategoriesUpdate(info, column, cats) == info
    ensures cats != [] ==> CategoriesUpdate(info, column, cats) == info[column := cats[|cats| - 1].1]
  {
    if cats != [] {
      var init := cats[..|cats| - 1];
      CategoriesLastWins(info, column, init);
      if init != [] {
        assert info[column := init[|init| - 1].1][column := cats[|cats| - 1].1] == info[column := cats[|cats| - 1].1];
      }
    }
  }

  lemma ClassifColumnInjective(a: string, b: string)
    ensures ClassifColumn(a) == ClassifColumn(b) ==> a == b
  {
    if ClassifColumn(a) == ClassifColumn(b) {
      assert ClassifColumn(a)[8..] == a;
      assert ClassifColumn(b)[8..] == b;
    }
  }

  /** The classification columns of a result: one per classification name that has at least one category. */
  lemma {:induction false} ClassifColumns(cs: seq<Classificacao>, column: string)
    ensures column in ClassifInfo(cs) <==> exists c :: c in cs && c.categoria != [] && column == ClassifColumn(c.nome)
  {
    if cs != [] {
      var init, last := cs[..|cs| - 1], cs[|cs| - 1];
      ClassifColumns(init, column);
      CategoriesLastWins(ClassifInfo(init), ClassifColumn(last.nome), last.categoria);
      assert cs == init + [last];
      if column in ClassifInfo(cs) && !(last.categoria != [] && column == ClassifColumn(last.nome)) {
        var c :| c in init && c.categoria != [] && column == ClassifColumn(c.nome);
        assert c in cs;
      }
    }
  }

  /**
   * The value of a classification column: the last category of the last
   * classification of that name that has any.
   */
  lemma {:induction false} ClassifValue(cs: seq<Classificacao>, i: nat)
    requires i < |cs| && cs[i].categoria != []
    requires forall j :: i < j < |cs| && cs[j].categoria != [] ==> cs[j].nome != cs[i].nome
    ensures ClassifColumn(cs[i].nome) in ClassifInfo(cs)
    ensures ClassifInfo(cs)[ClassifColumn(cs[i].nome)] == cs[i].categoria[|cs[i].categoria| - 1].1
  {
    var init, last := cs[..|cs| - 1], cs[|cs| - 1];
    CategoriesLastWins(ClassifInfo(init), ClassifColumn(last.nome), last.categoria);
    if i < |cs| - 1 {
      ClassifValue(init, i);
      ClassifColumnInjective(last.nome, cs[i].nome);
    }
  }

  // -------------------------------------------------------------- records

  /** The record fields taken from an entry: its variable, its locality, the parsed year and value, the classification columns. */
  predicate FromEntry(e: Entry, toFloat: FloatParser, rec: Record)
  {
    && rec.variavelId == e.variavel.id && rec.variavelNome == e.variavel.nome && rec.unidade == e.variavel.unidade
    && rec.localidadeId == e.localidade.id && rec.localidadeNome == e.localidade.nome
    && rec.localidadeNivel == e.localidade.nivel
    && ParseYear(e.key) == Some(rec.ano)
    && ParseNumeric(toFloat, e.value) == Some(rec.valor)
    && rec.classificacoes == e.info
  }

  /**
   * What one entry contributes: nothing when its value is filtered out or does
   * not parse, the error when its year key does not parse, otherwise one record.
   */
  function EntryRecords(toFloat: FloatParser, e: Entry): (r: Parsed)
    ensures r.Err? <==> Keep(e.value) && ParseNumeric(toFloat, e.value).Some? && ParseYear(e.key).None?
    ensures r.Err? ==> r.error == InvalidYear(e.key)
    ensures r.Ok? ==> |r.value| <= 1
    ensures r.Ok? && r.value != [] <==> Keep(e.value) && ParseNumeric(toFloat, e.value).Some? && ParseYear(e.key).Some?
    ensures r.Ok? && r.value != [] ==> FromEntry(e, toFloat, r.value[0])
  {
    if !Keep(e.value) then Ok([])
    else match ParseNumeric(toFloat, e.value)
      case None => Ok([])
      case Some(x) =>
        match ParseYear(e.key)
        case None => Err(InvalidYear(e.key))
        case Some(y) =>
          Ok([Record(e.variavel.id, e.variavel.nome, e.variavel.unidade,
                     e.localidade.id, e.localidade.nome, e.localidade.nivel, y, x, e.info)])
  }

  /** Sequencing two steps of the parser: the first exception wins, otherwise the records are concatenated. */
  function Join(a: Parsed, b: Parsed): (r: Parsed)
  {
    if a.Err? then a else if b.Err? then b else Ok(a.value + b.value)
  }

  /** The records a run of entries produces, or the first error among them. */
  function Emit(toFloat: FloatParser, es: seq<Entry>): Parsed
  {
    if es == [] then Ok([]) else Join(EntryRecords(toFloat, es[0]), Emit(toFloat, es[1..]))
  }

  /** `parse_sidra_response` as a function of the response. */
  function SidraRecords(toFloat: FloatParser, data: seq<Variavel>): Parsed
  {
    Emit(toFloat, Entries(data))
  }

  lemma JoinAssociative(a: Parsed, b: Parsed, c: Parsed)
    ensures Join(Join(a, b), c) == Join(a, Join(b, c))
  {
    if a.Ok? && b.Ok? && c.Ok? {
      assert (a.value + b.value) + c.value == a.value + (b.value + c.value);
    }
  }

  lemma JoinEmpty(a: Parsed)
    ensures Join(a, Ok([])) == a
  {
    if a.Ok? {
      assert a.value + [] == a.value;
    }
  }

  /** Entries are processed in order: the records of `a + b` are those of `a` followed by those of `b`. */
  lemma {:induction false} EmitAppend(toFloat: FloatParser, a: seq<Entry>, b: seq<Entry>)
    ensures Emit(toFloat, a + b) == Join(Emit(toFloat, a), Emit(toFloat, b))
  {
    if a == [] {
      assert a + b == b;
      var eb := Emit(toFloat, b);
      if eb.Ok? {
        assert [] + eb.value == eb.value;
      }
    } else {
      assert (a + b)[0] == a[0];
      assert (a + b)[1..] == a[1..] + b;
      EmitAppend(toFloat, a[1..], b);
      JoinAssociative(EntryRecords(toFloat, a[0]), Emit(toFloat, a[1..]), Emit(toFloat, b));
    }
  }

  /** At most one record per (series, year) entry. */
  lemma {:induction false} EmitBounded(toFloat: FloatParser, es: seq<Entry>)
    ensures Emit(toFloat, es).Ok? ==> |Emit(toFloat, es).value| <= |es|
  {
    if es != [] {
      EmitBounded(toFloat, es[1..]);
    }
  }

  /** Every record comes from one entry and carries that entry's fields. */
  lemma {:induction false} EmitProvenance(toFloat: FloatParser, es: seq<Entry>, rec: Record)
    requires Emit(toFloat, es).Ok? && rec in Emit(toFloat, es).value
    ensures exists e :: e in es && FromEntry(e, toFloat, rec)
  {
    var head, rest := EntryRecords(toFloat, es[0]), Emit(toFloat, es[1..]);
    if rec in head.value {
      assert FromEntry(es[0], toFloat, rec);
    } else {
      assert rec in rest.value;
      EmitProvenance(toFloat, es[1..], rec);
      var e :| e in es[1..] && FromEntry(e, toFloat, rec);
      assert e in es;
    }
  }

  /** Every entry that is kept and parses yields its record (when the run raises no error). */
  lemma {:induction false} EmitComplete(toFloat: FloatParser, es: seq<Entry>, i: nat)
    requires i < |es| && Emit(toFloat, es).Ok?
    requires Keep(es[i].value) && ParseNumeric(toFloat, es[i].value).Some?
    ensures ParseYear(es[i].key).Some?
    ensures EntryRecords(toFloat, es[i]).value[0] in Emit(toFloat, es).value
  {
    if i > 0 {
      EmitComplete(toFloat, es[1..], i - 1);
    }
  }

  /** A run raises exactly when one of its entries does. */
  lemma {:induction false} EmitFails(toFloat: FloatParser, es: seq<Entry>)
    ensures Emit(toFloat, es).Ok? <==> forall i :: 0 <= i < |es| ==> EntryRecords(toFloat, es[i]).Ok?
  {
    if es != [] {
      EmitFails(toFloat, es[1..]);
      assert forall i :: 1 <= i < |es| ==> es[i] == es[1..][i - 1];
    }
  }

  /** The exception a run raises is the one of its first failing entry. */
  lemma {:induction false} EmitFirstError(toFloat: FloatParser, es: seq<Entry>, i: nat)
    requires i < |es| && EntryRecords(toFloat, es[i]).Err?
    requires forall j :: 0 <= j < i ==> EntryRecords(toFloat, es[j]).Ok?
    ensures Emit(toFloat, es) == EntryRecords(toFloat, es[i])
  {
    if i > 0 {
      assert forall j :: 0 <= j < i - 1 ==> es[1..][j] == es[j + 1];
      EmitFirstError(toFloat, es[1..], i - 1);
    }
  }

  lemma {:induction false} EmitErrorSource(toFloat: FloatParser, es: seq<Entry>)
    requires Emit(toFloat, es).Err?
    ensures exists i :: 0 <= i < |es| && Emit(toFloat, es) == EntryRecords(toFloat, es[i])
  {
    if EntryRecords(toFloat, es[0]).Err? {
      assert Emit(toFloat, es) == EntryRecords(toFloat, es[0]);
    } else {
      EmitErrorSource(toFloat, es[1..]);
      var i :| 0 <= i < |es[1..]| && Emit(toFloat, es[1..]) == EntryRecords(toFloat, es[1..][i]);
      assert Emit(toFloat, es) == EntryRecords(toFloat, es[i + 1]);
    }
  }

  // ------------------------------------------------- where entries come from

  /** The entry is the year entry `(key, value)` of series `s`, inside variable `v` under classifications `info`. */
  predicate InSerie(e: Entry, v: Variavel, info: map<string, Json>, s: Serie)
  {
    e.variavel == v && e.info == info && e.localidade == s.localidade && (e.key, e.value) in s.valores
  }

  predicate InResultado(e: Entry, v: Variavel, r: Resultado)
  {
    exists s :: s in r.series && InSerie(e, v, ClassifInfo(r.classificacoes), s)
  }

  predicate InVariavel(e: Entry, v: Variavel)
  {
    exists r :: r in v.resultados && InResultado(e, v, r)
  }

  /** The entry is a year entry of some series of some result of some variable of the response. */
  predicate InResponse(e: Entry, data: seq<Variavel>)
  {
    exists v :: v in data && InVariavel(e, v)
  }

  lemma {:induction false} SerieOrigin(v: Variavel, info: map<string, Json>, kvs: seq<(string, Json)>, loc: Localidade, e: Entry)
    ensures e in ValoresEntries(v, info, loc, kvs)
        <==> e.variavel == v && e.info == info && e.localidade == loc && (e.key, e.value) in kvs
  {
    if kvs != [] {
      SerieOrigin(v, info, kvs[1..], loc, e);
      assert kvs == [kvs[0]] + kvs[1..];
    }
  }

  lemma {:induction false} SeriesOrigin(v: Variavel, info: map<string, Json>, ss: seq<Serie>, e: Entry)
    ensures e in SeriesEntries(v, info, ss) <==> exists s :: s in ss && InSerie(e, v, info, s)
  {
    if ss != [] {
      var head, tail := ss[0], ss[1..];
      SerieOrigin(v, info, head.valores, head.localidade, e);
      SeriesOrigin(v, info, tail, e);
      if e in SeriesEntries(v, info, ss) {
        if e in ValoresEntries(v, info, head.localidade, head.valores) {
          assert head in ss && InSerie(e, v, info, head);
        } else {
          var s :| s in tail && InSerie(e, v, info, s);
          assert s in ss;
        }
      }
      if exists s :: s in ss && InSerie(e, v, info, s) {
        var s :| s in ss && InSerie(e, v, info, s);
        if s == head {
          assert e in ValoresEntries(v, info, head.localidade, head.valores);
        } else {
          assert s in tail;
          assert e in SeriesEntries(v, info, tail);
        }
      }
    }
  }

  lemma {:induction false} ResultadosOrigin(v: Variavel, rs: seq<Resultado>, e: Entry)
    ensures e in ResultadosEntries(v, rs) <==> exists r :: r in rs && InResultado(e, v, r)
  {
    if rs != [] {
      var head, tail := rs[0], rs[1..];
      var info := ClassifInfo(head.classificacoes);
      SeriesOrigin(v, info, head.series, e);
      ResultadosOrigin(v, tail, e);
      if e in ResultadosEntries(v, rs) {
        if e in SeriesEntries(v, info, head.series) {
          assert head in rs && InResultado(e, v, head);
        } else {
          var r :| r in tail && InResultado(e, v, r);
          assert r in rs;
        }
      }
      if exists r :: r in rs && InResultado(e, v, r) {
        var r :| r in rs && InResultado(e, v, r);
        if r == head {
          assert e in SeriesEntries(v, info, head.series);
        } else {
          assert r in tail;
          assert e in ResultadosEntries(v, tail);
        }
      }
    }
  }

  /** The flat entry list holds exactly the year entries of the response, each with its own variable, locality and classifications. */
  lemma {:induction false} EntriesOrigin(data: seq<Variavel>, e: Entry)
    ensures e in Entries(data) <==> InResponse(e, data)
  {
    if data != [] {
      var head, tail := data[0], data[1..];
      ResultadosOrigin(head, head.resultados, e);
      EntriesOrigin(tail, e);
      if e in Entries(data) {
        if e in VariavelEntries(head) {
          assert head in data && InVariavel(e, head);
        } else {
          var v :| v in tail && InVariavel(e, v);
          assert v in data;
        }
      }
      if InResponse(e, data) {
        var v :| v in data && InVariavel(e, v);
        if v == head {
          assert e in VariavelEntries(head);
        } else {
          assert v in tail;
          assert e in Entries(tail);
        }
      }
    }
  }

  /** The number of (series, year) entries of a response, counted level by level. */
  function YearEntryCount(data: seq<Variavel>): nat
  {
    if data == [] then 0 else ResultadosCount(data[0].resultados) + YearEntryCount(data[1..])
  }

  function ResultadosCount(rs: seq<Resultado>): nat
  {
    if rs == [] then 0 else SeriesCount(rs[0].series) + ResultadosCount(rs[1..])
  }

  function SeriesCount(ss: seq<Serie>): nat
  {
    if ss == [] then 0 else |ss[0].valores| + SeriesCount(ss[1..])
  }

  lemma {:induction false} ValoresLength(v: Variavel, info: map<string, Json>, loc: Localidade, kvs: seq<(string, Json)>)
    ensures |ValoresEntries(v, info, loc, kvs)| == |kvs|
  {
    if kvs != [] {
      ValoresLength(v, info, loc, kvs[1..]);
    }
  }

  lemma {:induction false} SeriesLength(v: Variavel, info: map<string, Json>, ss: seq<Serie>)
    ensures |SeriesEntries(v, info, ss)| == SeriesCount(ss)
  {
    if ss != [] {
      ValoresLength(v, info, ss[0].localidade, ss[0].valores);
      SeriesLength(v, info, ss[1..]);
    }
  }

  lemma {:induction false} ResultadosLength(v: Variavel, rs: seq<Resultado>)
    ensures |ResultadosEntries(v, rs)| == ResultadosCount(rs)
  {
    if rs != [] {
      SeriesLength(v, ClassifInfo(rs[0].classificacoes), rs[0].series);
      ResultadosLength(v, rs[1..]);
    }
  }

  lemma {:induction false} EntriesLength(data: seq<Variavel>)
    ensures |Entries(data)| == YearEntryCount(data)
  {
    if data != [] {
      ResultadosLength(data[0], data[0].resultados);
      EntriesLength(data[1..]);
    }
  }

  // ----------------------------------------------------- the parser's promises

  /** An empty response gives no records. */
  lemma EmptyResponse(toFloat: FloatParser)
    ensures SidraRecords(toFloat, []) == Ok([])
  {
  }

  /**
   * The parser's promises for a whole response: no more records than year
   * entries; every record comes from a year entry of the response and carries
   * its variable's, locality's, year's and value's fields and the
   * classification columns of its result; every year entry that survives the
   * filter and parses has its record.
   */
  lemma SidraFacts(toFloat: FloatParser, data: seq<Variavel>)
    requires SidraRecords(toFloat, data).Ok?
    ensures |SidraRecords(toFloat, data).value| <= YearEntryCount(data)
    ensures forall rec :: rec in SidraRecords(toFloat, data).value ==>
              exists e :: InResponse(e, data) && FromEntry(e, toFloat, rec)
    ensures forall e :: InResponse(e, data) && Keep(e.value) && ParseNumeric(toFloat, e.value).Some? ==>
              ParseYear(e.key).Some? && EntryRecords(toFloat, e).value[0] in SidraRecords(toFloat, data).value
  {
    var es := Entries(data);
    EmitBounded(toFloat, es);
    EntriesLength(data);
    forall rec | rec in SidraRecords(toFloat, data).value
      ensures exists e :: InResponse(e, data) && FromEntry(e, toFloat, rec)
    {
      EmitProvenance(toFloat, es, rec);
      var e :| e in es && FromEntry(e, toFloat, rec);
      EntriesOrigin(data, e);
    }
    forall e | InResponse(e, data) && Keep(e.value) && ParseNumeric(toFloat, e.value).Some?
      ensures ParseYear(e.key).Some? && EntryRecords(toFloat, e).value[0] in SidraRecords(toFloat, data).value
    {
      EntriesOrigin(data, e);
      var i :| 0 <= i < |es| && es[i] == e;
      EmitComplete(toFloat, es, i);
    }
  }

  /**
   * When the parser raises: exactly when some year entry of the response is
   * kept, has a numeric value and a year key `int` refuses, and the error
   * names the key of such an entry.
   */
  lemma SidraErrors(toFloat: FloatParser, data: seq<Variavel>)
    ensures SidraRecords(toFloat, data).Ok? <==>
              forall e :: InResponse(e, data) ==> !(Keep(e.value) && ParseNumeric(toFloat, e.value).Some? && ParseYear(e.key).None?)
    ensures SidraRecords(toFloat, data).Err? ==>
              exists e :: InResponse(e, data) && Keep(e.value) && ParseNumeric(toFloat, e.value).Some? && ParseYear(e.key).None?
                && SidraRecords(toFloat, data).error == InvalidYear(e.key)
  {
    var es := Entries(data);
    EmitFails(toFloat, es);
    forall e | InResponse(e, data)
      ensures SidraRecords(toFloat, data).Ok? ==> EntryRecords(toFloat, e).Ok?
    {
      EntriesOrigin(data, e);
      var i :| 0 <= i < |es| && es[i] == e;
    }
    if SidraRecords(toFloat, data).Err? {
      EmitErrorSource(toFloat, es);
      var i :| 0 <= i < |es| && Emit(toFloat, es) == EntryRecords(toFloat, es[i]);
      EntriesOrigin(data, es[i]);
    }
  }

  /** The record order follows the response: the records of `a + b` are those of `a` followed by those of `b`. */
  lemma SidraOrder(toFloat: FloatParser, a: seq<Variavel>, b: seq<Variavel>)
    ensures SidraRecords(toFloat, a + b) == Join(SidraRecords(toFloat, a), SidraRecords(toFloat, b))
  {
    EntriesAppend(a, b);
    EmitAppend(toFloat, Entries(a), Entries(b));
  }

  lemma {:induction false} EntriesAppend(a: seq<Variavel>, b: seq<Variavel>)
    ensures Entries(a + b) == Entries(a) + Entries(b)
  {
    if a == [] {
      assert a + b == b;
    } else {
      assert (a + b)[0] == a[0];
      assert (a + b)[1..] == a[1..] + b;
      EntriesAppend(a[1..], b);
    }
  }

  // --------------------------------------------------------------- the loops

  /** The classification loop of one result: fills `classificacao_info` category by category. */
  method CollectClassifications(cs: seq<Classificacao>) returns (info: map<string, Json>)
    ensures info == ClassifInfo(cs)
  {
    info := map[];
    var i := 0;
    while i < |cs|
      invariant 0 <= i <= |cs|
      invariant info == ClassifInfo(cs[..i])
    {
      var column := ClassifColumn(cs[i].nome);
      var cats := cs[i].categoria;
      ghost var before := info;
      var k := 0;
      while k < |cats|
        invariant 0 <= k <= |cats|
        invariant info == CategoriesUpdate(before, column, cats[..k])
      {
        assert cats[..k + 1][..k] == cats[..k];
        info := info[column := cats[k].1];
        k := k + 1;
      }
      assert cats[..k] == cats;
      assert cs[..i + 1][..i] == cs[..i];
      i := i + 1;
    }
    assert cs[..i] == cs;
  }

  /** The year loop of one series: appends a record for every value that survives the filter and parses. */
  method AppendSerie(toFloat: FloatParser, records: seq<Record>, v: Variavel, info: map<string, Json>, s: Serie)
    returns (r: Parsed)
    ensures r == Join(Ok(records), Emit(toFloat, ValoresEntries(v, info, s.localidade, s.valores)))
  {
    var acc := records;
    var k := 0;
    while k < |s.valores|
      invariant 0 <= k <= |s.valores|
      invariant Join(Ok(acc), Emit(toFloat, ValoresEntries(v, info, s.localidade, s.valores[k..])))
             == Join(Ok(records), Emit(toFloat, ValoresEntries(v, info, s.localidade, s.valores)))
    {
      var ano, valor := s.valores[k].0, s.valores[k].1;
      ghost var e := Entry(v, info, s.localidade, ano, valor);
      ghost var rest := Emit(toFloat, ValoresEntries(v, info, s.localidade, s.valores[k + 1..]));
      assert s.valores[k..][1..] == s.valores[k + 1..];
      assert Emit(toFloat, ValoresEntries(v, info, s.localidade, s.valores[k..])) == Join(EntryRecords(toFloat, e), rest);
      JoinAssociative(Ok(acc), EntryRecords(toFloat, e), rest);
      ghost var before := acc;
      if Keep(valor) {
        var numero := ParseNumeric(toFloat, valor);
        if numero.Some? {
          var year := ParseYear(ano);
          if year.None? {
            return Err(InvalidYear(ano));
          }
          var record := Record(v.id, v.nome, v.unidade, s.localidade.id, s.localidade.nome, s.localidade.nivel,
                               year.value, numero.value, info);
          assert EntryRecords(toFloat, e) == Ok([record]);
          acc := acc + [record];
        } else {
          assert EntryRecords(toFloat, e) == Ok([]);
          assert before + [] == before;
        }
      } else {
        assert EntryRecords(toFloat, e) == Ok([]);
        assert before + [] == before;
      }
      assert Join(Ok(before), EntryRecords(toFloat, e)) == Ok(acc);
      k := k + 1;
    }
    JoinEmpty(Ok(acc));
    return Ok(acc);
  }

  /** The result loop of one variable: collects each result's classifications, then walks its series. */
  method AppendVariavel(toFloat: FloatParser, records: seq<Record>, v: Variavel) returns (r: Parsed)
    ensures r == Join(Ok(records), Emit(toFloat, VariavelEntries(v)))
  {
    var acc := records;
    var rs := v.resultados;
    var j := 0;
    while j < |rs|
      invariant 0 <= j <= |rs|
      invariant Join(Ok(acc), Emit(toFloat, ResultadosEntries(v, rs[j..])))
             == Join(Ok(records), Emit(toFloat, VariavelEntries(v)))
    {
      var info := CollectClassifications(rs[j].classificacoes);
      var ss := rs[j].series;
      ghost var later := Emit(toFloat, ResultadosEntries(v, rs[j + 1..]));
      assert rs[j..][1..] == rs[j + 1..];
      EmitAppend(toFloat, SeriesEntries(v, info, ss), ResultadosEntries(v, rs[j + 1..]));
      JoinAssociative(Ok(acc), Emit(toFloat, SeriesEntries(v, info, ss)), later);
      var m := 0;
      while m < |ss|
        invariant 0 <= m <= |ss|
        invariant Join(Join(Ok(acc), Emit(toFloat, SeriesEntries(v, info, ss[m..]))), later)
               == Join(Ok(records), Emit(toFloat, VariavelEntries(v)))
      {
        ghost var after := Emit(toFloat, SeriesEntries(v, info, ss[m + 1..]));
        assert ss[m..][1..] == ss[m + 1..];
        EmitAppend(toFloat, ValoresEntries(v, info, ss[m].localidade, ss[m].valores), SeriesEntries(v, info, ss[m + 1..]));
        JoinAssociative(Ok(acc), Emit(toFloat, ValoresEntries(v, info, ss[m].localidade, ss[m].valores)), after);
        var out := AppendSerie(toFloat, acc, v, info, ss[m]);
        if out.Err? {
          return out;
        }
        acc := out.value;
        m := m + 1;
      }
      JoinEmpty(Ok(acc));
      j := j + 1;
    }
    JoinEmpty(Ok(acc));
    return Ok(acc);
  }

  /**
   * `parse_sidra_response`: the records of the response in nesting order, or
   * the error of the first kept value whose year key `int` refuses. An empty
   * response gives no records.
   */
  method ParseSidraResponse(toFloat: FloatParser, data: seq<Variavel>) returns (r: Parsed)
    ensures r == SidraRecords(toFloat, data)
    ensures data == [] ==> r == Ok([])
  {
    if data == [] {
      return Ok([]);
    }
    var records := [];
    assert Join(Ok([]), Emit(toFloat, Entries(data))) == Emit(toFloat, Entries(data)) by {
      var all := Emit(toFloat, Entries(data));
      if all.Ok? {
        assert [] + all.value == all.value;
      }
    }
    var i := 0;
    assert data[i..] == data;
    while i < |data|
      invariant 0 <= i <= |data|
      invariant Join(Ok(records), Emit(toFloat, Entries(data[i..]))) == SidraRecords(toFloat, data)
    {
      assert data[i..][1..] == data[i + 1..];
      EmitAppend(toFloat, VariavelEntries(data[i]), Entries(data[i + 1..]));
      JoinAssociative(Ok(records), Emit(toFloat, VariavelEntries(data[i])), Emit(toFloat, Entries(data[i + 1..])));
      var out := AppendVariavel(toFloat, records, data[i]);
      if out.Err? {
        return out;
      }
      records := out.value;
      i := i + 1;
    }
    JoinEmpty(Ok(records));
    return Ok(records);
  }
}
