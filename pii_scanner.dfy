/**
 * The PII scanner: it walks the columns of a table and reports likely personal
 * data, first from the column name (a keyword catalogue, first matching type
 * wins) and then, for text columns, from sampled values tested against one
 * pattern per type. Each finding carries a fixed risk level; a scan also counts
 * findings per level and derives an ordered list of recommendations. CPF and
 * CNPJ check digits are validated with the mod-11 weighted-sum rule.
 *
 * The regular expressions are not modelled: the scanner value carries one
 * matcher `(type, text) -> bool` standing for the compiled patterns.
 */
module PiiScanner {
  import opened Wrappers
  import opened Strings
  import opened Frame

  datatype PIIType = Cpf | Cnpj | Rg | Email | Telefone | Cep | CartaoCredito | Ip
                   | DataNascimento | Nome | Endereco | DadosSaude | DadosFinanceiros | Outros

  datatype RiskLevel = Baixo | Medio | Alto | Critico

  /** How a finding was made: `"column_name"` or `"regex"`. */
  datatype DetectionMethod = ColumnName | Regex

  /** One finding. `percentage` is kept exact; the source rounds it to two places. */
  datatype PIIMatch = PIIMatch(
    column: string,
    piiType: PIIType,
    sampleValues: seq<string>,
    count: nat,
    percentage: real,
    riskLevel: RiskLevel,
    detectionMethod: DetectionMethod)

  /** The outcome of a scan (the timestamp and the duration are not modelled). */
  datatype ScanResult = ScanResult(
    sourceName: string,
    totalRows: nat,
    totalColumns: nat,
    columnsScanned: nat,
    piiFound: seq<PIIMatch>,
    riskSummary: map<RiskLevel, nat>,
    recommendations: seq<string>)

  /** The fixed risk of each type. */
  function RiskOf(t: PIIType): RiskLevel
  {
    match t
    case Cpf => Alto
    case Cnpj => Medio
    case Rg => Alto
    case Email => Medio
    case Telefone => Medio
    case Cep => Baixo
    case CartaoCredito => Critico
    case Ip => Baixo
    case DataNascimento => Medio
    case Nome => Medio
    case Endereco => Medio
    case DadosSaude => Critico
    case DadosFinanceiros => Alto
    case Outros => Baixo
  }

  /** The types of the column-name catalogue, in declaration order. */
  const NameTypes: seq<PIIType> :=
    [Cpf, Cnpj, Rg, Email, Telefone, Cep, Nome, Endereco, DataNascimento, DadosSaude, DadosFinanceiros]

  /** The keywords of the column-name catalogue; types outside it have none. */
  function Keywords(t: PIIType): seq<string>
  {
    match t
    case Cpf => ["cpf", "cpf_titular", "nr_cpf", "num_cpf", "documento"]
    case Cnpj => ["cnpj", "cnpj_empresa", "nr_cnpj"]
    case Rg => ["rg", "rg_titular", "identidade"]
    case Email => ["email", "e_mail", "email_contato", "correio"]
    case Telefone => ["telefone", "tel", "celular", "fone", "phone", "mobile"]
    case Cep => ["cep", "codigo_postal", "zip"]
    case Nome => ["nome", "nome_completo", "nome_titular", "name", "primeiro_nome", "sobrenome"]
    case Endereco => ["endereco", "logradouro", "rua", "avenida", "address", "bairro"]
    case DataNascimento => ["data_nascimento", "dt_nascimento", "nascimento", "birth"]
    case DadosSaude => ["cid", "diagnostico", "doenca", "medicamento", "prontuario", "cns"]
    case DadosFinanceiros => ["salario", "renda", "conta", "agencia", "pis", "pasep"]
    case _ => []
  }

  /** The types that have a value pattern, in declaration order. */
  const PatternTypes: seq<PIIType> := [Cpf, Cnpj, Email, Telefone, Cep, CartaoCredito, Ip, DataNascimento]

  /** Whether the compiled pattern of a type finds a match in a text. */
  type Matcher = (PIIType, string) -> bool

  const DefaultSampleSize: int := 1000

  datatype PIIScanner = PIIScanner(sampleSize: int, pattern: Matcher)

  // ------------------------------------------------------- name detection

  /** Some keyword of `t` occurs in the (lower-cased) column name. */
  predicate NameHits(lowerName: string, t: PIIType)
  {
    exists k :: 0 <= k < |Keywords(t)| && Contains(lowerName, Keywords(t)[k])
  }

  /** The first type of `ts` whose keywords occur in the name. */
  function FirstNameType(lowerName: string, ts: seq<PIIType>): (r: Option<PIIType>)
    ensures r.None? <==> forall i :: 0 <= i < |ts| ==> !NameHits(lowerName, ts[i])
    ensures r.Some? ==> exists i :: 0 <= i < |ts| && ts[i] == r.value && NameHits(lowerName, ts[i])
                                    && forall j :: 0 <= j < i ==> !NameHits(lowerName, ts[j])
  {
    if ts == [] then None
    else if NameHits(lowerName, ts[0]) then Some(ts[0])
    else
      var r := FirstNameType(lowerName, ts[1..]);
      assert r.Some? ==> exists i :: 0 <= i < |ts[1..]| && ts[1..][i] == r.value && NameHits(lowerName, ts[1..][i])
                                     && forall j :: 0 <= j < i ==> !NameHits(lowerName, ts[1..][j]);
      assert r.Some? ==> exists i :: 0 <= i < |ts| && ts[i] == r.value && NameHits(lowerName, ts[i])
                                     && forall j :: 0 <= j < i ==> !NameHits(lowerName, ts[j]) by {
        if r.Some? {
          var i :| 0 <= i < |ts[1..]| && ts[1..][i] == r.value && NameHits(lowerName, ts[1..][i])
                   && forall j :: 0 <= j < i ==> !NameHits(lowerName, ts[1..][j]);
          assert forall j :: 0 <= j < i + 1 ==> !NameHits(lowerName, ts[j]) by {
            forall j | 0 <= j < i + 1 ensures !NameHits(lowerName, ts[j]) {
              if j > 0 { assert ts[j] == ts[1..][j - 1]; }
            }
          }
        }
      }
      r
  }

  /** `series.head(n).astype(str).tolist()` for the cells of a column of dtype `kind`. */
  function Samples(cells: seq<Cell>, kind: Kind): (r: seq<string>)
    ensures |r| == |cells|
    ensures forall i :: 0 <= i < |r| ==> r[i] == AsTypeStr(cells[i], kind)
  {
    seq(|cells|, i requires 0 <= i < |cells| => AsTypeStr(cells[i], kind))
  }

  /**
   * The finding (if any) from the column name: the first catalogue type whose
   * keywords occur in the lower-cased name, reported only when the column has
   * a non-null cell.
   */
  function NameMatches(col: Column, rows: nat): (ms: seq<PIIMatch>)
    requires |col.cells| == rows
  {
    match FirstNameType(Lower(col.name), NameTypes)
    case None => []
    case Some(t) => NameFinding(col, rows, t)
  }

  /** The name-based finding of type `t`, present only when the column has a non-null cell. */
  function NameFinding(col: Column, rows: nat, t: PIIType): seq<PIIMatch>
    requires |col.cells| == rows
  {
    var nonNull := DropNull(col.cells);
    if |nonNull| > 0 then
      [PIIMatch(col.name, t, Samples(PyHead(nonNull, 5), col.kind), |nonNull|,
                (|nonNull| as real / rows as real) * 100.0, RiskOf(t), ColumnName)]
    else []
  }

  /**
   * At most one finding comes from the name. There is one exactly when some
   * catalogue keyword occurs in the lower-cased name and the column has a
   * non-null cell; it has the first such type, counts the non-null cells and
   * carries that type's risk.
   */
  lemma NameMatchFacts(col: Column, rows: nat)
    requires |col.cells| == rows
    ensures var ms := NameMatches(col, rows);
      && |ms| <= 1
      && (|ms| == 1 <==> FirstNameType(Lower(col.name), NameTypes).Some? && |DropNull(col.cells)| > 0)
      && (|ms| == 1 ==>
            && ms[0].piiType == FirstNameType(Lower(col.name), NameTypes).value
            && ms[0].column == col.name
            && ms[0].count == |DropNull(col.cells)|
            && ms[0].riskLevel == RiskOf(ms[0].piiType)
            && ms[0].detectionMethod == ColumnName
            && |ms[0].sampleValues| <= 5)
  {
  }

  /** A column whose cells are all null yields nothing from its name, whatever the name. */
  lemma AllNullNameNoMatch(col: Column, rows: nat)
    requires |col.cells| == rows
    requires forall i :: 0 <= i < |col.cells| ==> col.cells[i] == Null
    ensures NameMatches(col, rows) == []
  {
    assert forall c :: c in col.cells ==> c == Null;
  }

  // ---------------------------------------------------- pattern detection

  /** `sample[sample.astype(str).str.contains(pattern)]`: the sampled cells whose text matches. */
  function Hits(pattern: Matcher, t: PIIType, sample: seq<Cell>, kind: Kind): (r: seq<Cell>)
    ensures |r| <= |sample|
    ensures forall c :: c in r ==> c in sample && pattern(t, AsTypeStr(c, kind))
    ensures forall c :: c in sample && pattern(t, AsTypeStr(c, kind)) ==> c in r
  {
    if sample == [] then []
    else
      var rest := Hits(pattern, t, sample[..|sample| - 1], kind);
      var last := sample[|sample| - 1];
      assert sample == sample[..|sample| - 1] + [last];
      if pattern(t, AsTypeStr(last, kind)) then rest + [last] else rest
  }

  /** Each sampled value is a hit as many times as it was sampled when its text matches, and never otherwise. */
  lemma {:induction false} HitsCounts(pattern: Matcher, t: PIIType, sample: seq<Cell>, kind: Kind)
    ensures forall c :: multiset(Hits(pattern, t, sample, kind))[c] == if pattern(t, AsTypeStr(c, kind)) then multiset(sample)[c] else 0
  {
    if sample != [] {
      var init, last := sample[..|sample| - 1], sample[|sample| - 1];
      HitsCounts(pattern, t, init, kind);
      assert sample == init + [last];
      assert multiset(sample) == multiset(init) + multiset{last};
    }
  }

  /** The hits keep the sample's order: those of `a + b` are those of `a`, then those of `b`. */
  lemma {:induction false} HitsAppend(pattern: Matcher, t: PIIType, a: seq<Cell>, b: seq<Cell>, kind: Kind)
    ensures Hits(pattern, t, a + b, kind) == Hits(pattern, t, a, kind) + Hits(pattern, t, b, kind)
  {
    if b == [] {
      assert a + b == a;
    } else {
      var init, last := b[..|b| - 1], b[|b| - 1];
      assert (a + b)[..|a + b| - 1] == a + init && (a + b)[|a + b| - 1] == last;
      HitsAppend(pattern, t, a, init, kind);
      var here := if pattern(t, AsTypeStr(last, kind)) then [last] else [];
      assert Hits(pattern, t, b, kind) == Hits(pattern, t, init, kind) + here;
      assert Hits(pattern, t, a + b, kind) == Hits(pattern, t, a + init, kind) + here;
      ConcatAssoc(Hits(pattern, t, a, kind), Hits(pattern, t, init, kind), here);
    }
  }

  lemma ConcatAssoc<T>(x: seq<T>, y: seq<T>, z: seq<T>)
    ensures (x + y) + z == x + (y + z)
  {
  }

  /** The non-null cells the patterns are tested on: the first `sampleSize` of them. */
  function Sample(scanner: PIIScanner, col: Column): seq<Cell>
  {
    PyHead(DropNull(col.cells), scanner.sampleSize)
  }

  /** Some earlier finding is already about this column and type. */
  predicate AlreadyMatched(ms: seq<PIIMatch>, column: string, t: PIIType)
  {
    exists i :: 0 <= i < |ms| && ms[i].column == column && ms[i].piiType == t
  }

  /**
   * The finding (if any) from type `t`'s pattern: the count is the share of
   * matching sampled cells applied to the non-null count, truncated.
   */
  function PatternMatch(scanner: PIIScanner, col: Column, t: PIIType): seq<PIIMatch>
  {
    var sample := Sample(scanner, col);
    var hits := Hits(scanner.pattern, t, sample, col.kind);
    if |hits| > 0 then
      var estimated := (|hits| * |DropNull(col.cells)|) / |sample|;
      if estimated > 0 then
        [PIIMatch(col.name, t, Samples(PyHead(hits, 5), col.kind), estimated,
                  (|hits| as real / |sample| as real) * 100.0, RiskOf(t), Regex)]
      else []
    else []
  }

  /** The findings after the name check and the first `k` pattern types. */
  function MatchesAfter(scanner: PIIScanner, col: Column, rows: nat, k: nat): seq<PIIMatch>
    requires |col.cells| == rows && k <= |PatternTypes|
  {
    if k == 0 then NameMatches(col, rows)
    else
      var prev := MatchesAfter(scanner, col, rows, k - 1);
      if AlreadyMatched(prev, col.name, PatternTypes[k - 1]) then prev
      else prev + PatternMatch(scanner, col, PatternTypes[k - 1])
  }

  /** All findings of one column: patterns are tried only on `object` columns. */
  function ColumnMatches(scanner: PIIScanner, col: Column, rows: nat): seq<PIIMatch>
    requires |col.cells| == rows
  {
    if col.kind == Object then MatchesAfter(scanner, col, rows, |PatternTypes|) else NameMatches(col, rows)
  }

  /** What every list of findings for one column satisfies. */
  predicate ColumnFindings(ms: seq<PIIMatch>, col: Column)
  {
    && (forall i :: 0 <= i < |ms| ==>
          && ms[i].column == col.name
          && ms[i].riskLevel == RiskOf(ms[i].piiType)
          && 1 <= ms[i].count <= |DropNull(col.cells)|
          && |ms[i].sampleValues| <= 5)
    && (forall i, j :: 0 <= i < j < |ms| ==> ms[i].piiType != ms[j].piiType)
  }

  /** `int(h / s * n)` over exact rationals, for 1 <= h <= s <= n, lies in [h, n]. */
  lemma EstimateBounds(h: nat, s: nat, n: nat)
    requires 1 <= h <= s <= n
    ensures h <= (h * n) / s <= n
  {
    assert h * s <= h * n by { MulLeft(h, s, n); }
    assert h * n <= n * s by { MulLeft(n, h, s); }
    DivBounds(h * n, s, h, n);
  }

  lemma MulLeft(a: nat, b: nat, c: nat)
    requires b <= c
    ensures a * b <= a * c
  {
  }

  lemma LessByFactor(a: int, b: int, s: int)
    requires s > 0 && a * s < b * s
    ensures a < b
  {
    assert (b - a) * s == b * s - a * s;
  }

  /** Integer division by `s` keeps a value between `lo * s` and `hi * s` between `lo` and `hi`. */
  lemma DivBounds(x: nat, s: nat, lo: nat, hi: nat)
    requires s > 0 && lo * s <= x <= hi * s
    ensures lo <= x / s <= hi
  {
    var q := x / s;
    assert x == q * s + x % s;
    assert (q + 1) * s == q * s + s;
    LessByFactor(lo, q + 1, s);
    LessByFactor(q, hi + 1, s);
  }

  /**
   * A type's pattern yields a finding exactly when some sampled cell matches
   * it: the estimate is then at least the number of matching cells, so the
   * `> 0` guard never rejects (over exact rationals). The finding counts at
   * least one and at most the non-null cells, carries the type's risk and
   * five samples at most.
   */
  lemma PatternMatchFacts(scanner: PIIScanner, col: Column, t: PIIType)
    ensures var ms := PatternMatch(scanner, col, t);
      && |ms| <= 1
      && (|ms| == 1 <==> |Hits(scanner.pattern, t, Sample(scanner, col), col.kind)| > 0)
      && (|ms| == 1 ==>
            && ms[0].column == col.name && ms[0].piiType == t
            && ms[0].riskLevel == RiskOf(t) && ms[0].detectionMethod == Regex
            && 1 <= ms[0].count <= |DropNull(col.cells)|
            && |ms[0].sampleValues| <= 5)
  {
    var sample := Sample(scanner, col);
    var hits := Hits(scanner.pattern, t, sample, col.kind);
    if |hits| > 0 {
      EstimateBounds(|hits|, |sample|, |DropNull(col.cells)|);
    }
  }

  /** A pattern's finding for a type the column has no finding of yet keeps its findings well formed. */
  lemma AppendPatternFinding(scanner: PIIScanner, col: Column, prev: seq<PIIMatch>, t: PIIType)
    requires ColumnFindings(prev, col) && !AlreadyMatched(prev, col.name, t)
    ensures ColumnFindings(prev + PatternMatch(scanner, col, t), col)
  {
    var extra := PatternMatch(scanner, col, t);
    assert |extra| <= 1 && (|extra| == 1 ==> (extra[0].column == col.name && extra[0].piiType == t
      && extra[0].riskLevel == RiskOf(t) && 1 <= extra[0].count <= |DropNull(col.cells)| && |extra[0].sampleValues| <= 5)) by {
      PatternMatchFacts(scanner, col, t);
    }
    var next := prev + extra;
    forall i | 0 <= i < |next|
      ensures next[i].column == col.name && next[i].riskLevel == RiskOf(next[i].piiType)
        && 1 <= next[i].count <= |DropNull(col.cells)| && |next[i].sampleValues| <= 5
    {
      if i < |prev| { assert next[i] == prev[i]; } else { assert next[i] == extra[0]; }
    }
    forall i, j | 0 <= i < j < |next| ensures next[i].piiType != next[j].piiType {
      if j >= |prev| {
        assert next[j] == extra[0];
        assert next[i] == prev[i];
      } else {
        assert next[i] == prev[i] && next[j] == prev[j];
      }
    }
  }

  /** The findings for one column never repeat a type, and each is well formed. */
  lemma {:induction false} MatchesAfterFindings(scanner: PIIScanner, col: Column, rows: nat, k: nat)
    requires |col.cells| == rows && k <= |PatternTypes|
    ensures ColumnFindings(MatchesAfter(scanner, col, rows, k), col)
  {
    if k == 0 {
      NameMatchFacts(col, rows);
    } else {
      MatchesAfterFindings(scanner, col, rows, k - 1);
      var prev := MatchesAfter(scanner, col, rows, k - 1);
      var t := PatternTypes[k - 1];
      if !AlreadyMatched(prev, col.name, t) {
        AppendPatternFinding(scanner, col, prev, t);
      }
    }
  }

  /**
   * No column ever carries two findings of the same type; every finding names
   * the column, has the risk of its type and a count between one and the
   * number of non-null cells.
   */
  lemma ColumnMatchesFindings(scanner: PIIScanner, col: Column, rows: nat)
    requires |col.cells| == rows
    ensures ColumnFindings(ColumnMatches(scanner, col, rows), col)
  {
    if col.kind == Object {
      MatchesAfterFindings(scanner, col, rows, |PatternTypes|);
    } else {
      NameMatchFacts(col, rows);
    }
  }

  /** A column that is not of dtype `object` is judged by its name alone. */
  lemma NonTextColumnNameOnly(scanner: PIIScanner, col: Column, rows: nat)
    requires |col.cells| == rows && col.kind != Object
    ensures forall m :: m in ColumnMatches(scanner, col, rows) ==> m.detectionMethod == ColumnName
  {
  }

  /** A column with no rows yields no finding. */
  lemma {:induction false} EmptyColumnNoMatch(scanner: PIIScanner, col: Column, k: nat)
    requires |col.cells| == 0 && k <= |PatternTypes|
    ensures MatchesAfter(scanner, col, 0, k) == []
  {
    if k > 0 {
      EmptyColumnNoMatch(scanner, col, k - 1);
      assert Sample(scanner, col) == [];
    }
  }

  /** The name check of one column: the catalogue loop stops at the first type that hits. */
  method ScanColumnName(col: Column, rows: nat) returns (matches: seq<PIIMatch>)
    requires |col.cells| == rows
    ensures matches == NameMatches(col, rows)
  {
    matches := [];
    var lowerName := Lower(col.name);
    var i := 0;
    while i < |NameTypes|
      invariant i <= |NameTypes|
      invariant FirstNameType(lowerName, NameTypes) == FirstNameType(lowerName, NameTypes[i..])
    {
      var t := NameTypes[i];
      if NameHits(lowerName, t) {
        assert FirstNameType(lowerName, NameTypes[i..]) == Some(t);
        matches := NameFinding(col, rows, t);
        return;
      }
      assert NameTypes[i..][1..] == NameTypes[i + 1..];
      i := i + 1;
    }
    assert NameTypes[i..] == [];
  }

  /** Tests one pattern on the sample and estimates how many non-null cells match it. */
  method PatternFinding(scanner: PIIScanner, col: Column, t: PIIType) returns (found: seq<PIIMatch>)
    ensures found == PatternMatch(scanner, col, t)
  {
    found := [];
    var sample := PyHead(DropNull(col.cells), scanner.sampleSize);
    var hits := Hits(scanner.pattern, t, sample, col.kind);
    if |hits| > 0 {
      var estimated := (|hits| * |DropNull(col.cells)|) / |sample|;
      if estimated > 0 {
        found := [PIIMatch(col.name, t, Samples(PyHead(hits, 5), col.kind), estimated,
                           (|hits| as real / |sample| as real) * 100.0, RiskOf(t), Regex)];
      }
    }
  }

  /** Scans one column: the name check, then (for text columns) each pattern not yet reported. */
  method ScanColumn(scanner: PIIScanner, col: Column, rows: nat) returns (matches: seq<PIIMatch>)
    requires |col.cells| == rows
    ensures matches == ColumnMatches(scanner, col, rows)
  {
    matches := ScanColumnName(col, rows);
    if col.kind == Object {
      var k := 0;
      while k < |PatternTypes|
        invariant k <= |PatternTypes|
        invariant matches == MatchesAfter(scanner, col, rows, k)
      {
        var t := PatternTypes[k];
        if !AlreadyMatched(matches, col.name, t) {
          var found := PatternFinding(scanner, col, t);
          matches := matches + found;
        }
        k := k + 1;
      }
    }
  }

  // ---------------------------------------------------------- risk summary

  /** The number of findings at risk level `l`. */
  function CountLevel(ms: seq<PIIMatch>, l: RiskLevel): (n: nat)
    ensures n <= |ms|
  {
    if ms == [] then 0
    else CountLevel(ms[..|ms| - 1], l) + (if ms[|ms| - 1].riskLevel == l then 1 else 0)
  }

  /** The risk summary: one entry per level, counting the findings at that level. */
  function RiskSummaryOf(ms: seq<PIIMatch>): map<RiskLevel, nat>
  {
    map[Baixo := CountLevel(ms, Baixo), Medio := CountLevel(ms, Medio),
        Alto := CountLevel(ms, Alto), Critico := CountLevel(ms, Critico)]
  }

  /** Starts every level at zero and adds one per finding. */
  method CalculateRiskSummary(ms: seq<PIIMatch>) returns (summary: map<RiskLevel, nat>)
    ensures summary == RiskSummaryOf(ms)
  {
    summary := map[Baixo := 0, Medio := 0, Alto := 0, Critico := 0];
    var i := 0;
    while i < |ms|
      invariant i <= |ms|
      invariant summary == RiskSummaryOf(ms[..i])
    {
      assert ms[..i + 1][..i] == ms[..i];
      var l := ms[i].riskLevel;
      assert l == Baixo || l == Medio || l == Alto || l == Critico;
      summary := summary[ms[i].riskLevel := summary[ms[i].riskLevel] + 1];
      i := i + 1;
    }
    assert ms[..|ms|] == ms;
  }

  /** The summary has the four levels as keys and its counts add up to the number of findings. */
  lemma {:induction false} RiskSummaryTotal(ms: seq<PIIMatch>)
    ensures var s := RiskSummaryOf(ms);
      && s.Keys == {Baixo, Medio, Alto, Critico}
      && s[Baixo] + s[Medio] + s[Alto] + s[Critico] == |ms|
  {
    if ms != [] {
      RiskSummaryTotal(ms[..|ms| - 1]);
    }
  }

  // ------------------------------------------------------- recommendations

  predicate HasType(ms: seq<PIIMatch>, t: PIIType)
  {
    exists i :: 0 <= i < |ms| && ms[i].piiType == t
  }

  const UrgentTail: string := " coluna(s)"
    + " com dados CR\U{00CD}TICOS detectadas. Considere anonimiza\U{00E7}\U{00E3}o imediata ou remo\U{00E7}\U{00E3}o."

  /** The opening recommendation, reporting how many findings are critical. */
  function UrgentAdvice(n: nat): (r: string)
    ensures |r| > 0 && r[0] == 'U'
  {
    var r := "URGENTE: " + Decimal(n) + UrgentTail;
    assert r[0] == "URGENTE: "[0];
    r
  }

  const CpfCnpjAdvice: string := "CPF/CNPJ"
    + " detectados: Implemente pseudonimiza\U{00E7}\U{00E3}o com hash + salt"
    + " ou tokeniza\U{00E7}\U{00E3}o para proteger esses identificadores."

  const HealthAdvice: string := "DADOS SENS"
    + "\U{00CD}VEIS (Sa\U{00FA}de): Requer base legal espec\U{00ED}fica (Art. 11 LGPD)."
    + " Verifique se h\U{00E1} consentimento expl\U{00ED}cito ou outra base legal aplic\U{00E1}vel."

  const EmailAdvice: string := "E-mails"
    + " detectados: Considere mascaramento parcial (ex: j***@email.com) para logs e relat\U{00F3}rios."

  const GeneralAdvice: string := "Documente"
    + " a finalidade do tratamento de cada dado pessoal identificado e mantenha registro atualizado (Art. 37 LGPD)."

  /** A rule's contribution: its message when its condition holds. */
  function Rule(holds: bool, message: string): (r: seq<string>)
    ensures forall x :: x in r <==> holds && x == message
  {
    if holds then [message] else []
  }

  /** The recommendations, in their fixed order. */
  function Recommendations(ms: seq<PIIMatch>): seq<string>
  {
    var critical := CountLevel(ms, Critico);
    Rule(critical > 0, UrgentAdvice(critical))
    + Rule(HasType(ms, Cpf) || HasType(ms, Cnpj), CpfCnpjAdvice)
    + Rule(HasType(ms, DadosSaude), HealthAdvice)
    + Rule(HasType(ms, Email), EmailAdvice)
    + Rule(|ms| > 0, GeneralAdvice)
  }

  lemma InFive(a: seq<string>, b: seq<string>, c: seq<string>, d: seq<string>, e: seq<string>, x: string)
    ensures x in a + b + c + d + e <==> x in a || x in b || x in c || x in d || x in e
  {
  }

  /** Appends the recommendations one rule at a time. */
  method GenerateRecommendations(ms: seq<PIIMatch>) returns (recs: seq<string>)
    ensures recs == Recommendations(ms)
  {
    recs := [];
    var critical := CountLevel(ms, Critico);
    if critical > 0 {
      recs := recs + [UrgentAdvice(critical)];
    }
    ghost var expected := Rule(critical > 0, UrgentAdvice(critical));
    assert recs == expected;
    if HasType(ms, Cpf) || HasType(ms, Cnpj) {
      recs := recs + [CpfCnpjAdvice];
    }
    expected := expected + Rule(HasType(ms, Cpf) || HasType(ms, Cnpj), CpfCnpjAdvice);
    assert recs == expected;
    if HasType(ms, DadosSaude) {
      recs := recs + [HealthAdvice];
    }
    expected := expected + Rule(HasType(ms, DadosSaude), HealthAdvice);
    assert recs == expected;
    if HasType(ms, Email) {
      recs := recs + [EmailAdvice];
    }
    expected := expected + Rule(HasType(ms, Email), EmailAdvice);
    assert recs == expected;
    if |ms| > 0 {
      recs := recs + [GeneralAdvice];
    }
  }

  /** The five messages start differently, so none can stand for another. */
  lemma AdviceHeads(n: nat)
    ensures UrgentAdvice(n)[..2] == "UR"
    ensures CpfCnpjAdvice[..2] == "CP" && HealthAdvice[..2] == "DA"
    ensures EmailAdvice[..2] == "E-" && GeneralAdvice[..2] == "Do"
  {
    assert ("URGENTE: " + Decimal(n) + UrgentTail)[..2] == "UR";
  }

  /** No two of the five messages are equal. */
  lemma AdviceDistinct(n: nat)
    ensures UrgentAdvice(n) != CpfCnpjAdvice && UrgentAdvice(n) != HealthAdvice
    ensures UrgentAdvice(n) != EmailAdvice && UrgentAdvice(n) != GeneralAdvice
    ensures CpfCnpjAdvice != HealthAdvice && CpfCnpjAdvice != EmailAdvice && CpfCnpjAdvice != GeneralAdvice
    ensures HealthAdvice != EmailAdvice && HealthAdvice != GeneralAdvice && EmailAdvice != GeneralAdvice
  {
    AdviceHeads(n);
  }

  /**
   * Each rule contributes its message exactly when its condition holds, the
   * list is empty exactly when there is no finding, ends with the general
   * reminder otherwise, and opens with the critical count when there is one.
   */
  lemma RecommendationsFacts(ms: seq<PIIMatch>)
    ensures var recs := Recommendations(ms);
      && (recs == [] <==> ms == [])
      && (ms != [] ==> recs[|recs| - 1] == GeneralAdvice)
      && (UrgentAdvice(CountLevel(ms, Critico)) in recs <==> CountLevel(ms, Critico) > 0)
      && (CountLevel(ms, Critico) > 0 ==> recs[0] == UrgentAdvice(CountLevel(ms, Critico)))
      && (CpfCnpjAdvice in recs <==> HasType(ms, Cpf) || HasType(ms, Cnpj))
      && (HealthAdvice in recs <==> HasType(ms, DadosSaude))
      && (EmailAdvice in recs <==> HasType(ms, Email))
      && (GeneralAdvice in recs <==> ms != [])
      && |recs| <= 5
  {
    var n := CountLevel(ms, Critico);
    AdviceDistinct(n);
    var r1, r2, r3 := Rule(n > 0, UrgentAdvice(n)), Rule(HasType(ms, Cpf) || HasType(ms, Cnpj), CpfCnpjAdvice), Rule(HasType(ms, DadosSaude), HealthAdvice);
    var r4, r5 := Rule(HasType(ms, Email), EmailAdvice), Rule(|ms| > 0, GeneralAdvice);
    InFive(r1, r2, r3, r4, r5, UrgentAdvice(n));
    InFive(r1, r2, r3, r4, r5, CpfCnpjAdvice);
    InFive(r1, r2, r3, r4, r5, HealthAdvice);
    InFive(r1, r2, r3, r4, r5, EmailAdvice);
    InFive(r1, r2, r3, r4, r5, GeneralAdvice);
  }

  /** No message is repeated. */
  lemma RecommendationsDistinct(ms: seq<PIIMatch>)
    ensures var recs := Recommendations(ms);
      forall i, j :: 0 <= i < j < |recs| ==> recs[i] != recs[j]
  {
    var recs := Recommendations(ms);
    AdviceHeads(CountLevel(ms, Critico));
    forall i, j | 0 <= i < j < |recs| ensures recs[i] != recs[j] {
      assert recs[i][..2] != recs[j][..2];
    }
  }

  /** The number in the critical message can be read back: it is the number of CRITICO findings. */
  lemma UrgentCountReadable(n: nat)
    ensures |UrgentAdvice(n)| > 9
    ensures ParseDigits(LeadingDigits(UrgentAdvice(n)[9..])) == n
  {
    var u := UrgentAdvice(n);
    var d, tail := Decimal(n), UrgentTail;
    assert tail != [] && !IsDigit(tail[0]) by { assert UrgentTail[0] == ' '; }
    assert u[9..] == d + tail by { assert |"URGENTE: "| == 9; }
    assert LeadingDigits(d + tail) == d by { LeadingDigitsOf(d, tail); }
    ParseDecimal(n);
  }

  // ----------------------------------------------------------------- scan

  /** The requested names that are columns of the table, in requested order. */
  function KeepExisting(t: Table, names: seq<string>): (r: seq<string>)
    ensures |r| <= |names|
    ensures forall x :: x in r <==> x in names && IndexOf(t.columns, x).Some?
    ensures forall i :: 0 <= i < |r| ==> IndexOf(t.columns, r[i]).Some?
  {
    if names == [] then []
    else
      var rest := KeepExisting(t, names[..|names| - 1]);
      assert names == names[..|names| - 1] + [names[|names| - 1]];
      if IndexOf(t.columns, names[|names| - 1]).Some? then rest + [names[|names| - 1]] else rest
  }

  /** A requested name is kept as many times as it was requested when it is a column, and never otherwise. */
  lemma {:induction false} KeepExistingCounts(t: Table, names: seq<string>)
    ensures forall x :: multiset(KeepExisting(t, names))[x] == if IndexOf(t.columns, x).Some? then multiset(names)[x] else 0
  {
    if names != [] {
      var init, last := names[..|names| - 1], names[|names| - 1];
      KeepExistingCounts(t, init);
      assert names == init + [last];
      assert multiset(names) == multiset(init) + multiset{last};
    }
  }

  /** The kept names keep the requested order: those of `a + b` are those of `a`, then those of `b`. */
  lemma {:induction false} KeepExistingAppend(t: Table, a: seq<string>, b: seq<string>)
    ensures KeepExisting(t, a + b) == KeepExisting(t, a) + KeepExisting(t, b)
  {
    if b == [] {
      assert a + b == a;
    } else {
      assert (a + b)[..|a + b| - 1] == a + b[..|b| - 1];
      KeepExistingAppend(t, a, b[..|b| - 1]);
    }
  }

  /** `columns or df.columns`: no list, or an empty one, means every column. */
  function Requested(t: Table, columns: Option<seq<string>>): seq<string>
  {
    if columns.None? || columns.value == [] then ColumnNames(t) else columns.value
  }

  function ColumnsToScan(t: Table, columns: Option<seq<string>>): seq<string>
  {
    KeepExisting(t, Requested(t, columns))
  }

  /** The findings of the named columns, concatenated in order. */
  function MatchesOf(scanner: PIIScanner, t: Table, cols: seq<string>): seq<PIIMatch>
    requires WellFormed(t)
    requires forall i :: 0 <= i < |cols| ==> IndexOf(t.columns, cols[i]).Some?
  {
    if cols == [] then []
    else
      var c := IndexOf(t.columns, cols[|cols| - 1]).value;
      MatchesOf(scanner, t, cols[..|cols| - 1]) + ColumnMatches(scanner, t.columns[c], t.rows)
  }

  function ScanSpec(scanner: PIIScanner, t: Table, sourceName: string, columns: Option<seq<string>>): ScanResult
    requires WellFormed(t)
  {
    var cols := ColumnsToScan(t, columns);
    var found := MatchesOf(scanner, t, cols);
    ScanResult(sourceName, t.rows, |t.columns|, |cols|, found, RiskSummaryOf(found), Recommendations(found))
  }

  /** Scans the given (existing) columns one after the other, extending the list of findings. */
  method ScanColumns(scanner: PIIScanner, t: Table, cols: seq<string>) returns (found: seq<PIIMatch>)
    requires WellFormed(t)
    requires forall i :: 0 <= i < |cols| ==> IndexOf(t.columns, cols[i]).Some?
    ensures found == MatchesOf(scanner, t, cols)
  {
    found := [];
    var i := 0;
    while i < |cols|
      invariant i <= |cols|
      invariant found == MatchesOf(scanner, t, cols[..i])
    {
      var c := IndexOf(t.columns, cols[i]).value;
      var ms := ScanColumn(scanner, t.columns[c], t.rows);
      ghost var upTo := cols[..i + 1];
      assert upTo[..i] == cols[..i] && upTo[i] == cols[i];
      found := found + ms;
      i := i + 1;
    }
    assert cols[..|cols|] == cols;
  }

  /** Scans the requested columns that exist, in order, and summarises the findings. */
  method Scan(scanner: PIIScanner, t: Table, sourceName: string, columns: Option<seq<string>>)
    returns (r: ScanResult)
    requires WellFormed(t)
    ensures r == ScanSpec(scanner, t, sourceName, columns)
  {
    var requested := if columns.None? || columns.value == [] then ColumnNames(t) else columns.value;
    var cols := KeepExisting(t, requested);
    var found := ScanColumns(scanner, t, cols);
    var summary := CalculateRiskSummary(found);
    var recs := GenerateRecommendations(found);
    r := ScanResult(sourceName, t.rows, |t.columns|, |cols|, found, summary, recs);
  }

  /** Every finding of a scan is about one of the scanned columns. */
  lemma {:induction false} MatchesOfColumns(scanner: PIIScanner, t: Table, cols: seq<string>)
    requires WellFormed(t)
    requires forall i :: 0 <= i < |cols| ==> IndexOf(t.columns, cols[i]).Some?
    ensures forall m :: m in MatchesOf(scanner, t, cols) ==> m.column in cols
  {
    if cols != [] {
      var init := cols[..|cols| - 1];
      var c := IndexOf(t.columns, cols[|cols| - 1]).value;
      MatchesOfColumns(scanner, t, init);
      ColumnMatchesFindings(scanner, t.columns[c], t.rows);
      forall m | m in MatchesOf(scanner, t, cols) ensures m.column in cols {
        if m in MatchesOf(scanner, t, init) {
          assert m.column in init;
        } else {
          var ms := ColumnMatches(scanner, t.columns[c], t.rows);
          var k :| 0 <= k < |ms| && ms[k] == m;
        }
      }
    }
  }

  /** No two findings share both column and type. */
  predicate UniqueFindings(ms: seq<PIIMatch>)
  {
    forall i, j :: 0 <= i < j < |ms| ==> ms[i].column != ms[j].column || ms[i].piiType != ms[j].piiType
  }

  /**
   * When the scanned names are distinct (as they are when every column is
   * scanned), no two findings share both column and type.
   */
  lemma {:induction false} MatchesOfUnique(scanner: PIIScanner, t: Table, cols: seq<string>)
    requires WellFormed(t)
    requires forall i :: 0 <= i < |cols| ==> IndexOf(t.columns, cols[i]).Some?
    requires forall i, j :: 0 <= i < j < |cols| ==> cols[i] != cols[j]
    ensures UniqueFindings(MatchesOf(scanner, t, cols))
  {
    if cols != [] {
      var init := cols[..|cols| - 1];
      var last := cols[|cols| - 1];
      var c := IndexOf(t.columns, last).value;
      MatchesOfUnique(scanner, t, init);
      MatchesOfColumns(scanner, t, init);
      ColumnMatchesFindings(scanner, t.columns[c], t.rows);
      var prev := MatchesOf(scanner, t, init);
      var here := ColumnMatches(scanner, t.columns[c], t.rows);
      assert last !in init;
      UniqueAppend(prev, here, last);
    }
  }

  /** Findings about one new column extend findings about other columns without a clash. */
  lemma UniqueAppend(prev: seq<PIIMatch>, here: seq<PIIMatch>, name: string)
    requires UniqueFindings(prev)
    requires forall i :: 0 <= i < |prev| ==> prev[i].column != name
    requires forall i :: 0 <= i < |here| ==> here[i].column == name
    requires forall i, j :: 0 <= i < j < |here| ==> here[i].piiType != here[j].piiType
    ensures UniqueFindings(prev + here)
  {
    var ms := prev + here;
    forall i, j | 0 <= i < j < |ms| ensures ms[i].column != ms[j].column || ms[i].piiType != ms[j].piiType {
      if j >= |prev| {
        assert ms[j] == here[j - |prev|];
        if i >= |prev| { assert ms[i] == here[i - |prev|]; } else { assert ms[i] == prev[i]; }
      }
    }
  }

  /** The column names of a well-formed table are distinct, and all exist. */
  lemma AllColumnsScannable(t: Table)
    requires WellFormed(t)
    ensures var names := ColumnNames(t);
      && (forall i :: 0 <= i < |names| ==> IndexOf(t.columns, names[i]).Some?)
      && (forall i, j :: 0 <= i < j < |names| ==> names[i] != names[j])
  {
    var names := ColumnNames(t);
    forall i | 0 <= i < |names| ensures IndexOf(t.columns, names[i]).Some? {
      assert t.columns[i].name == names[i];
    }
  }

  /**
   * The counters of a scan describe the table and the scanned columns, and its
   * risk counts add up to the number of findings.
   */
  lemma ScanCounts(scanner: PIIScanner, t: Table, sourceName: string, columns: Option<seq<string>>)
    requires WellFormed(t)
    ensures var r := ScanSpec(scanner, t, sourceName, columns);
      && r.totalRows == t.rows
      && r.totalColumns == |t.columns|
      && r.columnsScanned == |ColumnsToScan(t, columns)|
      && r.riskSummary.Keys == {Baixo, Medio, Alto, Critico}
      && r.riskSummary[Baixo] + r.riskSummary[Medio] + r.riskSummary[Alto] + r.riskSummary[Critico] == |r.piiFound|
      && (r.recommendations == [] <==> r.piiFound == [])
  {
    var found := MatchesOf(scanner, t, ColumnsToScan(t, columns));
    RiskSummaryTotal(found);
    RecommendationsFacts(found);
  }

  /** A scan of every column scans them all and reports each (column, type) pair at most once. */
  lemma ScanAllUnique(scanner: PIIScanner, t: Table, sourceName: string)
    requires WellFormed(t)
    ensures var r := ScanSpec(scanner, t, sourceName, None);
      && r.columnsScanned == |t.columns|
      && UniqueFindings(r.piiFound)
  {
    var names := ColumnNames(t);
    AllColumnsScannable(t);
    KeepAllExisting(t, names);
    assert ColumnsToScan(t, None) == names;
    MatchesOfUnique(scanner, t, names);
    var found := MatchesOf(scanner, t, names);
    assert ScanSpec(scanner, t, sourceName, None).piiFound == found;
  }

  /** Keeping the existing names of a list whose names all exist keeps the list. */
  lemma {:induction false} KeepAllExisting(t: Table, names: seq<string>)
    requires forall i :: 0 <= i < |names| ==> IndexOf(t.columns, names[i]).Some?
    ensures KeepExisting(t, names) == names
  {
    if names != [] {
      KeepAllExisting(t, names[..|names| - 1]);
      assert names == names[..|names| - 1] + [names[|names| - 1]];
    }
  }

  /** Only requested columns that exist are scanned, and a requested absent name is skipped. */
  lemma ScanSelectsExisting(scanner: PIIScanner, t: Table, sourceName: string, columns: Option<seq<string>>)
    requires WellFormed(t)
    ensures var r := ScanSpec(scanner, t, sourceName, columns);
      && r.columnsScanned <= |Requested(t, columns)|
      && forall m :: m in r.piiFound ==> m.column in Requested(t, columns) && IndexOf(t.columns, m.column).Some?
  {
    var cols := ColumnsToScan(t, columns);
    MatchesOfColumns(scanner, t, cols);
  }

  /** A table without rows yields no finding and no recommendation. */
  lemma ScanEmptyTable(scanner: PIIScanner, t: Table, sourceName: string, columns: Option<seq<string>>)
    requires WellFormed(t) && t.rows == 0
    ensures var r := ScanSpec(scanner, t, sourceName, columns);
      r.totalRows == 0 && r.piiFound == [] && r.recommendations == []
  {
    EmptyTableMatches(scanner, t, ColumnsToScan(t, columns));
  }

  lemma {:induction false} EmptyTableMatches(scanner: PIIScanner, t: Table, cols: seq<string>)
    requires WellFormed(t) && t.rows == 0
    requires forall i :: 0 <= i < |cols| ==> IndexOf(t.columns, cols[i]).Some?
    ensures MatchesOf(scanner, t, cols) == []
  {
    if cols != [] {
      EmptyTableMatches(scanner, t, cols[..|cols| - 1]);
      var c := IndexOf(t.columns, cols[|cols| - 1]).value;
      EmptyColumnNoMatch(scanner, t.columns[c], |PatternTypes|);
    }
  }

  /** A column called "cpf" with data is reported as CPF, at high risk, by its name. */
  lemma CpfColumnByName(col: Column, rows: nat)
    requires col.name == "cpf" && |col.cells| == rows
    requires exists i :: 0 <= i < rows && col.cells[i] != Null
    ensures var ms := NameMatches(col, rows);
      |ms| == 1 && ms[0].piiType == Cpf && ms[0].riskLevel == Alto
  {
    assert Lower("cpf") == "cpf";
    assert Contains("cpf", Keywords(Cpf)[0]);
    assert NameHits("cpf", NameTypes[0]);
    var i :| 0 <= i < rows && col.cells[i] != Null;
    assert col.cells[i] in DropNull(col.cells);
  }

  // ------------------------------------------------------ CPF and CNPJ

  /** The weights of the CPF check digits (10..2, then 11..2). */
  const CpfWeights1: seq<int> := [10, 9, 8, 7, 6, 5, 4, 3, 2]
  const CpfWeights2: seq<int> := [11, 10, 9, 8, 7, 6, 5, 4, 3, 2]

  /** The weights of the CNPJ check digits. */
  const CnpjWeights1: seq<int> := [5, 4, 3, 2, 9, 8, 7, 6, 5, 4, 3, 2]
  const CnpjWeights2: seq<int> := [6, 5, 4, 3, 2, 9, 8, 7, 6, 5, 4, 3, 2]

  /** `sum(int(ds[i]) * ws[i] for i in range(k))` */
  function WeightedSum(ds: string, ws: seq<int>, k: nat): int
    requires AllDigits(ds) && k <= |ds| && k <= |ws|
  {
    if k == 0 then 0 else WeightedSum(ds, ws, k - 1) + DigitValue(ds[k - 1]) * ws[k - 1]
  }

  /** A remainder below 2 gives 0, any other remainder `r` gives 11 - r. */
  function CheckDigit(sum: int): (d: nat)
    ensures d < 10
  {
    var r := sum % 11;
    if r < 2 then 0 else 11 - r
  }

  /** Every character equals the first one, i.e. `s == s[0] * len(s)` (see `AllSameIsRepeat`). */
  predicate AllSame(s: string)
  {
    forall i :: 0 <= i < |s| ==> s[i] == s[0]
  }

  lemma AllSameIsRepeat(s: string)
    requires |s| > 0
    ensures AllSame(s) <==> s == Repeat([s[0]], |s|)
  {
    var r := Repeat([s[0]], |s|);
    forall i | 0 <= i < |s| ensures r[i] == s[0] { RepeatChar(s[0], |s|, i); }
  }

  /**
   * The digit string `ds` has one digit more than `w2`, is not one digit
   * repeated, and ends in the two check digits computed with `w1` over its
   * first `|w1|` digits and with `w2` over its first `|w2|`.
   */
  predicate ValidDigits(ds: string, w1: seq<int>, w2: seq<int>)
    requires AllDigits(ds) && |w1| + 1 == |w2|
  {
    && |ds| == |w2| + 1
    && !AllSame(ds)
    && ds[|ds| - 2..] == [DigitChar(CheckDigit(WeightedSum(ds, w1, |w1|))),
                         DigitChar(CheckDigit(WeightedSum(ds, w2, |w2|)))]
  }

  /** `validate_cpf`: 11 digits once punctuation is removed, with matching check digits. */
  function ValidateCpf(cpf: string): bool
  {
    var ds := OnlyDigits(cpf);
    |ds| == 11 && ValidDigits(ds, CpfWeights1, CpfWeights2)
  }

  /** `validate_cnpj`: 14 digits once punctuation is removed, with matching check digits. */
  function ValidateCnpj(cnpj: string): bool
  {
    var ds := OnlyDigits(cnpj);
    |ds| == 14 && ValidDigits(ds, CnpjWeights1, CnpjWeights2)
  }

  /** Punctuation is irrelevant: a number validates as it does with its non-digits removed. */
  lemma ValidationIgnoresFormatting(s: string)
    ensures ValidateCpf(s) == ValidateCpf(OnlyDigits(s))
    ensures ValidateCnpj(s) == ValidateCnpj(OnlyDigits(s))
  {
    OnlyDigitsIdempotent(s);
  }

  /** The weighted sum over the first `k` digits reads nothing beyond them. */
  lemma {:induction false} WeightedSumPrefix(ds: string, es: string, ws: seq<int>, k: nat)
    requires AllDigits(ds) && AllDigits(es) && k <= |ds| && k <= |es| && k <= |ws|
    requires ds[..k] == es[..k]
    ensures WeightedSum(ds, ws, k) == WeightedSum(es, ws, k)
  {
    if k > 0 {
      assert ds[k - 1] == ds[..k][k - 1] == es[..k][k - 1] == es[k - 1];
      assert ds[..k - 1] == ds[..k][..k - 1] && es[..k - 1] == es[..k][..k - 1];
      WeightedSumPrefix(ds, es, ws, k - 1);
    }
  }

  /**
   * A base of `|w1|` digits that is not one digit repeated has exactly one valid
   * completion: its first check digit followed by the second one computed over
   * the base and the first.
   */
  lemma CheckDigitsComplete(base: string, a: char, b: char, w1: seq<int>, w2: seq<int>)
    requires AllDigits(base) && IsDigit(a) && IsDigit(b)
    requires |base| == |w1| && |w2| == |w1| + 1
    requires !AllSame(base)
    ensures AllDigits(base + [a, b])
    ensures var d1 := DigitChar(CheckDigit(WeightedSum(base, w1, |w1|)));
      && AllDigits(base + [d1])
      && var d2 := DigitChar(CheckDigit(WeightedSum(base + [d1], w2, |w2|)));
      (ValidDigits(base + [a, b], w1, w2) <==> a == d1 && b == d2)
  {
    var ds := base + [a, b];
    assert AllDigits(ds) by {
      forall i | 0 <= i < |ds| ensures IsDigit(ds[i]) { if i < |base| { assert ds[i] == base[i]; } }
    }
    var d1 := DigitChar(CheckDigit(WeightedSum(base, w1, |w1|)));
    var e := base + [d1];
    assert AllDigits(e) by {
      forall i | 0 <= i < |e| ensures IsDigit(e[i]) { if i < |base| { assert e[i] == base[i]; } }
    }
    assert !AllSame(ds) by {
      var i :| 0 <= i < |base| && base[i] != base[0];
      assert ds[i] == base[i] && ds[0] == base[0];
    }
    assert ds[..|w1|] == base[..|w1|];
    WeightedSumPrefix(ds, base, w1, |w1|);
    assert ds[|ds| - 2..] == [a, b];
    if a == d1 {
      assert ds[..|w2|] == e[..|w2|];
      WeightedSumPrefix(ds, e, w2, |w2|);
    }
  }

  /**
   * Every 9-digit base that is not one digit repeated extends to exactly one
   * valid CPF, and every 12-digit base to exactly one valid CNPJ.
   */
  lemma CpfCompletion(base: string, a: char, b: char)
    requires AllDigits(base) && |base| == 9 && !AllSame(base) && IsDigit(a) && IsDigit(b)
    ensures var d1 := DigitChar(CheckDigit(WeightedSum(base, CpfWeights1, 9)));
      && AllDigits(base + [d1])
      && (ValidateCpf(base + [a, b]) <==> a == d1 && b == DigitChar(CheckDigit(WeightedSum(base + [d1], CpfWeights2, 10))))
  {
    CheckDigitsComplete(base, a, b, CpfWeights1, CpfWeights2);
    OnlyDigitsOfDigits(base + [a, b]);
  }

  lemma CnpjCompletion(base: string, a: char, b: char)
    requires AllDigits(base) && |base| == 12 && !AllSame(base) && IsDigit(a) && IsDigit(b)
    ensures var d1 := DigitChar(CheckDigit(WeightedSum(base, CnpjWeights1, 12)));
      && AllDigits(base + [d1])
      && (ValidateCnpj(base + [a, b]) <==> a == d1 && b == DigitChar(CheckDigit(WeightedSum(base + [d1], CnpjWeights2, 13))))
  {
    CheckDigitsComplete(base, a, b, CnpjWeights1, CnpjWeights2);
    OnlyDigitsOfDigits(base + [a, b]);
  }

  /** The sum of the first `k` weights. */
  function WeightTotal(ws: seq<int>, k: nat): int
    requires k <= |ws|
  {
    if k == 0 then 0 else WeightTotal(ws, k - 1) + ws[k - 1]
  }

  /** Over a run of one digit, the weighted sum is that digit times the sum of the weights. */
  lemma {:induction false} WeightedSumOfRun(ds: string, ws: seq<int>, k: nat)
    requires AllDigits(ds) && AllSame(ds) && k <= |ds| && k <= |ws|
    ensures k > 0 ==> WeightedSum(ds, ws, k) == DigitValue(ds[0]) * WeightTotal(ws, k)
  {
    if k > 1 {
      WeightedSumOfRun(ds, ws, k - 1);
      var v := DigitValue(ds[0]);
      assert ds[k - 1] == ds[0];
      assert v * WeightTotal(ws, k) == v * WeightTotal(ws, k - 1) + v * ws[k - 1];
    }
  }

  /**
   * Eleven copies of any one digit carry matching check digits (the weights
   * add up to 54 and 65, and 54 * d and 65 * d both leave the remainder that
   * gives back d), so only the repetition rule rejects them.
   */
  lemma RunCheckDigit(ds: string, ws: seq<int>, k: nat)
    requires AllDigits(ds) && AllSame(ds) && 0 < k <= |ds| && k <= |ws|
    requires WeightTotal(ws, k) == 54 || WeightTotal(ws, k) == 65
    ensures DigitChar(CheckDigit(WeightedSum(ds, ws, k))) == ds[0]
  {
    WeightedSumOfRun(ds, ws, k);
    var v := DigitValue(ds[0]);
    assert v == 0 || v == 1 || v == 2 || v == 3 || v == 4 || v == 5 || v == 6 || v == 7 || v == 8 || v == 9;
  }

  lemma RunOf(c: char)
    requires IsDigit(c)
    ensures var ds := Repeat([c], 11);
      AllDigits(ds) && AllSame(ds) && ds[0] == c && ds[9..] == [c, c]
  {
    var ds := Repeat([c], 11);
    forall i | 0 <= i < |ds| ensures ds[i] == c { RepeatChar(c, 11, i); }
  }

  /** A string of one repeated digit never validates. */
  lemma RunRejected(ds: string)
    requires AllDigits(ds) && AllSame(ds)
    ensures !ValidateCpf(ds)
  {
    OnlyDigitsOfDigits(ds);
  }

  lemma RepeatedCpfRejected(c: char)
    requires IsDigit(c)
    ensures var ds := Repeat([c], 11);
      && AllDigits(ds)
      && ds[9..] == [DigitChar(CheckDigit(WeightedSum(ds, CpfWeights1, 9))),
                     DigitChar(CheckDigit(WeightedSum(ds, CpfWeights2, 10)))]
      && !ValidateCpf(ds)
  {
    var ds := Repeat([c], 11);
    RunOf(c);
    assert WeightTotal(CpfWeights1, 9) == 54;
    assert WeightTotal(CpfWeights2, 10) == 65;
    RunCheckDigit(ds, CpfWeights1, 9);
    RunCheckDigit(ds, CpfWeights2, 10);
    RunRejected(ds);
  }

  const SampleCpf: string := "52998224725"
  const SampleCnpj: string := "11222333000181"

  lemma SampleCpfSums()
    ensures AllDigits(SampleCpf)
    ensures WeightedSum(SampleCpf, CpfWeights1, 9) == 295 && WeightedSum(SampleCpf, CpfWeights2, 10) == 347
  {
    assert WeightedSum(SampleCpf, CpfWeights1, 5) == 251;
    assert WeightedSum(SampleCpf, CpfWeights2, 5) == 284;
  }

  /** A valid CPF. */
  lemma KnownCpf()
    ensures ValidateCpf(SampleCpf)
  {
    SampleCpfSums();
    OnlyDigitsOfDigits(SampleCpf);
    assert SampleCpf[1] != SampleCpf[0];
  }

  /** The same CPF with a wrong last digit is rejected. */
  lemma BrokenCpf()
    ensures !ValidateCpf(SampleCpf[..10] + "6")
  {
    var bad := SampleCpf[..10] + "6";
    SampleCpfSums();
    assert AllDigits(bad);
    assert bad[..10] == SampleCpf[..10];
    WeightedSumPrefix(bad, SampleCpf, CpfWeights2, 10);
    OnlyDigitsOfDigits(bad);
    assert bad[10] == '6' != DigitChar(CheckDigit(347));
  }

  lemma SampleCnpjSums()
    ensures AllDigits(SampleCnpj)
    ensures WeightedSum(SampleCnpj, CnpjWeights1, 12) == 102 && WeightedSum(SampleCnpj, CnpjWeights2, 13) == 120
  {
    assert WeightedSum(SampleCnpj, CnpjWeights1, 4) == 19;
    assert WeightedSum(SampleCnpj, CnpjWeights1, 8) == 100;
    assert WeightedSum(SampleCnpj, CnpjWeights2, 4) == 25;
    assert WeightedSum(SampleCnpj, CnpjWeights2, 8) == 101;
  }

  /** A valid CNPJ. */
  lemma KnownCnpj()
    ensures ValidateCnpj(SampleCnpj)
  {
    SampleCnpjSums();
    OnlyDigitsOfDigits(SampleCnpj);
    assert SampleCnpj[2] != SampleCnpj[0];
    assert SampleCnpj[12..] == [DigitChar(8), DigitChar(1)];
  }
}
