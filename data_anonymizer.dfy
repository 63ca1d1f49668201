/**
 * The data anonymiser object: its salt check at construction, the keyword
 * arguments each technique accepts, the three techniques that keep state on
 * the object (the token vault and its counter, the pseudonym generator's draws
 * and the noise generator's draws), and the two entry points that rewrite one
 * column or a whole table. Tables are values here: every operation returns a
 * new table and the caller's table is never altered.
 */
module Anonymizer {
  import opened Wrappers
  import opened Strings
  import opened Settings
  import opened Frame
  import opened AnonymizerMethods

  // -------------------------------------------------------------- errors

  datatype AnonError =
    | InsecureSalt(message: string)
    | ColumnNotFound(column: string)
    | UnsupportedMethod(name: string)
    | InvalidMethodValue
    | UnexpectedKeywords(names: set<string>)
    | WrongArgumentTypes(names: set<string>)

  /** The message of the strict-mode failure, quoting the settings' warning. */
  function StrictSaltMessage(warning: string): string
  {
    "Configuracao de salt insegura em modo strict: " + warning
      + ". Defina HASH_SALT no .env ou desative strict_mode."
  }

  /**
   * The salt check run at construction. It reads the salt of the SETTINGS, not
   * the salt given to the constructor: strict mode fails whenever the settings
   * draw a warning, otherwise the warning is only logged.
   */
  function ValidateSalt(settings: AnonymizationSettings, strictMode: bool): (r: Option<AnonError>)
    ensures r.Some? <==> strictMode && GetSaltWarning(settings) != ""
    ensures r.Some? ==> r.value == InsecureSalt(StrictSaltMessage(GetSaltWarning(settings)))
  {
    var warning := GetSaltWarning(settings);
    if warning != "" && strictMode then Some(InsecureSalt(StrictSaltMessage(warning))) else None
  }

  /** `salt or settings.anonymization.hash_salt`: an empty or missing salt falls back to the settings. */
  function EffectiveSalt(salt: Option<string>, settings: AnonymizationSettings): (s: string)
    ensures salt.Some? && salt.value != "" ==> s == salt.value
    ensures salt.None? || salt.value == "" ==> s == settings.hashSalt
  {
    if salt.Some? && salt.value != "" then salt.value else settings.hashSalt
  }

  /** In strict mode the shipped settings refuse construction, whatever salt is passed explicitly. */
  lemma StrictIgnoresExplicitSalt(salt: Option<string>)
    ensures ValidateSalt(Defaults, true) == Some(InsecureSalt(StrictSaltMessage(CriticalWarning)))
    ensures EffectiveSalt(Some("this_is_a_very_secure_salt_12345"), Defaults) == "this_is_a_very_secure_salt_12345"
  {
    DefaultSaltIsInsecure();
  }

  /** Outside strict mode construction never fails, and with a secure settings salt strict mode does not fail. */
  lemma ValidateSaltPasses(settings: AnonymizationSettings, strictMode: bool)
    requires !strictMode || (IsSaltSecure(settings) && settings.minSaltLength > 12)
    ensures ValidateSalt(settings, strictMode).None?
  {
    if strictMode {
      WarningEmptyIffSecure(settings);
    }
  }

  // ---------------------------------------------------- keyword arguments

  /** A keyword-argument value as the callers pass them. */
  datatype Arg = AStr(s: string) | AInt(i: int) | AReal(r: real) | ANone | AStrList(items: seq<string>)

  type Kwargs = map<string, Arg>

  /** The technique requested from `anonymize_column`: a member of the enumeration, or any other value. */
  datatype MethodArg = Member(m: AnonymizationMethod) | Other(name: string)

  datatype ArgType = StrType | IntType | OptStrType | OptIntType | OptListType | CellType | NumberType

  predicate HasType(a: Arg, t: ArgType)
  {
    match t
    case StrType => a.AStr?
    case IntType => a.AInt?
    case OptStrType => a.AStr? || a.ANone?
    case OptIntType => a.AInt? || a.ANone?
    case OptListType => a.AStrList? || a.ANone?
    case CellType => a.AStr? || a.AInt? || a.ANone?
    case NumberType => a.AInt? || a.AReal?
  }

  /** The keyword parameters each technique declares, with the type the model accepts for each. */
  function Signature(m: AnonymizationMethod): map<string, ArgType>
  {
    match m
    case Mask => map["mask_char" := StrType, "visible_start" := IntType, "visible_end" := IntType, "pattern" := OptStrType]
    case Hash => map["algorithm" := StrType, "truncate" := OptIntType]
    case Pseudonymize => map["pii_type" := StrType]
    case Generalize => map["generalization_type" := StrType, "bins" := IntType, "labels" := OptListType]
    case Suppress => map["replacement" := CellType]
    case Tokenize => map["prefix" := StrType]
    case Noise => map["noise_level" := NumberType, "method" := StrType]
  }

  /** The names `anonymize_column` itself binds; passing one of them again is a TypeError. */
  const CallParameters: set<string> := {"self", "df", "column", "method"}

  /** A technique with its arguments bound. */
  datatype Technique =
    | MaskWith(mask: MaskOptions)
    | HashWith(algorithm: string, truncate: Option<int>)
    | PseudonymizeAs(piiType: string)
    | GeneralizeWith(generalize: GeneralizeOptions)
    | SuppressWith(replacement: Cell)
    | TokenizeWith(prefix: string)
    | NoiseWith(noiseLevel: real)

  function StrOr(kw: Kwargs, name: string, default: string): string
  {
    if name in kw && kw[name].AStr? then kw[name].s else default
  }

  function IntOr(kw: Kwargs, name: string, default: int): int
  {
    if name in kw && kw[name].AInt? then kw[name].i else default
  }

  function OptStr(kw: Kwargs, name: string): Option<string>
  {
    if name in kw && kw[name].AStr? then Some(kw[name].s) else None
  }

  function OptInt(kw: Kwargs, name: string): Option<int>
  {
    if name in kw && kw[name].AInt? then Some(kw[name].i) else None
  }

  function OptList(kw: Kwargs, name: string): Option<seq<string>>
  {
    if name in kw && kw[name].AStrList? then Some(kw[name].items) else None
  }

  function CellOr(kw: Kwargs, name: string): Cell
  {
    if name !in kw then Null
    else match kw[name]
      case AStr(s) => Text(s)
      case AInt(i) => Int(i)
      case _ => Null
  }

  function NumberOr(kw: Kwargs, name: string, default: real): real
  {
    if name !in kw then default
    else match kw[name]
      case AInt(i) => i as real
      case AReal(r) => r
      case _ => default
  }

  /** The technique with each keyword taken from `kw` or, when absent, its default. */
  function Build(m: AnonymizationMethod, kw: Kwargs): Technique
  {
    match m
    case Mask => MaskWith(MaskOptions(StrOr(kw, "mask_char", "*"), IntOr(kw, "visible_start", 0),
                                      IntOr(kw, "visible_end", 0), OptStr(kw, "pattern")))
    case Hash => HashWith(StrOr(kw, "algorithm", "sha256"), OptInt(kw, "truncate"))
    case Pseudonymize => PseudonymizeAs(StrOr(kw, "pii_type", "name"))
    case Generalize => GeneralizeWith(GeneralizeOptions(StrOr(kw, "generalization_type", "range"),
                                                        IntOr(kw, "bins", 5), OptList(kw, "labels")))
    case Suppress => SuppressWith(CellOr(kw, "replacement"))
    case Tokenize => TokenizeWith(StrOr(kw, "prefix", "TOK_"))
    case Noise => NoiseWith(NumberOr(kw, "noise_level", 0.1))
  }

  /**
   * Calling a technique with `**kw`: names it does not declare are a
   * TypeError; values of a type the technique cannot use are refused.
   */
  function Bind(m: AnonymizationMethod, kw: Kwargs): (r: Result<Technique, AnonError>)
    ensures r.Ok? <==> forall k :: k in kw ==> k in Signature(m) && HasType(kw[k], Signature(m)[k])
    ensures r.Ok? ==> r.value == Build(m, kw)
    ensures r.Err? ==> r.error.UnexpectedKeywords? || r.error.WrongArgumentTypes?
    ensures r.Err? && r.error.UnexpectedKeywords? ==>
      r.error.names != {} && forall k :: k in r.error.names <==> k in kw && k !in Signature(m)
    ensures r.Err? && r.error.WrongArgumentTypes? ==>
      r.error.names != {} && forall k :: k in r.error.names <==> k in kw && k in Signature(m) && !HasType(kw[k], Signature(m)[k])
  {
    var sig := Signature(m);
    var unknown := set k | k in kw && k !in sig;
    var mistyped := set k | k in kw && k in sig && !HasType(kw[k], sig[k]);
    if unknown != {} then
      Err(UnexpectedKeywords(unknown))
    else if mistyped != {} then
      Err(WrongArgumentTypes(mistyped))
    else
      assert forall k :: k in kw ==> k !in unknown && k !in mistyped;
      Ok(Build(m, kw))
  }

  /** With no keywords every technique binds, to its defaults. */
  lemma BindEmpty(m: AnonymizationMethod)
    ensures Bind(m, map[]) == Ok(Build(m, map[]))
  {
    var none: Kwargs := map[];
    assert forall k :: k !in none;
  }

  /** The defaults each technique declares. */
  function DefaultTechnique(m: AnonymizationMethod): Technique
  {
    match m
    case Mask => MaskWith(DefaultMaskOptions)
    case Hash => HashWith("sha256", None)
    case Pseudonymize => PseudonymizeAs("name")
    case Generalize => GeneralizeWith(DefaultGeneralizeOptions)
    case Suppress => SuppressWith(Null)
    case Tokenize => TokenizeWith("TOK_")
    case Noise => NoiseWith(0.1)
  }

  /** Called without keywords, every technique runs with its declared defaults. */
  lemma BindDefaults(m: AnonymizationMethod)
    ensures Bind(m, map[]) == Ok(DefaultTechnique(m))
  {
    BindEmpty(m);
  }

  /** A keyword given with the right type reaches the technique unchanged. */
  lemma BindPrefix(p: string)
    ensures Bind(Tokenize, map["prefix" := AStr(p)]) == Ok(TokenizeWith(p))
  {
  }

  lemma BindTruncate(n: int)
    ensures Bind(Hash, map["truncate" := AInt(n)]) == Ok(HashWith("sha256", Some(n)))
  {
  }

  lemma BindReplacement(text: string)
    ensures Bind(Suppress, map["replacement" := AStr(text)]) == Ok(SuppressWith(Text(text)))
  {
  }

  lemma BindVisibleStart(n: int)
    ensures Bind(Mask, map["visible_start" := AInt(n)]) == Ok(MaskWith(MaskOptions("*", n, 0, None)))
  {
  }

  /** A keyword the technique does not declare is refused, by name. */
  lemma BindRefusesUnknown(m: AnonymizationMethod, name: string, a: Arg)
    requires name !in Signature(m)
    ensures Bind(m, map[name := a]) == Err(UnexpectedKeywords({name}))
  {
    var kw := map[name := a];
    assert (set k | k in kw && k !in Signature(m)) == {name};
  }

  // ---------------------------------------------------------- the vault

  /** The token vault: text of a value to its token, and the number of tokens issued. */
  datatype TokenState = TokenState(tokens: map<string, string>, counter: nat)

  /** One value through the vault: a known value gets its token back, a new one the next number. */
  function TokenizeCell(ts: TokenState, prefix: string, c: Cell): (r: (Cell, TokenState))
  {
    if c == Null then (Null, ts)
    else
      var key := PyStr(c);
      if key in ts.tokens then (Text(ts.tokens[key]), ts)
      else
        var token := prefix + Pad8(ts.counter + 1);
        (Text(token), TokenState(ts.tokens[key := token], ts.counter + 1))
  }

  /** `series.apply(get_token)`: the cells in order, threading the vault. */
  function TokenizeCells(ts: TokenState, prefix: string, cells: seq<Cell>): (r: (seq<Cell>, TokenState))
    ensures |r.0| == |cells|
  {
    if cells == [] then ([], ts)
    else
      var pre := TokenizeCells(ts, prefix, cells[..|cells| - 1]);
      var step := TokenizeCell(pre.1, prefix, cells[|cells| - 1]);
      (pre.0 + [step.0], step.1)
  }

  predicate EndsWith(s: string, suffix: string)
  {
    |suffix| <= |s| && s[|s| - |suffix|..] == suffix
  }

  /**
   * The vault is numbered by `issued`, the values in the order they were first
   * tokenised: one token per issued value, the i-th ending in the zero-padded
   * number i + 1, and the counter equal to the number of values issued.
   */
  ghost predicate Numbered(ts: TokenState, issued: seq<string>)
  {
    && |issued| == ts.counter
    && (forall i, j :: 0 <= i < j < |issued| ==> issued[i] != issued[j])
    && (forall k :: k in ts.tokens <==> k in issued)
    && forall i :: 0 <= i < |issued| ==> issued[i] in ts.tokens && EndsWith(ts.tokens[issued[i]], Pad8(i + 1))
  }

  /** The issue order after tokenising `cells`: new values are appended as they first appear. */
  ghost function IssuedAfter(ts: TokenState, prefix: string, cells: seq<Cell>, issued: seq<string>): seq<string>
  {
    if cells == [] then issued
    else
      var before := TokenizeCells(ts, prefix, cells[..|cells| - 1]).1;
      var pre := IssuedAfter(ts, prefix, cells[..|cells| - 1], issued);
      var c := cells[|cells| - 1];
      if c == Null || PyStr(c) in before.tokens then pre else pre + [PyStr(c)]
  }

  /** Issuing the next number to a new text keeps the vault numbered. */
  lemma NumberedExtend(ts: TokenState, issued: seq<string>, key: string, token: string)
    requires Numbered(ts, issued) && key !in ts.tokens && EndsWith(token, Pad8(|issued| + 1))
    ensures Numbered(TokenState(ts.tokens[key := token], ts.counter + 1), issued + [key])
  {
    var tokens := ts.tokens[key := token];
    var order := issued + [key];
    assert key !in issued;
    forall i | 0 <= i < |order| ensures order[i] in tokens && EndsWith(tokens[order[i]], Pad8(i + 1)) {
      if i < |issued| {
        assert order[i] == issued[i] && issued[i] != key;
      }
    }
    forall i, j | 0 <= i < j < |order| ensures order[i] != order[j] {
      if j < |issued| { assert order[i] == issued[i] && order[j] == issued[j]; }
      else { assert order[i] == issued[i]; }
    }
    forall k ensures k in tokens <==> k in order {
      assert k in order <==> k in issued || k == key;
    }
  }

  lemma TokenizeCellNumbered(ts: TokenState, prefix: string, c: Cell, issued: seq<string>)
    requires Numbered(ts, issued)
    ensures var next := TokenizeCell(ts, prefix, c).1;
      Numbered(next, if c == Null || PyStr(c) in ts.tokens then issued else issued + [PyStr(c)])
  {
    if c != Null && PyStr(c) !in ts.tokens {
      var padded := Pad8(ts.counter + 1);
      var token := prefix + padded;
      assert token[|token| - |padded|..] == padded;
      NumberedExtend(ts, issued, PyStr(c), token);
    }
  }

  /** Tokenising keeps the vault numbered. */
  lemma {:induction false} TokenizeNumbered(ts: TokenState, prefix: string, cells: seq<Cell>, issued: seq<string>)
    requires Numbered(ts, issued)
    ensures Numbered(TokenizeCells(ts, prefix, cells).1, IssuedAfter(ts, prefix, cells, issued))
  {
    if cells != [] {
      var init := cells[..|cells| - 1];
      TokenizeNumbered(ts, prefix, init, issued);
      TokenizeCellNumbered(TokenizeCells(ts, prefix, init).1, prefix, cells[|cells| - 1], IssuedAfter(ts, prefix, init, issued));
    }
  }

  /** The last eight characters of a token: its number. */
  function TokenNumber(token: string): string
  {
    if |token| >= 8 then token[|token| - 8..] else token
  }

  /** While fewer than 10^8 tokens are issued, a token's number is the issue position of its value, plus one. */
  lemma TokenEncodesIssueOrder(ts: TokenState, issued: seq<string>, i: nat)
    requires Numbered(ts, issued) && ts.counter < 100000000 && i < |issued|
    ensures ParseDigits(TokenNumber(ts.tokens[issued[i]])) == i + 1
  {
    Pad8Length(i + 1);
    Pad8Parse(i + 1);
  }

  lemma IssuePosition(ts: TokenState, issued: seq<string>, k: string) returns (i: nat)
    requires Numbered(ts, issued) && k in ts.tokens
    ensures i < |issued| && issued[i] == k
  {
    i :| 0 <= i < |issued| && issued[i] == k;
  }

  /**
   * While fewer than 10^8 tokens have been issued, no two values share a token,
   * whatever prefixes were used; so the mapping can be inverted.
   */
  lemma TokensInjective(ts: TokenState, issued: seq<string>, a: string, b: string)
    requires Numbered(ts, issued) && ts.counter < 100000000
    requires a in ts.tokens && b in ts.tokens && a != b
    ensures ts.tokens[a] != ts.tokens[b]
  {
    var i := IssuePosition(ts, issued, a);
    var j := IssuePosition(ts, issued, b);
    TokenEncodesIssueOrder(ts, issued, i);
    TokenEncodesIssueOrder(ts, issued, j);
  }

  /** Missing values stay missing and present values get a token. */
  lemma {:induction false} TokenizeNulls(ts: TokenState, prefix: string, cells: seq<Cell>)
    ensures forall i :: 0 <= i < |cells| ==> (TokenizeCells(ts, prefix, cells).0[i] == Null <==> cells[i] == Null)
  {
    if cells != [] {
      var init := cells[..|cells| - 1];
      TokenizeNulls(ts, prefix, init);
      var out := TokenizeCells(ts, prefix, cells).0;
      var pre := TokenizeCells(ts, prefix, init).0;
      assert out[..|init|] == pre;
      forall i | 0 <= i < |init| ensures out[i] == Null <==> cells[i] == Null {
        assert out[i] == pre[i] && cells[i] == init[i];
      }
    }
  }

  /** Tokens already in the vault are kept, and the counter never goes back. */
  lemma {:induction false} TokenizeKeepsVault(ts: TokenState, prefix: string, cells: seq<Cell>)
    ensures forall k :: k in ts.tokens ==> (k in TokenizeCells(ts, prefix, cells).1.tokens && TokenizeCells(ts, prefix, cells).1.tokens[k] == ts.tokens[k])
    ensures TokenizeCells(ts, prefix, cells).1.counter >= ts.counter
  {
    if cells != [] {
      TokenizeKeepsVault(ts, prefix, cells[..|cells| - 1]);
    }
  }

  /** Every text in the vault afterwards was there before or is the text of a present cell. */
  lemma {:induction false} TokenizeOrigin(ts: TokenState, prefix: string, cells: seq<Cell>, k: string)
    requires k in TokenizeCells(ts, prefix, cells).1.tokens && k !in ts.tokens
    ensures exists i :: 0 <= i < |cells| && cells[i] != Null && PyStr(cells[i]) == k
  {
    var init := cells[..|cells| - 1];
    if k in TokenizeCells(ts, prefix, init).1.tokens {
      TokenizeOrigin(ts, prefix, init, k);
      var i :| 0 <= i < |init| && init[i] != Null && PyStr(init[i]) == k;
      assert cells[i] == init[i];
    } else {
      assert cells[|cells| - 1] != Null && PyStr(cells[|cells| - 1]) == k;
    }
  }

  /** Every present value ends up replaced by its text's token in the final vault. */
  lemma {:induction false} TokenizeLookup(ts: TokenState, prefix: string, cells: seq<Cell>, i: nat)
    requires i < |cells| && cells[i] != Null
    ensures PyStr(cells[i]) in TokenizeCells(ts, prefix, cells).1.tokens
    ensures TokenizeCells(ts, prefix, cells).0[i] == Text(TokenizeCells(ts, prefix, cells).1.tokens[PyStr(cells[i])])
  {
    var init := cells[..|cells| - 1];
    if i < |init| {
      TokenizeLookup(ts, prefix, init, i);
      var pre := TokenizeCells(ts, prefix, init);
      TokenizeKeepsVault(pre.1, prefix, [cells[|cells| - 1]]);
      assert [cells[|cells| - 1]][..0] == [];
      assert cells[i] == init[i];
      assert TokenizeCells(ts, prefix, cells).0[i] == pre.0[i];
    }
  }

  /**
   * What tokenising does to the cells and the vault: missing values stay
   * missing, every present value is replaced by the vault's token for its text,
   * tokens already in the vault are kept, and the vault gains exactly the texts
   * of the present values.
   */
  lemma TokenizeFacts(ts: TokenState, prefix: string, cells: seq<Cell>)
    ensures var r := TokenizeCells(ts, prefix, cells);
      && (forall i :: 0 <= i < |cells| ==> (r.0[i] == Null <==> cells[i] == Null))
      && (forall i :: 0 <= i < |cells| && cells[i] != Null ==> PyStr(cells[i]) in r.1.tokens && r.0[i] == Text(r.1.tokens[PyStr(cells[i])]))
      && (forall k :: k in ts.tokens ==> k in r.1.tokens && r.1.tokens[k] == ts.tokens[k])
      && (forall k :: k in r.1.tokens ==> k in ts.tokens || exists i :: 0 <= i < |cells| && cells[i] != Null && PyStr(cells[i]) == k)
      && r.1.counter >= ts.counter
  {
    var r := TokenizeCells(ts, prefix, cells);
    TokenizeNulls(ts, prefix, cells);
    TokenizeKeepsVault(ts, prefix, cells);
    forall i | 0 <= i < |cells| && cells[i] != Null
      ensures PyStr(cells[i]) in r.1.tokens && r.0[i] == Text(r.1.tokens[PyStr(cells[i])])
    {
      TokenizeLookup(ts, prefix, cells, i);
    }
    forall k | k in r.1.tokens && k !in ts.tokens
      ensures exists i :: 0 <= i < |cells| && cells[i] != Null && PyStr(cells[i]) == k
    {
      TokenizeOrigin(ts, prefix, cells, k);
    }
  }

  /** Values whose text is already in the vault leave the vault as it is. */
  lemma {:induction false} TokenizeKnown(ts: TokenState, prefix: string, cells: seq<Cell>)
    requires forall i :: 0 <= i < |cells| && cells[i] != Null ==> PyStr(cells[i]) in ts.tokens
    ensures TokenizeCells(ts, prefix, cells).1 == ts
  {
    if cells != [] {
      var init := cells[..|cells| - 1];
      assert forall i :: 0 <= i < |init| ==> init[i] == cells[i];
      TokenizeKnown(ts, prefix, init);
    }
  }

  /** Tokenising the same column a second time, with any prefix, gives the same tokens and changes nothing. */
  lemma TokenizeIdempotent(ts: TokenState, prefix: string, prefix2: string, cells: seq<Cell>)
    ensures var first := TokenizeCells(ts, prefix, cells);
      TokenizeCells(first.1, prefix2, cells) == first
  {
    var first := TokenizeCells(ts, prefix, cells);
    forall i | 0 <= i < |cells| && cells[i] != Null ensures PyStr(cells[i]) in first.1.tokens {
      TokenizeLookup(ts, prefix, cells, i);
    }
    TokenizeKnown(first.1, prefix2, cells);
    var second := TokenizeCells(first.1, prefix2, cells);
    TokenizeNulls(ts, prefix, cells);
    TokenizeNulls(first.1, prefix2, cells);
    forall i | 0 <= i < |cells| ensures second.0[i] == first.0[i] {
      if cells[i] != Null {
        TokenizeLookup(ts, prefix, cells, i);
        TokenizeLookup(first.1, prefix2, cells, i);
      }
    }
    assert second.0 == first.0;
  }

  /** A value not yet in the vault gets the prefix followed by the next number, zero-padded to eight digits. */
  lemma NewValueToken(ts: TokenState, prefix: string, v: Cell)
    requires v != Null && PyStr(v) !in ts.tokens
    ensures TokenizeCells(ts, prefix, [v]) == ([Text(prefix + Pad8(ts.counter + 1))],
                                               TokenState(ts.tokens[PyStr(v) := prefix + Pad8(ts.counter + 1)], ts.counter + 1))
  {
    assert [v][..0] == [];
    assert TokenizeCells(ts, prefix, []) == ([], ts);
    assert TokenizeCell(ts, prefix, v) == (Text(prefix + Pad8(ts.counter + 1)),
                                           TokenState(ts.tokens[PyStr(v) := prefix + Pad8(ts.counter + 1)], ts.counter + 1));
    assert [] + [Text(prefix + Pad8(ts.counter + 1))] == [Text(prefix + Pad8(ts.counter + 1))];
  }

  /** From an empty vault, the first present value becomes prefix + "00000001". */
  lemma FirstTokenFormat(prefix: string, v: Cell)
    requires v != Null
    ensures TokenizeCells(TokenState(map[], 0), prefix, [v]).0 == [Text(prefix + "00000001")]
  {
    NewValueToken(TokenState(map[], 0), prefix, v);
    Pad8One();
  }

  // ----------------------------------------------------------- pseudonyms

  /** The Faker generators selected by `pii_type`; any other name draws a UUID cut to 8 characters. */
  datatype Generator = FakeName | FakeEmail | FakePhone | FakeAddress | FakeCpf | FakeCnpj | FakeDate | FakeCity | FakeText | FakeUuid

  function GeneratorFor(piiType: string): Generator
  {
    match piiType
    case "name" => FakeName
    case "email" => FakeEmail
    case "phone" => FakePhone
    case "address" => FakeAddress
    case "cpf" => FakeCpf
    case "cnpj" => FakeCnpj
    case "date" => FakeDate
    case "city" => FakeCity
    case "text" => FakeText
    case _ => FakeUuid
  }

  /** The Faker instance's output: the value drawn by a generator as the n-th draw of its random stream. */
  type Faker = (Generator, nat) -> string

  function Draw(fake: Faker, g: Generator, n: nat): string
  {
    if g == FakeUuid then PyHead(fake(g, n), 8) else fake(g, n)
  }

  /** `{val: generator() for val in values}`, the draws numbered from `start`. */
  function PseudonymMap(fake: Faker, g: Generator, values: seq<Cell>, start: nat): (mp: map<Cell, string>)
    ensures forall v :: v in mp <==> v in values
  {
    if values == [] then map[]
    else
      PseudonymMap(fake, g, values[..|values| - 1], start)[values[|values| - 1] := Draw(fake, g, start + |values| - 1)]
  }

  lemma {:induction false} PseudonymMapAt(fake: Faker, g: Generator, values: seq<Cell>, start: nat, k: nat)
    requires forall i, j :: 0 <= i < j < |values| ==> values[i] != values[j]
    requires k < |values|
    ensures PseudonymMap(fake, g, values, start)[values[k]] == Draw(fake, g, start + k)
  {
    if k < |values| - 1 {
      PseudonymMapAt(fake, g, values[..|values| - 1], start, k);
    }
  }

  /** `series.map(mapping)`: a value missing from the mapping becomes null. */
  function MapThrough(mapping: map<Cell, string>, cells: seq<Cell>): (r: seq<Cell>)
    ensures |r| == |cells|
    ensures forall i :: 0 <= i < |cells| ==> r[i] == if cells[i] in mapping then Text(mapping[cells[i]]) else Null
  {
    Apply(c => if c in mapping then Text(mapping[c]) else Null, cells)
  }

  /** The mapping over the distinct present values, applied; returns the cells and the next draw number. */
  function PseudonymizeCells(fake: Faker, g: Generator, cells: seq<Cell>, start: nat): (r: (seq<Cell>, nat))
    ensures |r.0| == |cells|
  {
    (MapThrough(PseudonymMap(fake, g, Unique(cells), start), cells), start + |Unique(cells)|)
  }

  /** An occurrence of the k-th distinct value is replaced by the k-th draw. */
  lemma PseudonymAt(fake: Faker, g: Generator, cells: seq<Cell>, start: nat, i: nat, k: nat)
    requires i < |cells| && k < |Unique(cells)| && cells[i] == Unique(cells)[k]
    ensures PseudonymizeCells(fake, g, cells, start).0[i] == Text(Draw(fake, g, start + k))
  {
    PseudonymMapAt(fake, g, Unique(cells), start, k);
  }

  /** The position of a present value among the distinct values. */
  lemma RankOf(cells: seq<Cell>, i: nat) returns (k: nat)
    requires i < |cells| && cells[i] != Null
    ensures k < |Unique(cells)| && Unique(cells)[k] == cells[i]
  {
    assert cells[i] in cells;
    k :| 0 <= k < |Unique(cells)| && Unique(cells)[k] == cells[i];
  }

  /**
   * Pseudonymising is consistent: missing values stay missing, equal values
   * get equal pseudonyms, the k-th distinct value gets the k-th draw, and one
   * draw is spent per distinct value.
   */
  lemma PseudonymizeConsistent(fake: Faker, g: Generator, cells: seq<Cell>, start: nat)
    ensures var r := PseudonymizeCells(fake, g, cells, start);
      && r.1 == start + |Unique(cells)|
      && (forall i :: 0 <= i < |cells| ==> (r.0[i] == Null <==> cells[i] == Null))
      && (forall i, j :: 0 <= i < |cells| && 0 <= j < |cells| && cells[i] == cells[j] ==> r.0[i] == r.0[j])
      && forall i, k :: 0 <= i < |cells| && 0 <= k < |Unique(cells)| && cells[i] == Unique(cells)[k] ==> r.0[i] == Text(Draw(fake, g, start + k))
  {
    forall i, k | 0 <= i < |cells| && 0 <= k < |Unique(cells)| && cells[i] == Unique(cells)[k]
      ensures PseudonymizeCells(fake, g, cells, start).0[i] == Text(Draw(fake, g, start + k))
    {
      PseudonymAt(fake, g, cells, start, i, k);
    }
  }

  /** When the generator never repeats itself, distinct values get distinct pseudonyms. */
  lemma PseudonymsDistinct(fake: Faker, g: Generator, cells: seq<Cell>, start: nat, i: nat, j: nat)
    requires forall a: nat, b: nat :: a != b ==> Draw(fake, g, a) != Draw(fake, g, b)
    requires i < |cells| && j < |cells| && cells[i] != Null && cells[j] != Null && cells[i] != cells[j]
    ensures PseudonymizeCells(fake, g, cells, start).0[i] != PseudonymizeCells(fake, g, cells, start).0[j]
  {
    var ki := RankOf(cells, i);
    var kj := RankOf(cells, j);
    assert ki != kj;
    var di, dj := Draw(fake, g, start + ki), Draw(fake, g, start + kj);
    assert di != dj;
    PseudonymAt(fake, g, cells, start, i, ki);
    PseudonymAt(fake, g, cells, start, j, kj);
    assert Text(di) != Text(dj);
  }

  // ----------------------------------------------------------------- noise

  /**
   * `series + np.random.<distribution>(0, std * noise_level, len(series))`: the
   * noised column for a noise level and the n-th draw of the random stream;
   * kept abstract, but one cell per input.
   */
  type NoiseSource = f: (seq<Cell>, real, nat) -> seq<Cell>
    | forall cells, level, n :: |f(cells, level, n)| == |cells|
    witness (cells: seq<Cell>, level: real, n: nat) => cells

  // ------------------------------------------------ techniques on a column

  /** What an anonymiser is built from: the salt it hashes with and its random sources. */
  datatype Env = Env(salt: string, digest: Digest, fake: Faker, cut: Cutter, noise: NoiseSource)

  /** The state the anonymiser changes: the vault and the draws taken from its two random sources. */
  datatype AnonState = AnonState(vault: TokenState, fakeDraws: nat, noiseDraws: nat)

  /** A rewritten column: its dtype, its cells, and the state after the technique ran. */
  datatype Rewrite = Rewrite(kind: Kind, cells: seq<Cell>, state: AnonState)

  function MaskColumn(o: MaskOptions, kind: Kind, cells: seq<Cell>): seq<Cell>
  {
    Apply(c => MaskCell(o, c), cells)
  }

  function HashColumn(env: Env, algorithm: string, truncate: Option<int>, cells: seq<Cell>): seq<Cell>
  {
    Apply(c => HashCell(env.digest, env.salt, algorithm, truncate, c), cells)
  }

  /** The column after one technique; only tokenising, pseudonymising and noise change the state. */
  function RewriteColumn(env: Env, st: AnonState, tech: Technique, kind: Kind, cells: seq<Cell>): (r: Rewrite)
    ensures |r.cells| == |cells|
    ensures !tech.TokenizeWith? ==> r.state.vault == st.vault
    ensures !tech.PseudonymizeAs? ==> r.state.fakeDraws == st.fakeDraws
    ensures !tech.NoiseWith? ==> r.state.noiseDraws == st.noiseDraws
  {
    match tech
    case MaskWith(o) =>
      var out := MaskColumn(o, kind, cells);
      Rewrite(InferKind(out, kind), out, st)
    case HashWith(a, t) =>
      var out := HashColumn(env, a, t, cells);
      Rewrite(InferKind(out, kind), out, st)
    case PseudonymizeAs(p) =>
      var r := PseudonymizeCells(env.fake, GeneratorFor(p), cells, st.fakeDraws);
      Rewrite(InferKind(r.0, kind), r.0, st.(fakeDraws := r.1))
    case GeneralizeWith(o) =>
      var r := GeneralizeColumn(env.cut, o, kind, cells);
      Rewrite(r.0, r.1, st)
    case SuppressWith(rep) =>
      var out := SuppressColumn(rep, |cells|);
      Rewrite(InferKind(out, Object), out, st)
    case TokenizeWith(p) =>
      var r := TokenizeCells(st.vault, p, cells);
      Rewrite(InferKind(r.0, kind), r.0, st.(vault := r.1))
    case NoiseWith(level) =>
      if kind == Numeric then
        var out := env.noise(cells, level, st.noiseDraws);
        Rewrite(InferKind(out, Numeric), out, st.(noiseDraws := st.noiseDraws + 1))
      else Rewrite(kind, cells, st)
  }

  /** The outcome of `anonymize_column` on the state `st`: the new table or the error, and the new state. */
  function AnonymizeColumnSpec(env: Env, st: AnonState, t: Table, column: string, m: MethodArg, kw: Kwargs)
    : (r: (Result<Table, AnonError>, AnonState))
    ensures r.0.Err? ==> r.1 == st
  {
    var clash := set k | k in kw && k in CallParameters;
    if clash != {} then (Err(UnexpectedKeywords(clash)), st)
    else match IndexOf(t.columns, column)
      case None => (Err(ColumnNotFound(column)), st)
      case Some(i) =>
        match m
        case Other(name) => (Err(UnsupportedMethod(name)), st)
        case Member(tm) =>
          match Bind(tm, kw)
          case Err(e) => (Err(e), st)
          case Ok(tech) =>
            var col := t.columns[i];
            var rw := RewriteColumn(env, st, tech, col.kind, col.cells);
            (Ok(ReplaceColumn(t, i, rw.kind, rw.cells)), rw.state)
  }

  /** Same rows, same column names in the same order; well-formedness is kept. */
  predicate SameShape(t: Table, r: Table)
  {
    r.rows == t.rows && ColumnNames(r) == ColumnNames(t)
  }

  /**
   * A successful call rewrites exactly the named column, keeping the table's
   * shape; a missing column is reported as such; nothing but tokenising touches
   * the vault.
   */
  lemma AnonymizeColumnFacts(env: Env, st: AnonState, t: Table, column: string, m: MethodArg, kw: Kwargs)
    requires WellFormed(t)
    ensures var r := AnonymizeColumnSpec(env, st, t, column, m, kw);
      && (r.0.Ok? ==> SameShape(t, r.0.value) && WellFormed(r.0.value))
      && (r.0.Ok? ==> forall j :: 0 <= j < |t.columns| && t.columns[j].name != column ==> r.0.value.columns[j] == t.columns[j])
      && (r.0.Ok? ==> exists j :: 0 <= j < |t.columns| && t.columns[j].name == column)
      && ((forall k :: k in kw ==> k !in CallParameters) && (forall j :: 0 <= j < |t.columns| ==> t.columns[j].name != column)
          ==> r.0 == Err(ColumnNotFound(column)))
      && (!(m.Member? && m.m == Tokenize) ==> r.1.vault == st.vault)
  {
    var r := AnonymizeColumnSpec(env, st, t, column, m, kw);
    if r.0.Ok? {
      var i := IndexOf(t.columns, column).value;
      var u := r.0.value;
      assert forall j :: 0 <= j < |t.columns| ==> u.columns[j].name == t.columns[j].name;
      assert ColumnNames(u) == ColumnNames(t);
      forall j | 0 <= j < |t.columns| && t.columns[j].name != column ensures u.columns[j] == t.columns[j] {
        assert j != i;
      }
    }
    if (forall k :: k in kw ==> k !in CallParameters) {
      assert (set k | k in kw && k in CallParameters) == {};
    }
  }

  /** Unknown values of `method` are refused before any keyword is looked at. */
  lemma UnsupportedMethodRefused(env: Env, st: AnonState, t: Table, column: string, name: string)
    requires exists j :: 0 <= j < |t.columns| && t.columns[j].name == column
    ensures AnonymizeColumnSpec(env, st, t, column, Other(name), map[]) == (Err(UnsupportedMethod(name)), st)
  {
    var none: Kwargs := map[];
    assert (set k | k in none && k in CallParameters) == {};
  }

  // ------------------------------------------------ techniques on a table

  /** One entry of the configuration: skipped when its column is absent, "mask" when it names no method. */
  function ConfigStep(env: Env, st: AnonState, t: Table, column: string, params: Kwargs): (r: (Result<Table, AnonError>, AnonState))
    ensures r.0.Err? ==> r.1 == st
  {
    if IndexOf(t.columns, column).None? then (Ok(t), st)
    else
      var name := if "method" in params then params["method"] else AStr("mask");
      if !name.AStr? || ParseMethod(name.s).None? then (Err(InvalidMethodValue), st)
      else AnonymizeColumnSpec(env, st, t, column, Member(ParseMethod(name.s).value), params - {"method"})
  }

  /** `anonymize_dataframe`: the entries in order, stopping at the first error. */
  function AnonymizeDataFrameSpec(env: Env, st: AnonState, t: Table, config: seq<(string, Kwargs)>)
    : (r: (Result<Table, AnonError>, AnonState))
  {
    if config == [] then (Ok(t), st)
    else
      var pre := AnonymizeDataFrameSpec(env, st, t, config[..|config| - 1]);
      if pre.0.Err? then pre
      else ConfigStep(env, pre.1, pre.0.value, config[|config| - 1].0, config[|config| - 1].1)
  }

  /** Once an entry fails, the outcome is that failure whatever follows. */
  lemma {:induction false} DataFrameErrorSticks(env: Env, st: AnonState, t: Table, config: seq<(string, Kwargs)>, k: nat)
    requires k <= |config|
    requires AnonymizeDataFrameSpec(env, st, t, config[..k]).0.Err?
    ensures AnonymizeDataFrameSpec(env, st, t, config) == AnonymizeDataFrameSpec(env, st, t, config[..k])
    decreases |config| - k
  {
    if k < |config| {
      var next := config[..k + 1];
      assert next[..k] == config[..k];
      DataFrameErrorSticks(env, st, t, config, k + 1);
    } else {
      assert config[..k] == config;
    }
  }

  /** An entry for an absent column changes nothing; an entry without "method" masks. */
  lemma ConfigStepFacts(env: Env, st: AnonState, t: Table, column: string, params: Kwargs)
    ensures (forall j :: 0 <= j < |t.columns| ==> t.columns[j].name != column) ==> ConfigStep(env, st, t, column, params) == (Ok(t), st)
    ensures (exists j :: 0 <= j < |t.columns| && t.columns[j].name == column) && "method" !in params
      ==> ConfigStep(env, st, t, column, params) == AnonymizeColumnSpec(env, st, t, column, Member(Mask), params)
  {
    if "method" !in params { assert params - {"method"} == params; }
  }

  /**
   * A successful run keeps the table's shape (the rows and the column names,
   * in order: absent columns are never added) and leaves every column that no
   * entry names as it was.
   */
  lemma {:induction false} DataFrameFacts(env: Env, st: AnonState, t: Table, config: seq<(string, Kwargs)>)
    requires WellFormed(t)
    ensures var r := AnonymizeDataFrameSpec(env, st, t, config);
      r.0.Ok? ==> (SameShape(t, r.0.value) && WellFormed(r.0.value)
        && forall j :: 0 <= j < |t.columns| && (forall e :: 0 <= e < |config| ==> config[e].0 != t.columns[j].name)
             ==> r.0.value.columns[j] == t.columns[j])
  {
    if config != [] {
      var init := config[..|config| - 1];
      var pre := AnonymizeDataFrameSpec(env, st, t, init);
      DataFrameFacts(env, st, t, init);
      if pre.0.Ok? {
        var (column, params) := config[|config| - 1];
        var u := pre.0.value;
        if IndexOf(u.columns, column).Some? {
          var name := if "method" in params then params["method"] else AStr("mask");
          if name.AStr? && ParseMethod(name.s).Some? {
            AnonymizeColumnFacts(env, pre.1, u, column, Member(ParseMethod(name.s).value), params - {"method"});
          }
        }
        var r := AnonymizeDataFrameSpec(env, st, t, config);
        if r.0.Ok? {
          forall j | 0 <= j < |t.columns| && (forall e :: 0 <= e < |config| ==> config[e].0 != t.columns[j].name)
            ensures r.0.value.columns[j] == t.columns[j]
          {
            assert forall e :: 0 <= e < |init| ==> init[e] == config[e];
            assert u.columns[j].name == t.columns[j].name;
          }
        }
      }
    }
  }

  /** The generator called once per value, the draws numbered from `start`. */
  method DrawFrom(fake: Faker, g: Generator, values: seq<Cell>, start: nat) returns (mapping: map<Cell, string>)
    ensures mapping == PseudonymMap(fake, g, values, start)
  {
    mapping := map[];
    var draws := start;
    var i := 0;
    while i < |values|
      invariant 0 <= i <= |values|
      invariant mapping == PseudonymMap(fake, g, values[..i], start)
      invariant draws == start + i
    {
      assert values[..i + 1][..i] == values[..i];
      mapping := mapping[values[i] := Draw(fake, g, draws)];
      draws := draws + 1;
      i := i + 1;
    }
    assert values[..i] == values;
  }

  // ---------------------------------------------------------- the object

  class DataAnonymizer {
    const env: Env
    const strictMode: bool
    var tokenMap: map<string, string>
    var tokenCounter: nat
    var fakeDraws: nat
    var noiseDraws: nat
    /** The tokenised texts in the order their tokens were issued. */
    ghost var issued: seq<string>

    ghost predicate Valid()
      reads this
    {
      Numbered(TokenState(tokenMap, tokenCounter), issued)
    }

    function State(): AnonState
      reads this
    {
      AnonState(TokenState(tokenMap, tokenCounter), fakeDraws, noiseDraws)
    }

    constructor (env: Env, strictMode: bool)
      ensures this.env == env && this.strictMode == strictMode
      ensures tokenMap == map[] && tokenCounter == 0 && fakeDraws == 0 && noiseDraws == 0
      ensures Valid()
    {
      this.env := env;
      this.strictMode := strictMode;
      tokenMap := map[];
      tokenCounter := 0;
      fakeDraws := 0;
      noiseDraws := 0;
      issued := [];
    }

    /**
     * `DataAnonymizer(salt, strict_mode)`: fails in strict mode when the
     * settings draw a salt warning; otherwise an anonymiser with an empty vault
     * hashing with the given salt, or the settings' salt when none is given.
     */
    static method Create(settings: AnonymizationSettings, salt: Option<string>, strictMode: bool,
                         digest: Digest, fake: Faker, cut: Cutter, noise: NoiseSource)
      returns (r: Result<DataAnonymizer, AnonError>)
      ensures r.Err? <==> strictMode && GetSaltWarning(settings) != ""
      ensures r.Err? ==> r.error == InsecureSalt(StrictSaltMessage(GetSaltWarning(settings)))
      ensures r.Ok? ==> (fresh(r.value) && r.value.Valid()
        && r.value.env == Env(EffectiveSalt(salt, settings), digest, fake, cut, noise)
        && r.value.strictMode == strictMode
        && r.value.State() == AnonState(TokenState(map[], 0), 0, 0))
    {
      var a := new DataAnonymizer(Env(EffectiveSalt(salt, settings), digest, fake, cut, noise), strictMode);
      var problem := ValidateSalt(settings, strictMode);
      if problem.Some? {
        return Err(problem.value);
      }
      return Ok(a);
    }

    /** `_tokenize_column`: the vault grows by the texts not seen before, one number each. */
    method TokenizeColumn(prefix: string, cells: seq<Cell>) returns (out: seq<Cell>)
      requires Valid()
      modifies this
      ensures Valid()
      ensures (out, TokenState(tokenMap, tokenCounter)) == TokenizeCells(old(TokenState(tokenMap, tokenCounter)), prefix, cells)
      ensures fakeDraws == old(fakeDraws) && noiseDraws == old(noiseDraws)
    {
      ghost var ts0 := TokenState(tokenMap, tokenCounter);
      var tokens, counter := tokenMap, tokenCounter;
      ghost var order := issued;
      out := [];
      var i := 0;
      while i < |cells|
        invariant 0 <= i <= |cells|
        invariant (out, TokenState(tokens, counter)) == TokenizeCells(ts0, prefix, cells[..i])
        invariant order == IssuedAfter(ts0, prefix, cells[..i], old(issued))
        invariant Numbered(TokenState(tokens, counter), order)
        invariant fakeDraws == old(fakeDraws) && noiseDraws == old(noiseDraws)
      {
        assert cells[..i + 1][..i] == cells[..i];
        var c := cells[i];
        TokenizeCellNumbered(TokenState(tokens, counter), prefix, c, order);
        if c == Null {
          out := out + [Null];
        } else {
          var key := PyStr(c);
          if key !in tokens {
            counter := counter + 1;
            tokens := tokens[key := prefix + Pad8(counter)];
            order := order + [key];
          }
          out := out + [Text(tokens[key])];
        }
        i := i + 1;
      }
      assert cells[..i] == cells;
      tokenMap, tokenCounter, issued := tokens, counter, order;
    }

    /** One generator call per value, in order: the mapping `{val: generator() for val in values}`. */
    method DrawPseudonyms(g: Generator, values: seq<Cell>) returns (mapping: map<Cell, string>)
      modifies this
      ensures mapping == PseudonymMap(env.fake, g, values, old(fakeDraws))
      ensures fakeDraws == old(fakeDraws) + |values|
      ensures tokenMap == old(tokenMap) && tokenCounter == old(tokenCounter) && issued == old(issued)
      ensures noiseDraws == old(noiseDraws)
    {
      mapping := DrawFrom(env.fake, g, values, fakeDraws);
      fakeDraws := fakeDraws + |values|;
    }

    /** `_pseudonymize_column`: one generator draw per distinct present value, in order of appearance. */
    method PseudonymizeColumn(piiType: string, cells: seq<Cell>) returns (out: seq<Cell>)
      modifies this
      ensures (out, fakeDraws) == PseudonymizeCells(env.fake, GeneratorFor(piiType), cells, old(fakeDraws))
      ensures tokenMap == old(tokenMap) && tokenCounter == old(tokenCounter) && issued == old(issued)
      ensures noiseDraws == old(noiseDraws)
    {
      var mapping := DrawPseudonyms(GeneratorFor(piiType), Unique(cells));
      out := MapThrough(mapping, cells);
    }

    /** `_add_noise_column`: a numeric column takes one draw of the noise source; any other is returned unchanged. */
    method AddNoise(level: real, kind: Kind, cells: seq<Cell>) returns (newKind: Kind, out: seq<Cell>)
      modifies this
      ensures Rewrite(newKind, out, State()) == RewriteColumn(env, old(State()), NoiseWith(level), kind, cells)
      ensures issued == old(issued)
    {
      if kind != Numeric {
        return kind, cells;
      }
      out := env.noise(cells, level, noiseDraws);
      noiseDraws := noiseDraws + 1;
      newKind := InferKind(out, Numeric);
    }

    /** One technique on one column, through the object's state. */
    method RunTechnique(tech: Technique, kind: Kind, cells: seq<Cell>) returns (newKind: Kind, out: seq<Cell>)
      requires Valid()
      modifies this
      ensures Valid()
      ensures Rewrite(newKind, out, State()) == RewriteColumn(env, old(State()), tech, kind, cells)
    {
      match tech {
        case MaskWith(o) =>
          out := MaskColumn(o, kind, cells);
          newKind := InferKind(out, kind);
        case HashWith(a, t) =>
          out := HashColumn(env, a, t, cells);
          newKind := InferKind(out, kind);
        case PseudonymizeAs(p) =>
          out := PseudonymizeColumn(p, cells);
          newKind := InferKind(out, kind);
        case GeneralizeWith(o) =>
          var r := GeneralizeColumn(env.cut, o, kind, cells);
          newKind, out := r.0, r.1;
        case SuppressWith(rep) =>
          out := SuppressColumn(rep, |cells|);
          newKind := InferKind(out, Object);
        case TokenizeWith(p) =>
          out := TokenizeColumn(p, cells);
          newKind := InferKind(out, kind);
        case NoiseWith(level) =>
          newKind, out := AddNoise(level, kind, cells);
      }
    }

    /** `anonymize_column`. */
    method AnonymizeColumn(t: Table, column: string, m: MethodArg, kw: Kwargs) returns (r: Result<Table, AnonError>)
      requires Valid()
      modifies this
      ensures Valid()
      ensures (r, State()) == AnonymizeColumnSpec(env, old(State()), t, column, m, kw)
    {
      var clash := set k | k in kw && k in CallParameters;
      if clash != {} {
        return Err(UnexpectedKeywords(clash));
      }
      var found := IndexOf(t.columns, column);
      if found.None? {
        return Err(ColumnNotFound(column));
      }
      var i := found.value;
      if m.Other? {
        return Err(UnsupportedMethod(m.name));
      }
      var bound := Bind(m.m, kw);
      if bound.Err? {
        return Err(bound.error);
      }
      var kind, cells := RunTechnique(bound.value, t.columns[i].kind, t.columns[i].cells);
      r := Ok(ReplaceColumn(t, i, kind, cells));
    }

    /** One entry of `anonymize_dataframe`'s configuration. */
    method ConfigEntry(t: Table, column: string, params: Kwargs) returns (r: Result<Table, AnonError>)
      requires Valid()
      modifies this
      ensures Valid()
      ensures (r, State()) == ConfigStep(env, old(State()), t, column, params)
    {
      if IndexOf(t.columns, column).None? {
        return Ok(t);
      }
      var name := if "method" in params then params["method"] else AStr("mask");
      if !name.AStr? || ParseMethod(name.s).None? {
        return Err(InvalidMethodValue);
      }
      r := AnonymizeColumn(t, column, Member(ParseMethod(name.s).value), params - {"method"});
    }

    /** `anonymize_dataframe`. */
    method AnonymizeDataFrame(t: Table, config: seq<(string, Kwargs)>) returns (r: Result<Table, AnonError>)
      requires Valid()
      modifies this
      ensures Valid()
      ensures (r, State()) == AnonymizeDataFrameSpec(env, old(State()), t, config)
    {
      ghost var st0 := State();
      r := Ok(t);
      var i := 0;
      while i < |config|
        invariant 0 <= i <= |config|
        invariant Valid()
        invariant r.Ok? && (r, State()) == AnonymizeDataFrameSpec(env, st0, t, config[..i])
      {
        assert config[..i + 1][..i] == config[..i];
        r := ConfigEntry(r.value, config[i].0, config[i].1);
        if r.Err? {
          DataFrameErrorSticks(env, st0, t, config, i + 1);
          return;
        }
        i := i + 1;
      }
      assert config[..i] == config;
    }

    /** `get_token_mapping`: a copy of the vault's mapping. */
    method GetTokenMapping() returns (mapping: map<string, string>)
      ensures mapping == tokenMap
    {
      mapping := tokenMap;
    }

    /** `clear_token_mapping`: an empty vault, numbering restarts at 1. */
    method ClearTokenMapping()
      modifies this
      ensures tokenMap == map[] && tokenCounter == 0 && Valid()
      ensures fakeDraws == old(fakeDraws) && noiseDraws == old(noiseDraws)
    {
      tokenMap := map[];
      tokenCounter := 0;
      issued := [];
    }
  }
}
