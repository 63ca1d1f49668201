/**
 * The stateless anonymisation techniques of the data anonymiser: masking,
 * salted hashing, generalisation and suppression of a column, and the three
 * fixed-format maskers for CPF, e-mail and telephone numbers. Each column
 * technique works cell by cell (`series.apply`) or on the whole column; the
 * stateful ones (tokenisation, pseudonymisation, noise) live with the
 * anonymiser object.
 */
module AnonymizerMethods {
  import opened Wrappers
  import opened Strings
  import opened Frame

  /** The seven techniques; each is selected by its lower-case value. */
  datatype AnonymizationMethod = Mask | Hash | Pseudonymize | Generalize | Suppress | Tokenize | Noise

  function MethodValue(m: AnonymizationMethod): string
  {
    match m
    case Mask => "mask"
    case Hash => "hash"
    case Pseudonymize => "pseudonymize"
    case Generalize => "generalize"
    case Suppress => "suppress"
    case Tokenize => "tokenize"
    case Noise => "noise"
  }

  /** `AnonymizationMethod(s)`: the member whose value is `s`, if any. */
  function ParseMethod(s: string): (r: Option<AnonymizationMethod>)
    ensures r.Some? ==> MethodValue(r.value) == s
    ensures r.None? ==> forall m :: MethodValue(m) != s
  {
    if s == "mask" then Some(Mask)
    else if s == "hash" then Some(Hash)
    else if s == "pseudonymize" then Some(Pseudonymize)
    else if s == "generalize" then Some(Generalize)
    else if s == "suppress" then Some(Suppress)
    else if s == "tokenize" then Some(Tokenize)
    else if s == "noise" then Some(Noise)
    else None
  }

  /** Every member is found again from its value. */
  lemma ParseMethodValue(m: AnonymizationMethod)
    ensures ParseMethod(MethodValue(m)) == Some(m)
  {
  }

  /** `series.apply(f)`: `f` on every cell, in order. */
  function Apply(f: Cell -> Cell, cells: seq<Cell>): (r: seq<Cell>)
    ensures |r| == |cells|
    ensures forall i :: 0 <= i < |cells| ==> r[i] == f(cells[i])
  {
    seq(|cells|, i requires 0 <= i < |cells| => f(cells[i]))
  }

  // ------------------------------------------------------------------ mask

  /** The keyword arguments of the masking technique. */
  datatype MaskOptions = MaskOptions(maskChar: string, visibleStart: int, visibleEnd: int, pattern: Option<string>)

  const DefaultMaskOptions: MaskOptions := MaskOptions("*", 0, 0, None)

  /** Whether a non-empty fixed pattern replaces every value (`if pattern:`). */
  predicate HasPattern(o: MaskOptions) { o.pattern.Some? && o.pattern.value != "" }

  /** The masked form of the text of one value. */
  function MaskText(o: MaskOptions, v: string): string
  {
    if HasPattern(o) then o.pattern.value
    else if o.visibleStart == 0 && o.visibleEnd == 0 then Repeat(o.maskChar, |v|)
    else
      var start := if o.visibleStart > 0 then PyHead(v, o.visibleStart) else "";
      var end := if o.visibleEnd > 0 then PyLast(v, o.visibleEnd as nat) else "";
      var middle := |v| - o.visibleStart - o.visibleEnd;
      start + Repeat(o.maskChar, if middle > 0 then middle else 0) + end
  }

  /** Missing values stay missing; any other value is masked through its `str`. */
  function MaskCell(o: MaskOptions, c: Cell): (r: Cell)
    ensures r == Null <==> c == Null
  {
    if c == Null then Null else Text(MaskText(o, PyStr(c)))
  }

  /** With the defaults every character becomes '*' and the length is kept. */
  lemma MaskDefaultHidesAll(v: string)
    ensures |MaskText(DefaultMaskOptions, v)| == |v|
    ensures forall i :: 0 <= i < |v| ==> MaskText(DefaultMaskOptions, v)[i] == '*'
  {
    forall i | 0 <= i < |v| ensures MaskText(DefaultMaskOptions, v)[i] == '*' {
      RepeatChar('*', |v|, i);
    }
  }

  /** A non-empty pattern is returned verbatim for every present value. */
  lemma MaskPatternVerbatim(o: MaskOptions, c: Cell)
    requires HasPattern(o) && c != Null
    ensures MaskCell(o, c) == Text(o.pattern.value)
  {
  }

  /**
   * When the visible parts fit in the value and the mask is one character, the
   * first `visibleStart` and last `visibleEnd` characters are kept, everything
   * between them is the mask character, and the length is unchanged.
   */
  lemma MaskKeepsEnds(o: MaskOptions, v: string)
    requires !HasPattern(o) && |o.maskChar| == 1
    requires 0 <= o.visibleStart && 0 <= o.visibleEnd
    requires 0 < o.visibleStart + o.visibleEnd <= |v|
    ensures |MaskText(o, v)| == |v|
    ensures MaskText(o, v)[..o.visibleStart] == v[..o.visibleStart]
    ensures MaskText(o, v)[|v| - o.visibleEnd..] == v[|v| - o.visibleEnd..]
    ensures forall i :: o.visibleStart <= i < |v| - o.visibleEnd ==> MaskText(o, v)[i] == o.maskChar[0]
  {
    var vs, ve := o.visibleStart, o.visibleEnd;
    var start := if vs > 0 then PyHead(v, vs) else "";
    var end := if ve > 0 then PyLast(v, ve as nat) else "";
    assert start == v[..vs];
    assert end == v[|v| - ve..];
    var mid := Repeat(o.maskChar, |v| - vs - ve);
    var r := start + mid + end;
    assert MaskText(o, v) == r;
    assert o.maskChar == [o.maskChar[0]];
    assert r[..vs] == start;
    assert r[|v| - ve..] == end;
    forall i | vs <= i < |v| - ve ensures r[i] == o.maskChar[0] {
      assert r[i] == mid[i - vs];
      RepeatChar(o.maskChar[0], |v| - vs - ve, i - vs);
    }
  }

  /** When the visible parts overlap, characters are shown twice: "abc" with 2 + 2 visible is "abbc". */
  lemma MaskOverlapRepeats()
    ensures MaskText(MaskOptions("*", 2, 2, None), "abc") == "abbc"
  {
    assert PyHead("abc", 2) == "ab";
    assert PyLast("abc", 2) == "bc";
  }

  // ------------------------------------------------------------------ hash

  datatype HashAlgorithm = Sha256 | Sha512 | Md5

  /** The length of the hexadecimal digest of each algorithm. */
  function DigestLength(a: HashAlgorithm): nat
  {
    match a
    case Sha256 => 64
    case Sha512 => 128
    case Md5 => 32
  }

  /** Any name other than "sha512" and "md5" selects SHA-256. */
  function ResolveAlgorithm(name: string): (a: HashAlgorithm)
    ensures a == Sha512 <==> name == "sha512"
    ensures a == Md5 <==> name == "md5"
  {
    if name == "sha256" then Sha256
    else if name == "sha512" then Sha512
    else if name == "md5" then Md5
    else Sha256
  }

  predicate IsHex(s: string) { forall i :: 0 <= i < |s| ==> '0' <= s[i] <= '9' || 'a' <= s[i] <= 'f' }

  /**
   * `hashlib.<algorithm>(text.encode()).hexdigest()`: a deterministic function
   * returning a lower-case hexadecimal string of the algorithm's digest length.
   */
  type Digest = f: (HashAlgorithm, string) -> string
    | forall a, s :: |f(a, s)| == DigestLength(a) && IsHex(f(a, s))
    witness (a: HashAlgorithm, s: string) => seq(DigestLength(a), i => '0')

  /** The hash of the text of one value: salt prepended, digest, then `[:truncate]` if truncate is non-zero. */
  function HashText(d: Digest, salt: string, algorithm: string, truncate: Option<int>, v: string): string
  {
    var hashed := d(ResolveAlgorithm(algorithm), salt + v);
    if truncate.Some? && truncate.value != 0 then PyHead(hashed, truncate.value) else hashed
  }

  function HashCell(d: Digest, salt: string, algorithm: string, truncate: Option<int>, c: Cell): (r: Cell)
    ensures r == Null <==> c == Null
  {
    if c == Null then Null else Text(HashText(d, salt, algorithm, truncate, PyStr(c)))
  }

  /**
   * A hash is always lower-case hex and a prefix of the full salted digest; it
   * has the full digest length unless truncated, and exactly `n` characters when
   * truncated to `0 < n <= ` that length.
   */
  lemma HashShape(d: Digest, salt: string, algorithm: string, truncate: Option<int>, v: string)
    ensures var h := HashText(d, salt, algorithm, truncate, v);
      var full := d(ResolveAlgorithm(algorithm), salt + v);
      && IsHex(h) && |h| <= |full| && h == full[..|h|]
      && (truncate.None? ==> |h| == DigestLength(ResolveAlgorithm(algorithm)))
      && (truncate.Some? && 0 < truncate.value <= |full| ==> |h| == truncate.value)
  {
  }

  /** An unknown algorithm name hashes exactly as "sha256"; untruncated, that is 64 characters. */
  lemma HashUnknownIsSha256(d: Digest, salt: string, algorithm: string, truncate: Option<int>, v: string)
    requires algorithm != "sha512" && algorithm != "md5"
    ensures HashText(d, salt, algorithm, truncate, v) == HashText(d, salt, "sha256", truncate, v)
    ensures truncate.None? ==> |HashText(d, salt, algorithm, truncate, v)| == 64
  {
  }

  /**
   * Untruncated, the salt and the text decide the hash: for one salt and two
   * texts, or one text and two salts, the hashes agree exactly when the inputs
   * do, as long as the digest does not collide on the two salted texts.
   */
  lemma HashDistinct(d: Digest, salt1: string, salt2: string, algorithm: string, truncate: Option<int>, v: string, w: string)
    requires truncate.None? || truncate.value == 0
    requires salt1 == salt2 || v == w
    requires forall a :: d(a, salt1 + v) == d(a, salt2 + w) ==> salt1 + v == salt2 + w
    ensures HashText(d, salt1, algorithm, truncate, v) == HashText(d, salt2, algorithm, truncate, w)
        <==> salt1 == salt2 && v == w
  {
    if salt1 == salt2 {
      assert v == (salt1 + v)[|salt1|..];
      assert w == (salt2 + w)[|salt2|..];
    } else {
      assert salt1 == (salt1 + v)[..|salt1|];
      assert salt2 == (salt2 + w)[..|salt2|];
    }
  }

  /** Equal values hash equally within one column. */
  lemma HashConsistent(d: Digest, salt: string, algorithm: string, truncate: Option<int>, cells: seq<Cell>)
    ensures var r := Apply(c => HashCell(d, salt, algorithm, truncate, c), cells);
      forall i, j :: 0 <= i < |cells| && 0 <= j < |cells| && cells[i] == cells[j] ==> r[i] == r[j]
  {
  }

  // ------------------------------------------------------------ generalize

  /**
   * `pd.cut(series, bins=bins, labels=labels)`: binning of a numeric column into
   * intervals; kept abstract, but it returns one cell per input and a missing
   * value stays missing.
   */
  type Cutter = f: (seq<Cell>, int, Option<seq<string>>) -> seq<Cell>
    | forall cells, b, l :: |f(cells, b, l)| == |cells|
        && forall i :: 0 <= i < |cells| && cells[i] == Null ==> f(cells, b, l)[i] == Null
    witness (cells: seq<Cell>, b: int, l: Option<seq<string>>) => cells

  /** The keyword arguments of the generalisation technique. */
  datatype GeneralizeOptions = GeneralizeOptions(generalizationType: string, bins: int, labels: Option<seq<string>>)

  const DefaultGeneralizeOptions: GeneralizeOptions := GeneralizeOptions("range", 5, None)

  /** How often `v` occurs among `cells`. */
  function Occurrences(cells: seq<Cell>, v: Cell): nat
  {
    if cells == [] then 0
    else Occurrences(cells[..|cells| - 1], v) + (if cells[|cells| - 1] == v then 1 else 0)
  }

  /** `series.dropna().unique()`: the distinct present values in order of first appearance. */
  function Unique(cells: seq<Cell>): (r: seq<Cell>)
    ensures forall c :: c in r <==> c in cells && c != Null
    ensures forall i, j :: 0 <= i < j < |r| ==> r[i] != r[j]
  {
    if cells == [] then []
    else
      var u := Unique(cells[..|cells| - 1]);
      var c := cells[|cells| - 1];
      assert cells == cells[..|cells| - 1] + [c];
      if c == Null || c in u then u else u + [c]
  }

  predicate SortedByCount(cells: seq<Cell>, s: seq<Cell>)
  {
    forall i, j :: 0 <= i < j < |s| ==> Occurrences(cells, s[i]) >= Occurrences(cells, s[j])
  }

  /** Inserts `v` after every element counted at least as often (so equal counts keep their order). */
  function InsertByCount(cells: seq<Cell>, v: Cell, s: seq<Cell>): (r: seq<Cell>)
    ensures multiset(r) == multiset(s) + multiset{v}
  {
    if s == [] then [v]
    else if Occurrences(cells, s[0]) >= Occurrences(cells, v) then
      assert s == [s[0]] + s[1..];
      [s[0]] + InsertByCount(cells, v, s[1..])
    else [v] + s
  }

  /** Prepending an element counted at least as often as every other keeps the order. */
  lemma ConsSorted(cells: seq<Cell>, x: Cell, rest: seq<Cell>)
    requires SortedByCount(cells, rest)
    requires forall j :: 0 <= j < |rest| ==> Occurrences(cells, x) >= Occurrences(cells, rest[j])
    ensures SortedByCount(cells, [x] + rest)
  {
    var r := [x] + rest;
    forall i, j | 0 <= i < j < |r| ensures Occurrences(cells, r[i]) >= Occurrences(cells, r[j]) {
      assert r[j] == rest[j - 1];
      if i > 0 { assert r[i] == rest[i - 1]; }
    }
  }

  /** Inserting keeps every element below a bound that `v` and `s` already respect. */
  lemma InsertBounded(cells: seq<Cell>, v: Cell, s: seq<Cell>, bound: nat)
    requires Occurrences(cells, v) <= bound
    requires forall j :: 0 <= j < |s| ==> Occurrences(cells, s[j]) <= bound
    ensures forall j :: 0 <= j < |InsertByCount(cells, v, s)| ==> Occurrences(cells, InsertByCount(cells, v, s)[j]) <= bound
  {
    var r := InsertByCount(cells, v, s);
    forall j | 0 <= j < |r| ensures Occurrences(cells, r[j]) <= bound {
      assert r[j] in multiset(r);
      if r[j] != v {
        assert r[j] in multiset(s);
      }
    }
  }

  lemma {:induction false} InsertSorted(cells: seq<Cell>, v: Cell, s: seq<Cell>)
    requires SortedByCount(cells, s)
    ensures SortedByCount(cells, InsertByCount(cells, v, s))
  {
    if s != [] {
      var top := Occurrences(cells, s[0]);
      if top >= Occurrences(cells, v) {
        var tail := s[1..];
        assert SortedByCount(cells, tail) by {
          forall i, j | 0 <= i < j < |tail| ensures Occurrences(cells, tail[i]) >= Occurrences(cells, tail[j]) {
            assert tail[i] == s[i + 1] && tail[j] == s[j + 1];
          }
        }
        InsertSorted(cells, v, tail);
        assert forall j :: 0 <= j < |tail| ==> Occurrences(cells, tail[j]) <= top by {
          forall j | 0 <= j < |tail| ensures Occurrences(cells, tail[j]) <= top { assert tail[j] == s[j + 1]; }
        }
        InsertBounded(cells, v, tail, top);
        ConsSorted(cells, s[0], InsertByCount(cells, v, tail));
      } else {
        ConsSorted(cells, v, s);
      }
    }
  }


  /** A stable sort of `vs` by descending count, as `value_counts()` orders its index. */
  function SortByCount(cells: seq<Cell>, vs: seq<Cell>): (r: seq<Cell>)
    ensures multiset(r) == multiset(vs)
  {
    if vs == [] then []
    else
      assert vs == vs[..|vs| - 1] + [vs[|vs| - 1]];
      InsertByCount(cells, vs[|vs| - 1], SortByCount(cells, vs[..|vs| - 1]))
  }

  lemma {:induction false} SortByCountSorted(cells: seq<Cell>, vs: seq<Cell>)
    ensures SortedByCount(cells, SortByCount(cells, vs))
  {
    if vs != [] {
      SortByCountSorted(cells, vs[..|vs| - 1]);
      InsertSorted(cells, vs[|vs| - 1], SortByCount(cells, vs[..|vs| - 1]));
    }
  }

  /** `series.value_counts().head(k).index`: the `k` most frequent present values. */
  function TopValues(cells: seq<Cell>, k: int): seq<Cell>
  {
    PyHead(SortByCount(cells, Unique(cells)), k)
  }

  /** The grouping branch: a value among the top ones stays, anything else (missing values included) becomes "Outros". */
  function GroupByFrequency(cells: seq<Cell>, bins: int): seq<Cell>
  {
    var top := TopValues(cells, bins - 1);
    Apply(x => if x in top then x else Text("Outros"), cells)
  }

  /**
   * The kept values are present values of the column, at most `bins - 1` of
   * them (all distinct values when there are fewer), and none is rarer than a
   * value that was replaced by "Outros".
   */
  lemma TopValuesAreMostFrequent(cells: seq<Cell>, bins: int)
    requires bins >= 1
    ensures var top := TopValues(cells, bins - 1);
      && (forall v :: v in top ==> v in cells && v != Null)
      && |top| == (if |Unique(cells)| < bins - 1 then |Unique(cells)| else bins - 1)
      && forall v, w :: v in top && w in cells && w != Null && w !in top ==> Occurrences(cells, v) >= Occurrences(cells, w)
  {
    var u := Unique(cells);
    var ranked := SortByCount(cells, u);
    var top := TopValues(cells, bins - 1);
    SortByCountSorted(cells, u);
    assert |ranked| == |u| by {
      assert |multiset(ranked)| == |multiset(u)|;
    }
    forall v | v in top ensures v in cells && v != Null {
      assert v in multiset(u);
    }
    forall w | w in cells && w != Null ensures w in ranked {
      assert w in multiset(u);
    }
    SortedPrefixDominates(cells, ranked, |top|);
  }

  /** In a list sorted by descending count, a prefix is counted at least as often as anything after it. */
  lemma SortedPrefixDominates(cells: seq<Cell>, ranked: seq<Cell>, k: nat)
    requires SortedByCount(cells, ranked) && k <= |ranked|
    ensures forall v, w :: v in ranked[..k] && w in ranked && w !in ranked[..k] ==> Occurrences(cells, v) >= Occurrences(cells, w)
  {
    forall v, w | v in ranked[..k] && w in ranked && w !in ranked[..k]
      ensures Occurrences(cells, v) >= Occurrences(cells, w)
    {
      var j :| 0 <= j < |ranked| && ranked[j] == w;
      var i :| 0 <= i < k && ranked[..k][i] == v;
    }
  }

  /** Values outside the top ones, and missing values, are reported as "Outros"; the top ones are kept. */
  lemma GroupByFrequencyCells(cells: seq<Cell>, bins: int, i: int)
    requires 0 <= i < |cells|
    ensures var top := TopValues(cells, bins - 1);
      GroupByFrequency(cells, bins)[i] == if cells[i] in top then cells[i] else Text("Outros")
    ensures cells[i] == Null ==> GroupByFrequency(cells, bins)[i] == Text("Outros")
  {
    var u := Unique(cells);
    var ranked := SortByCount(cells, u);
    assert Null !in u;
    assert Null !in multiset(ranked);
    assert TopValues(cells, bins - 1) == ranked[..SliceEnd(|ranked|, bins - 1)];
  }

  /** `series.dt.year` of one cell. */
  function YearOf(c: Cell): Cell
  {
    match c
    case Date(y, _, _) => Int(y)
    case _ => Null
  }

  /** `series.astype(str).str[:3] + "***"` of one cell; missing values become their marker text. */
  function TruncateCell(kind: Kind, c: Cell): (r: Cell)
    ensures r.Text? && 3 <= |r.text| <= 6 && r.text[|r.text| - 3..] == "***"
    ensures r.text[..|r.text| - 3] == PyHead(AsTypeStr(c, kind), 3)
  {
    var t := PyHead(AsTypeStr(c, kind), 3) + "***";
    assert t[|t| - 3..] == "***";
    Text(t)
  }

  /**
   * The generalised column and its dtype: `pd.cut` bins for a numeric column
   * asked for "range", the year of a datetime column asked for "year", the
   * three-character truncation for "truncate", and grouping by frequency for
   * everything else.
   */
  function GeneralizeColumn(cut: Cutter, o: GeneralizeOptions, kind: Kind, cells: seq<Cell>): (r: (Kind, seq<Cell>))
    ensures |r.1| == |cells|
  {
    if o.generalizationType == "range" && kind == Numeric then (Category, cut(cells, o.bins, o.labels))
    else if o.generalizationType == "year" && kind == Datetime then (Numeric, Apply(YearOf, cells))
    else if o.generalizationType == "truncate" then (Object, Apply(c => TruncateCell(kind, c), cells))
    else
      var out := GroupByFrequency(cells, o.bins);
      (InferKind(out, kind), out)
  }

  /** A "range" request on a non-numeric column falls through to grouping by frequency. */
  lemma RangeNeedsNumeric(cut: Cutter, o: GeneralizeOptions, kind: Kind, cells: seq<Cell>)
    requires o.generalizationType == "range" && kind != Numeric
    ensures GeneralizeColumn(cut, o, kind, cells).1 == GroupByFrequency(cells, o.bins)
  {
  }

  /** Truncation keeps no missing value: every cell becomes text ending in "***". */
  lemma TruncateFillsNulls(cut: Cutter, o: GeneralizeOptions, kind: Kind, cells: seq<Cell>)
    requires o.generalizationType == "truncate"
    ensures var r := GeneralizeColumn(cut, o, kind, cells);
      r.0 == Object && forall i :: 0 <= i < |cells| ==> r.1[i].Text? && r.1[i].text[|r.1[i].text| - 3..] == "***"
  {
  }

  // -------------------------------------------------------------- suppress

  /** `pd.Series([replacement] * len(series))`. */
  function SuppressColumn(replacement: Cell, n: nat): (r: seq<Cell>)
    ensures |r| == n && forall i :: 0 <= i < n ==> r[i] == replacement
  {
    seq(n, _ => replacement)
  }

  // ------------------------------------------------------ specific maskers

  const HiddenCpf: string := "***.***.***-**"

  /** A CPF with its first three and last two digits visible, or the fully hidden form. */
  function MaskCpf(cpf: string): string
  {
    var d := OnlyDigits(cpf);
    if |d| != 11 then HiddenCpf else d[..3] + ".***.***-" + d[9..]
  }

  /**
   * The result is always 14 characters long. A CPF with 11 digits shows exactly
   * its first three and last two digits; any other input gives the fully hidden
   * form.
   */
  lemma MaskCpfReveals(cpf: string)
    ensures |MaskCpf(cpf)| == 14
    ensures var d := OnlyDigits(cpf);
      |d| == 11 ==> OnlyDigits(MaskCpf(cpf)) == d[..3] + d[9..]
    ensures |OnlyDigits(cpf)| != 11 ==> MaskCpf(cpf) == HiddenCpf
  {
    var d := OnlyDigits(cpf);
    if |d| == 11 {
      DigitsAround(d[..3], ".***.***-", d[9..]);
    }
  }

  /** CPFs that differ only in the six middle digits mask identically. */
  lemma MaskCpfHidesMiddle(a: string, b: string)
    requires |OnlyDigits(a)| == 11 && |OnlyDigits(b)| == 11
    requires OnlyDigits(a)[..3] == OnlyDigits(b)[..3] && OnlyDigits(a)[9..] == OnlyDigits(b)[9..]
    ensures MaskCpf(a) == MaskCpf(b)
  {
  }

  /** Digits appended after a separator are kept after the digits before it. */
  lemma DigitsJoin(x: string, c: char, g: string)
    requires !IsDigit(c) && AllDigits(g)
    ensures OnlyDigits(x + [c] + g) == OnlyDigits(x) + g
  {
    var dx := OnlyDigits(x);
    var xc := x + [c];
    assert OnlyDigits(xc) == dx by {
      OnlyDigitsAppend(x, [c]);
      OnlyDigitsOfNone([c]);
      assert dx + [] == dx;
    }
    assert OnlyDigits(g) == g by { OnlyDigitsOfDigits(g); }
    OnlyDigitsAppend(xc, g);
  }

  /** A CPF written as "ddd.ddd.ddd-dd" keeps its first group and its check digits. */
  lemma MaskFormattedCpf(g1: string, g2: string, g3: string, dv: string)
    requires AllDigits(g1) && AllDigits(g2) && AllDigits(g3) && AllDigits(dv)
    requires |g1| == 3 && |g2| == 3 && |g3| == 3 && |dv| == 2
    ensures MaskCpf(g1 + "." + g2 + "." + g3 + "-" + dv) == g1 + ".***.***-" + dv
  {
    var a1 := g1 + "." + g2;
    assert OnlyDigits(a1) == g1 + g2 by { DigitsJoin(g1, '.', g2); OnlyDigitsOfDigits(g1); }
    var a2 := a1 + "." + g3;
    assert OnlyDigits(a2) == g1 + g2 + g3 by { DigitsJoin(a1, '.', g3); }
    var d := g1 + g2 + g3 + dv;
    assert OnlyDigits(a2 + "-" + dv) == d by { DigitsJoin(a2, '-', dv); }
    assert g1 + "." + g2 + "." + g3 + "-" + dv == a2 + "-" + dv;
    assert d[..3] == g1 && d[9..] == dv;
  }

  lemma MaskCpfInvalidExample()
    ensures MaskCpf("invalid") == HiddenCpf
  {
    OnlyDigitsOfNone("invalid");
  }


  const HiddenEmail: string := "***@***.***"

  /** The user part reduced to its first character plus one '*' per further character. */
  function MaskUser(user: string): (r: string)
    ensures |r| == if |user| > 1 then |user| else 1
  {
    if |user| > 1 then [user[0]] + Repeat("*", |user| - 1) else "*"
  }

  /** An e-mail address with the user hidden but its first character, and the domain kept. */
  function MaskEmail(email: string): string
  {
    if !HasChar(email, '@') then HiddenEmail
    else
      var user := BeforeChar(email, '@');
      var domain := BeforeChar(AfterChar(email, '@'), '@');
      MaskUser(user) + "@" + domain
  }

  /**
   * The masked address has exactly one '@'. For an address with '@', what
   * follows it is the text between the first and any second '@', and what
   * precedes it is the user part's first character (if it has more than one)
   * followed by stars.
   */
  lemma MaskEmailShape(email: string)
    ensures CountChar(MaskEmail(email), '@') == 1
    ensures HasChar(email, '@') ==>
      var user := BeforeChar(email, '@');
      var m := MaskUser(user);
      && MaskEmail(email)[..|m|] == m
      && MaskEmail(email)[|m|..] == "@" + BeforeChar(AfterChar(email, '@'), '@')
      && (|user| > 1 ==> MaskEmail(email)[0] == email[0])
      && forall i :: 1 <= i < |m| ==> MaskEmail(email)[i] == '*'
  {
    if HasChar(email, '@') {
      MaskedAddressShape(email);
    } else {
      assert MaskEmail(email) == "***" + "@" + "***.***";
      OneAt("***", "***.***");
    }
  }

  /** The masked user part keeps the first character of a longer user part, then stars; it adds no '@'. */
  lemma MaskUserShape(user: string)
    requires forall i :: 0 <= i < |user| ==> user[i] != '@'
    ensures |user| > 1 ==> MaskUser(user)[0] == user[0]
    ensures forall i :: 1 <= i < |MaskUser(user)| ==> MaskUser(user)[i] == '*'
    ensures forall i :: 0 <= i < |MaskUser(user)| ==> MaskUser(user)[i] != '@'
  {
    var m := MaskUser(user);
    forall i | 1 <= i < |m| ensures m[i] == '*' { RepeatChar('*', |user| - 1, i - 1); }
  }

  lemma MaskedAddressShape(email: string)
    requires HasChar(email, '@')
    ensures var user := BeforeChar(email, '@');
      var m := MaskUser(user);
      && MaskEmail(email) == m + "@" + BeforeChar(AfterChar(email, '@'), '@')
      && CountChar(MaskEmail(email), '@') == 1
      && MaskEmail(email)[..|m|] == m
      && MaskEmail(email)[|m|..] == "@" + BeforeChar(AfterChar(email, '@'), '@')
      && (|user| > 1 ==> MaskEmail(email)[0] == email[0])
      && forall i :: 1 <= i < |m| ==> MaskEmail(email)[i] == '*'
  {
    var user := BeforeChar(email, '@');
    var domain := BeforeChar(AfterChar(email, '@'), '@');
    var m := MaskUser(user);
    var r := m + "@" + domain;
    assert r[..|m|] == m;
    assert r[|m|..] == "@" + domain;
    MaskUserShape(user);
    if |user| > 1 {
      BeforeCharHead(email, '@');
    }
    assert CountChar(r, '@') == 1 by { OneAt(m, domain); }
  }

  lemma OneAt(x: string, y: string)
    requires forall i :: 0 <= i < |x| ==> x[i] != '@'
    requires forall i :: 0 <= i < |y| ==> y[i] != '@'
    ensures CountChar(x + "@" + y, '@') == 1
  {
    CountCharAbsent(x, '@');
    CountCharAbsent(y, '@');
    CountCharAppend(x + "@", y, '@');
    CountCharAppend(x, "@", '@');
  }

  lemma BeforeCharHead(s: string, c: char)
    requires BeforeChar(s, c) != []
    ensures s != [] && BeforeChar(s, c)[0] == s[0]
  {
  }

  /** An address "user@domain" whose parts have no '@' masks to the user's first character, stars, and the domain. */
  lemma MaskPlainEmail(user: string, domain: string)
    requires |user| > 1
    requires forall i :: 0 <= i < |user| ==> user[i] != '@'
    requires forall i :: 0 <= i < |domain| ==> domain[i] != '@'
    ensures MaskEmail(user + "@" + domain) == [user[0]] + Repeat("*", |user| - 1) + "@" + domain
  {
    var e := user + "@" + domain;
    assert HasChar(e, '@') by { assert e[|user|] == '@'; }
    assert BeforeChar(e, '@') == user by { BeforeCharOf(user, '@', domain); }
    assert AfterChar(e, '@') == domain by { AfterCharOf(user, '@', domain); }
    assert BeforeChar(domain, '@') == domain by { BeforeCharNone(domain, '@'); }
  }

  lemma MaskEmailInvalidExample()
    ensures MaskEmail("invalid") == HiddenEmail
  {
  }


  const HiddenTelefone: string := "(**) *****-****"

  /** A telephone number reduced to its area code (DDD), or the fully hidden form. */
  function MaskTelefone(telefone: string): string
  {
    var d := OnlyDigits(telefone);
    if |d| < 10 then HiddenTelefone else "(" + d[..2] + ") *****-****"
  }

  /**
   * The result always has 15 characters. A number with at least ten digits shows
   * only its area code (its first two digits); a shorter one gives the fully
   * hidden form.
   */
  lemma MaskTelefoneReveals(telefone: string)
    ensures |MaskTelefone(telefone)| == 15
    ensures var d := OnlyDigits(telefone);
      |d| >= 10 ==> OnlyDigits(MaskTelefone(telefone)) == d[..2]
    ensures |OnlyDigits(telefone)| < 10 ==> MaskTelefone(telefone) == HiddenTelefone
  {
    var d := OnlyDigits(telefone);
    if |d| >= 10 {
      DigitsBetween("(", d[..2], ") *****-****");
    }
  }

  /** A number written "(dd) ddddd-dddd" keeps its area code. */
  lemma MaskFormattedTelefone(ddd: string, p1: string, p2: string)
    requires AllDigits(ddd) && AllDigits(p1) && AllDigits(p2)
    requires |ddd| == 2 && |p1| + |p2| >= 8
    ensures MaskTelefone("(" + ddd + ") " + p1 + "-" + p2) == "(" + ddd + ") *****-****"
  {
    var x, y := "(" + ddd + ") ", p1 + "-" + p2;
    assert "(" + ddd + ") " + p1 + "-" + p2 == x + y;
    DigitsBetween("(", ddd, ") ");
    DigitsAround(p1, "-", p2);
    OnlyDigitsAppend(x, y);
    assert (ddd + (p1 + p2))[..2] == ddd;
  }

  lemma MaskTelefoneInvalidExample()
    ensures MaskTelefone("123") == HiddenTelefone
  {
    OnlyDigitsOfDigits("123");
  }

}
