/**
 * The in-memory tables the compliance engine works on: an ordered list of
 * uniquely named columns, all of the same length, whose cells are null, text,
 * an integer or a timestamp (at midnight). Each column carries the dtype pandas
 * would report for it, because the scanner and several transforms branch on it.
 */
module Frame {
  import opened Wrappers
  import opened Strings

  datatype Cell = Null | Text(text: string) | Int(value: int) | Date(year: int, month: int, day: int)

  /** The pandas dtype categories the code distinguishes: `object`, numeric, datetime64, category. */
  datatype Kind = Object | Numeric | Datetime | Category

  datatype Column = Column(name: string, kind: Kind, cells: seq<Cell>)

  datatype Table = Table(rows: nat, columns: seq<Column>)

  /** Every column has `rows` cells and no two columns share a name. */
  predicate WellFormed(t: Table)
  {
    && (forall i :: 0 <= i < |t.columns| ==> |t.columns[i].cells| == t.rows)
    && (forall i, j :: 0 <= i < j < |t.columns| ==> t.columns[i].name != t.columns[j].name)
  }

  function ColumnNames(t: Table): (names: seq<string>)
    ensures |names| == |t.columns|
    ensures forall i :: 0 <= i < |t.columns| ==> names[i] == t.columns[i].name
  {
    seq(|t.columns|, i requires 0 <= i < |t.columns| => t.columns[i].name)
  }

  /** The position of the column called `name`. */
  function IndexOf(cols: seq<Column>, name: string): (r: Option<nat>)
    ensures r.Some? ==> r.value < |cols| && cols[r.value].name == name
    ensures r.None? <==> forall i :: 0 <= i < |cols| ==> cols[i].name != name
    ensures r.Some? ==> forall i :: 0 <= i < r.value ==> cols[i].name != name
  {
    if cols == [] then None
    else if cols[0].name == name then Some(0)
    else match IndexOf(cols[1..], name)
      case None => None
      case Some(k) => Some(k + 1)
  }

  /** The table with the cells and dtype of column `i` replaced; order and names unchanged. */
  function ReplaceColumn(t: Table, i: nat, kind: Kind, cells: seq<Cell>): (r: Table)
    requires i < |t.columns|
    ensures r.rows == t.rows && |r.columns| == |t.columns|
    ensures r.columns[i] == Column(t.columns[i].name, kind, cells)
    ensures forall j :: 0 <= j < |t.columns| && j != i ==> r.columns[j] == t.columns[j]
  {
    Table(t.rows, t.columns[i := Column(t.columns[i].name, kind, cells)])
  }

  // -------------------------------------------------------------- cell text

  /** `str(x)` of a scalar; a timestamp prints as "YYYY-MM-DD 00:00:00". */
  function PyStr(c: Cell): string
  {
    match c
    case Null => "None"
    case Text(s) => s
    case Int(v) => FormatInt(v)
    case Date(y, m, d) => DateText(y, m, d) + " 00:00:00"
  }

  function DateText(y: int, m: int, d: int): string
  {
    ZeroPad(FormatInt(y), 4) + "-" + ZeroPad(FormatInt(m), 2) + "-" + ZeroPad(FormatInt(d), 2)
  }

  /** `series.astype(str)` of one cell: the missing marker of the dtype, dates without a time. */
  function AsTypeStr(c: Cell, kind: Kind): string
  {
    match c
    case Null => (match kind case Object => "None" case Datetime => "NaT" case _ => "nan")
    case Date(y, m, d) => if kind == Datetime then DateText(y, m, d) else PyStr(c)
    case _ => PyStr(c)
  }

  // -------------------------------------------------------- null filtering

  /** `series.dropna()`: the non-null cells, in order. */
  function DropNull(cells: seq<Cell>): (r: seq<Cell>)
    ensures |r| <= |cells|
    ensures forall i :: 0 <= i < |r| ==> r[i] != Null
    ensures forall c :: c in r <==> c in cells && c != Null
    ensures r == [] <==> forall i :: 0 <= i < |cells| ==> cells[i] == Null
    ensures multiset(r) == multiset(cells)[Null := 0]
  {
    if cells == [] then []
    else
      var rest := DropNull(cells[1..]);
      assert cells == [cells[0]] + cells[1..];
      assert multiset(cells) == multiset{cells[0]} + multiset(cells[1..]);
      if cells[0] == Null then rest else [cells[0]] + rest
  }

  /** Filtering keeps order: the non-null cells of `a + b` are those of `a`, then those of `b`. */
  lemma {:induction false} DropNullAppend(a: seq<Cell>, b: seq<Cell>)
    ensures DropNull(a + b) == DropNull(a) + DropNull(b)
  {
    if a == [] {
      assert a + b == b;
    } else {
      assert (a + b)[1..] == a[1..] + b;
      DropNullAppend(a[1..], b);
    }
  }

  /**
   * The dtype pandas infers for a column built from `cells`: any text makes it
   * `object`, integers alone make it numeric, timestamps alone datetime, a mix
   * `object`; a column with no non-null cell keeps `fallback`.
   */
  function InferKind(cells: seq<Cell>, fallback: Kind): Kind
  {
    var vals := DropNull(cells);
    if vals == [] then fallback
    else if forall i :: 0 <= i < |vals| ==> vals[i].Int? then Numeric
    else if forall i :: 0 <= i < |vals| ==> vals[i].Date? then Datetime
    else Object
  }
}
