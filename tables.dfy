/**
 * The table reducer of scraper.py: `parse_header` and `iterate_table`, which
 * turn the rows of one page table into three board-name -> models mappings,
 * one per output file in `FILES`.
 */
module Tables {
  import opened Outcome
  import opened Text
  import opened Names

  /** `FILES`: the three output mappings, in the order `iterate_table` visits them. */
  const FILES: seq<String> := ["boardnamedevices", "boardnamedevices-1", "boardnamedevices-2"]
  const MODEL: String := "Model"
  const B_NAME: String := "Board name(s)"
  /** What the two later mappings record for a row whose model cell is blank. */
  const WHITE_LABEL: String := "White Label"

  /** `JSON`: board name -> models, in the order the rows were read. */
  type Json = map<String, seq<String>>
  /**
   * `JSONS`: the mapping of each output file. The dict's keys are always
   * exactly `FILES`, inserted in that order, so it is kept as the sequence
   * of its values in `FILES` order: `j[i]` is the mapping of `FILES[i]`.
   */
  type Jsons = j: seq<Json> | |j| == 3 witness [map[], map[], map[]]

  /** The text of each cell of one table row, as `get_text(strip=True)` gives it. */
  type Row = seq<String>

  /** The 0-based positions of the `Model` and `Board name(s)` columns. */
  datatype Head = Head(model: nat, boardName: nat)

  datatype TableError =
    | NoHeaderRow                  // no header given and no first row to take it from
    | MissingColumn(column: String) // `list.index(column)` raised ValueError

  /**
   * What the reducer takes from one data row: the sanitised model cell, and
   * the keys the sanitised board-name cell gets, `simplify_board_name` of it
   * for the first two files and `simplify_underscores` of that for the last.
   */
  datatype Cells = Cells(model: String, key: String, underscoreKey: String)

  /** One `current[board].append(model)` made by `iterate_table`. */
  datatype Entry = Entry(board: String, model: String)

  lemma FilesDistinct()
    ensures FILES[0] != FILES[1] && FILES[0] != FILES[2] && FILES[1] != FILES[2]
  {
    assert |FILES[0]| != |FILES[1]| && |FILES[0]| != |FILES[2]|;
    assert FILES[1][17] != FILES[2][17];
  }

  /** `x` first occurs in `cells` at position `i`. */
  predicate IsFirst(cells: seq<String>, i: nat, x: String)
  {
    i < |cells| && cells[i] == x && x !in cells[..i]
  }

  /** `cells.index(x)`: the first position holding `x`; None where Python raises ValueError. */
  function IndexOf(cells: seq<String>, x: String): (r: Option<nat>)
    ensures r.None? <==> x !in cells
    ensures r.Some? ==> IsFirst(cells, r.value, x)
  {
    if cells == [] then None
    else if cells[0] == x then Some(0)
    else match IndexOf(cells[1..], x)
      case None => None
      case Some(i) =>
        assert cells[..i + 1] == [cells[0]] + cells[1..][..i];
        Some(i + 1)
  }

  /**
   * `parse_header`: the positions of the first `Model` cell and of the first
   * `Board name(s)` cell; the error names the label looked up first that is
   * missing.
   */
  function ParseHeader(header: seq<String>): (r: Result<Head, TableError>)
    ensures r.Ok? <==> MODEL in header && B_NAME in header
    ensures r.Err? ==> r.error == MissingColumn(if MODEL !in header then MODEL else B_NAME)
    ensures r.Ok? ==> IsFirst(header, r.value.model, MODEL) && IsFirst(header, r.value.boardName, B_NAME)
  {
    match IndexOf(header, MODEL)
    case None => Err(MissingColumn(MODEL))
    case Some(m) =>
      match IndexOf(header, B_NAME)
      case None => Err(MissingColumn(B_NAME))
      case Some(b) => Ok(Head(m, b))
  }

  /** The `.replace('\xa0', ' ')` half of `sanitize`: no-break spaces become spaces. */
  function Sanitize(w: String): (r: String)
    ensures |r| == |w| && '\U{A0}' !in r
    ensures forall i :: 0 <= i < |w| && w[i] != '\U{A0}' ==> r[i] == w[i]
    ensures forall i :: 0 <= i < |w| && w[i] == '\U{A0}' ==> r[i] == ' '
  {
    seq(|w|, i requires 0 <= i < |w| => if w[i] == '\U{A0}' then ' ' else w[i])
  }

  /**
   * The header `iterate_table` parses: the one passed in, or, when that is
   * empty, the cells of the table's first row.
   */
  function HeaderOf(table: seq<Row>, header: seq<String>): Result<Head, TableError>
  {
    if header != [] then ParseHeader(header)
    else if table == [] then Err(NoHeaderRow)
    else ParseHeader(table[0])
  }

  /** The rows `iterate_table` reads: all but the first (`[1:]`). */
  function DataOf(table: seq<Row>): seq<Row>
  {
    if table == [] then [] else table[1..]
  }

  /** Every data row has both columns; a shorter row raises IndexError in the source. */
  predicate RowsFit(table: seq<Row>, h: Head)
  {
    forall row :: row in DataOf(table) ==> h.model < |row| && h.boardName < |row|
  }

  /** What `iterate_table` needs of its input: when the header parses, every data row fits it. */
  predicate Readable(table: seq<Row>, header: seq<String>)
  {
    HeaderOf(table, header).Ok? ==> RowsFit(table, HeaderOf(table, header).value)
  }

  /**
   * What `iterate_table` takes from one data row: the model cell and the
   * board-name cell, sanitised, and the two keys of the board name. The keys
   * are normalised: lower-case and free of `&`, the second also free of `_`.
   */
  function RowCells(row: Row, h: Head): (c: Cells)
    requires h.model < |row| && h.boardName < |row|
    ensures |c.model| == |row[h.model]| && '\U{A0}' !in c.model
    ensures IsLower(c.key) && '&' !in c.key
    ensures IsLower(c.underscoreKey) && '&' !in c.underscoreKey && '_' !in c.underscoreKey
  {
    var key := SimplifyBoardName(Sanitize(row[h.boardName]));
    Cells(Sanitize(row[h.model]), key, SimplifyUnderscores(key))
  }

  /** The sanitised model and board-name cells of every data row, in order. */
  function DataRows(table: seq<Row>, h: Head): (r: seq<Cells>)
    requires RowsFit(table, h)
    ensures |r| == |DataOf(table)|
  {
    var data := DataOf(table);
    seq(|data|, i requires 0 <= i < |data| => RowCells(data[i], h))
  }

  /**
   * The model a row adds to file `f`: a blank model is skipped by the first
   * file and becomes `White Label` in the other two.
   */
  function Recorded(model: String, f: nat): Option<String>
  {
    if model != "" then Some(model)
    else if f == 0 then None
    else Some(WHITE_LABEL)
  }

  /** The key a row gets in file `f`. */
  function KeyIn(c: Cells, f: nat): String
  {
    if f == 2 then c.underscoreKey else c.key
  }

  /** The appends one row makes to file `f`: none or one. */
  function RowEntries(c: Cells, f: nat): seq<Entry>
  {
    match Recorded(c.model, f)
    case None => []
    case Some(m) => [Entry(KeyIn(c, f), m)]
  }

  /** The appends `iterate_table` makes to file `f`, in row order. */
  function Appends(rows: seq<Cells>, f: nat): seq<Entry>
  {
    if rows == [] then []
    else Appends(rows[..|rows| - 1], f) + RowEntries(rows[|rows| - 1], f)
  }

  /** The models appended under key `k`, in order. */
  function Select(es: seq<Entry>, k: String): seq<String>
  {
    if es == [] then []
    else
      var last := es[|es| - 1];
      Select(es[..|es| - 1], k) + if last.board == k then [last.model] else []
  }

  /** `current[k].append(v)` on a `defaultdict(list)`. */
  function Append(m: Json, k: String, v: String): Json
  {
    m[k := (if k in m then m[k] else []) + [v]]
  }

  /** The mapping a run of appends builds, one `Append` per entry. */
  function GroupBy(es: seq<Entry>): Json
  {
    if es == [] then map[]
    else
      var last := es[|es| - 1];
      Append(GroupBy(es[..|es| - 1]), last.board, last.model)
  }

  /**
   * What is appended under `k` is exactly the models of the entries keyed
   * `k`: nothing is lost, nothing invented, and it is empty exactly when no
   * entry has that key.
   */
  lemma {:induction false} SelectMeaning(es: seq<Entry>, k: String)
    ensures |Select(es, k)| <= |es|
    ensures forall j :: 0 <= j < |Select(es, k)| ==> Entry(k, Select(es, k)[j]) in es
    ensures Select(es, k) == [] <==> forall i :: 0 <= i < |es| ==> es[i].board != k
  {
    if es != [] {
      var init := es[..|es| - 1];
      SelectMeaning(init, k);
      assert forall i :: 0 <= i < |init| ==> init[i] == es[i];
    }
  }

  /**
   * The mapping a run of appends builds: a key is present exactly when
   * something was appended under it, and holds what was appended under it,
   * in order and with repeats.
   */
  lemma {:induction false} GroupByMeaning(es: seq<Entry>)
    ensures forall k :: k in GroupBy(es) <==> Select(es, k) != []
    ensures forall k :: k in GroupBy(es) ==> GroupBy(es)[k] == Select(es, k)
  {
    if es != [] {
      GroupByMeaning(es[..|es| - 1]);
    }
  }

  /** The three mappings `iterate_table` builds from the given data rows. */
  function Tabulate(rows: seq<Cells>): Jsons
  {
    seq(3, f requires 0 <= f => GroupBy(Appends(rows, f)))
  }

  /**
   * What `iterate_table(table, header)` returns or raises. It fails exactly
   * when the header it parses (the one passed in, else the first row) lacks
   * a label, or when there is neither a header nor a first row.
   */
  function Reduce(table: seq<Row>, header: seq<String>): (r: Result<Jsons, TableError>)
    requires Readable(table, header)
    ensures header != [] ==> (r.Ok? <==> MODEL in header && B_NAME in header)
    ensures header == [] ==> (r.Ok? <==> table != [] && MODEL in table[0] && B_NAME in table[0])
    ensures header == [] && table == [] ==> r == Err(NoHeaderRow)
  {
    match HeaderOf(table, header)
    case Err(e) => Err(e)
    case Ok(h) => Ok(Tabulate(DataRows(table, h)))
  }

  lemma GroupBySnoc(es: seq<Entry>, e: Entry)
    ensures GroupBy(es + [e]) == Append(GroupBy(es), e.board, e.model)
  {
    assert (es + [e])[..|es|] == es;
  }

  /** The appends of one more row come after those of the rows before it. */
  lemma AppendsSnoc(prefix: seq<Cells>, c: Cells, f: nat)
    ensures Appends(prefix + [c], f) == Appends(prefix, f) + RowEntries(c, f)
  {
    assert (prefix + [c])[..|prefix|] == prefix;
  }

  /** A mapping after a row's appends to it (none or one). */
  function AddEntries(m: Json, es: seq<Entry>): Json
  {
    if es == [] then m else Append(m, es[0].board, es[0].model)
  }

  /** The three mappings after the appends of one row. */
  function RowStep(jsons: Jsons, c: Cells): Jsons
  {
    seq(3, f requires 0 <= f < 3 => AddEntries(jsons[f], RowEntries(c, f)))
  }

  /** Tabulating one more row is one `RowStep`. */
  lemma TabulateSnoc(prefix: seq<Cells>, c: Cells)
    ensures Tabulate(prefix + [c]) == RowStep(Tabulate(prefix), c)
  {
    var after := RowStep(Tabulate(prefix), c);
    forall f | 0 <= f < 3
      ensures Tabulate(prefix + [c])[f] == after[f]
    {
      AppendsSnoc(prefix, c, f);
      var es := Appends(prefix, f);
      if RowEntries(c, f) == [] {
        assert es + [] == es;
      } else {
        GroupBySnoc(es, RowEntries(c, f)[0]);
      }
    }
  }

  /**
   * The body of `iterate_table`'s row loop: append the row's model to the
   * three mappings in `FILES` order. The loop rewrites `model` (blank becomes
   * `White Label` once the first file is done) and `boardName` (cut at `_`
   * for the last file), as the source does.
   */
  method AddRow(jsons: Jsons, rowModel: String, rowKey: String) returns (r: Jsons)
    ensures r == RowStep(jsons, Cells(rowModel, rowKey, SimplifyUnderscores(rowKey)))
  {
    ghost var c := Cells(rowModel, rowKey, SimplifyUnderscores(rowKey));
    var model := rowModel;
    var boardName := rowKey;
    r := jsons;
    PartialNone(jsons, c);
    FilesDistinct();
    for f := 0 to |FILES|
      invariant model == if f >= 2 && rowModel == "" then WHITE_LABEL else rowModel
      invariant boardName == if f <= 2 then rowKey else c.underscoreKey
      invariant r == Partial(jsons, c, f)
    {
      PartialNext(jsons, c, f);
      var name := FILES[f];
      var current := r[f];
      if model == "" && name == FILES[0] {
        continue;
      } else if model == "" {
        model := WHITE_LABEL;
      }
      if name == FILES[2] {
        boardName := SimplifyUnderscores(boardName);
      }
      r := r[f := Append(current, boardName, model)];
    }
    PartialAll(jsons, c);
  }

  /** The mappings once the row's appends to the first `f` files are made. */
  function Partial(jsons: Jsons, c: Cells, f: nat): Jsons
  {
    seq(3, i requires 0 <= i < 3 => if i < f then AddEntries(jsons[i], RowEntries(c, i)) else jsons[i])
  }

  lemma PartialNone(jsons: Jsons, c: Cells)
    ensures Partial(jsons, c, 0) == jsons
  {
    SameByFile(Partial(jsons, c, 0), jsons);
  }

  lemma PartialAll(jsons: Jsons, c: Cells)
    ensures Partial(jsons, c, 3) == RowStep(jsons, c)
  {
    SameByFile(Partial(jsons, c, 3), RowStep(jsons, c));
  }

  lemma PartialNext(jsons: Jsons, c: Cells, f: nat)
    requires f < 3
    ensures RowEntries(c, f) == [] ==> Partial(jsons, c, f + 1) == Partial(jsons, c, f)
    ensures forall e :: RowEntries(c, f) == [e] ==>
      Partial(jsons, c, f + 1) == Partial(jsons, c, f)[f := Append(jsons[f], e.board, e.model)]
  {
    var p, q := Partial(jsons, c, f), Partial(jsons, c, f + 1);
    if RowEntries(c, f) == [] {
      SameByFile(q, p);
    } else {
      var e := RowEntries(c, f)[0];
      SameByFile(q, p[f := Append(jsons[f], e.board, e.model)]);
    }
  }

  /** Two values with one element per output file are equal when their elements are. */
  lemma SameByFile<T>(a: seq<T>, b: seq<T>)
    requires |a| == |b| == 3
    requires a[0] == b[0] && a[1] == b[1] && a[2] == b[2]
    ensures a == b
  {
  }

  /** No rows, no appends: `iterate_table` starts from three empty mappings. */
  lemma TabulateNothing()
    ensures Tabulate([]) == [map[], map[], map[]]
  {
    SameByFile(Tabulate([]), [map[], map[], map[]]);
  }

  lemma TakeAll<T>(s: seq<T>)
    ensures s[..|s|] == s
  {
  }

  lemma TakeOneMore<T>(s: seq<T>, k: nat)
    requires k < |s|
    ensures s[..k + 1] == s[..k] + [s[k]]
  {
  }

  /**
   * `iterate_table`: parse the header (taken from the first row when none is
   * given), then add every row after the first to the three mappings.
   */
  method IterateTable(table: seq<Row>, header: seq<String>) returns (r: Result<Jsons, TableError>)
    requires Readable(table, header)
    ensures r == Reduce(table, header)
  {
    var cells := header;
    if cells == [] {
      if table == [] {
        return Err(NoHeaderRow);
      }
      cells := table[0];
    }
    var parsed := ParseHeader(cells);
    if parsed.Err? {
      return Err(parsed.error);
    }
    var head := parsed.value;
    var data := DataOf(table);
    ghost var rows := DataRows(table, head);
    var jsons: Jsons := [map[], map[], map[]];
    TabulateNothing();
    for k := 0 to |data|
      invariant jsons == Tabulate(rows[..k])
    {
      var row := data[k];
      var model := Sanitize(row[head.model]);
      var boardName := SimplifyBoardName(Sanitize(row[head.boardName]));
      ghost var c := Cells(model, boardName, SimplifyUnderscores(boardName));
      assert c == rows[k];
      TabulateSnoc(rows[..k], c);
      jsons := AddRow(jsons, model, boardName);
      TakeOneMore(rows, k);
    }
    TakeAll(rows);
    r := Ok(jsons);
  }
}
