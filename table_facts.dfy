/**
 * What the mappings built by `iterate_table` hold: which keys, which models
 * under each key and in what order, how many appends per file, and which
 * rows take part.
 */
module TableFacts {
  import opened Outcome
  import opened Text
  import opened Names
  import opened Tables

  /** Row `c` appends something under key `k` to file `f`. */
  predicate Contributes(c: Cells, f: nat, k: String)
  {
    Recorded(c.model, f).Some? && KeyIn(c, f) == k
  }

  /**
   * Reference definition of a list: the model each row that appends under
   * `k` to file `f` records, one per such row, in row order.
   */
  function ModelsUnder(rows: seq<Cells>, f: nat, k: String): seq<String>
  {
    if rows == [] then []
    else
      var last := rows[|rows| - 1];
      ModelsUnder(rows[..|rows| - 1], f, k) +
        if Contributes(last, f, k) then [Recorded(last.model, f).value] else []
  }

  /** The number of rows whose model cell is not blank. */
  function Filled(rows: seq<Cells>): nat
  {
    if rows == [] then 0
    else Filled(rows[..|rows| - 1]) + if rows[|rows| - 1].model != "" then 1 else 0
  }

  lemma SelectSnoc(es: seq<Entry>, e: Entry, k: String)
    ensures Select(es + [e], k) == Select(es, k) + if e.board == k then [e.model] else []
  {
    assert (es + [e])[..|es|] == es;
  }

  /** The models selected under `k` from a table's appends are those of `ModelsUnder`. */
  lemma {:induction false} SelectAppends(rows: seq<Cells>, f: nat, k: String)
    ensures Select(Appends(rows, f), k) == ModelsUnder(rows, f, k)
  {
    if rows != [] {
      var init, last := rows[..|rows| - 1], rows[|rows| - 1];
      SelectAppends(init, f, k);
      var es := Appends(init, f);
      if Recorded(last.model, f).None? {
        assert Appends(rows, f) == es;
      } else {
        SelectSnoc(es, RowEntries(last, f)[0], k);
      }
    }
  }

  /** `ModelsUnder` is empty exactly when no row appends under `k`. */
  lemma {:induction false} ModelsUnderEmpty(rows: seq<Cells>, f: nat, k: String)
    ensures ModelsUnder(rows, f, k) == [] <==> forall i :: 0 <= i < |rows| ==> !Contributes(rows[i], f, k)
  {
    if rows != [] {
      var init := rows[..|rows| - 1];
      ModelsUnderEmpty(init, f, k);
      assert forall i :: 0 <= i < |init| ==> init[i] == rows[i];
    }
  }

  /** `ModelsUnder` of rows read in two runs is that of the first run followed by that of the second. */
  lemma {:induction false} ModelsUnderConcat(rows: seq<Cells>, more: seq<Cells>, f: nat, k: String)
    ensures ModelsUnder(rows + more, f, k) == ModelsUnder(rows, f, k) + ModelsUnder(more, f, k)
    decreases |more|
  {
    if more != [] {
      var init, last := more[..|more| - 1], more[|more| - 1];
      var tail := if Contributes(last, f, k) then [Recorded(last.model, f).value] else [];
      assert (rows + more)[..|rows + more| - 1] == rows + init;
      assert (rows + more)[|rows + more| - 1] == last;
      ModelsUnderConcat(rows, init, f, k);
      assert ModelsUnder(rows + more, f, k) == ModelsUnder(rows, f, k) + ModelsUnder(init, f, k) + tail;
    } else {
      assert rows + more == rows;
    }
  }

  /** A contributing row's model is in the list of its key. */
  lemma {:induction false} ModelsUnderHas(rows: seq<Cells>, i: nat, f: nat, k: String)
    requires i < |rows| && Contributes(rows[i], f, k)
    ensures Recorded(rows[i].model, f).value in ModelsUnder(rows, f, k)
  {
    var init := rows[..|rows| - 1];
    if i < |init| {
      assert init[i] == rows[i];
      ModelsUnderHas(init, i, f, k);
    }
  }

  /** No list records a blank model. */
  lemma {:induction false} ModelsUnderNotBlank(rows: seq<Cells>, f: nat, k: String)
    ensures "" !in ModelsUnder(rows, f, k)
  {
    if rows != [] {
      ModelsUnderNotBlank(rows[..|rows| - 1], f, k);
    }
  }

  /**
   * Each mapping `iterate_table` builds holds a key exactly when some row
   * appends under it, and the key's list is `ModelsUnder`: one model per
   * such row, in row order, duplicates kept.
   */
  lemma TabulateLists(rows: seq<Cells>, f: nat, k: String)
    requires f < 3
    ensures k in Tabulate(rows)[f] <==> exists i :: 0 <= i < |rows| && Contributes(rows[i], f, k)
    ensures k in Tabulate(rows)[f] ==> Tabulate(rows)[f][k] == ModelsUnder(rows, f, k)
  {
    GroupByMeaning(Appends(rows, f));
    SelectAppends(rows, f, k);
    ModelsUnderEmpty(rows, f, k);
  }

  /**
   * The blank-model rule: a row with a model appends it under its key to all
   * three files; a row with a blank model appends `White Label` to the last
   * two; and no list ever holds a blank model.
   */
  lemma BlankModelRule(rows: seq<Cells>, i: nat)
    requires i < |rows|
    ensures rows[i].model != "" ==>
      rows[i].key in Tabulate(rows)[0] && rows[i].model in Tabulate(rows)[0][rows[i].key] &&
      rows[i].key in Tabulate(rows)[1] && rows[i].model in Tabulate(rows)[1][rows[i].key] &&
      rows[i].underscoreKey in Tabulate(rows)[2] && rows[i].model in Tabulate(rows)[2][rows[i].underscoreKey]
    ensures rows[i].model == "" ==>
      rows[i].key in Tabulate(rows)[1] && WHITE_LABEL in Tabulate(rows)[1][rows[i].key] &&
      rows[i].underscoreKey in Tabulate(rows)[2] && WHITE_LABEL in Tabulate(rows)[2][rows[i].underscoreKey]
  {
    var c := rows[i];
    forall f | 0 < f < 3 || (f == 0 && c.model != "")
      ensures KeyIn(c, f) in Tabulate(rows)[f]
      ensures Recorded(c.model, f).value in Tabulate(rows)[f][KeyIn(c, f)]
    {
      TabulateLists(rows, f, KeyIn(c, f));
      ModelsUnderHas(rows, i, f, KeyIn(c, f));
    }
  }

  /** Every key's list holds at least one model: a key only appears with its first append. */
  lemma NoEmptyList(rows: seq<Cells>, f: nat, k: String)
    requires f < 3 && k in Tabulate(rows)[f]
    ensures Tabulate(rows)[f][k] != []
  {
    TabulateLists(rows, f, k);
    ModelsUnderEmpty(rows, f, k);
  }

  /** No list of any file holds a blank model. */
  lemma NoBlankModel(rows: seq<Cells>, f: nat, k: String)
    requires f < 3 && k in Tabulate(rows)[f]
    ensures "" !in Tabulate(rows)[f][k]
  {
    TabulateLists(rows, f, k);
    ModelsUnderNotBlank(rows, f, k);
  }

  /**
   * The counts: the first file gets one append per row with a model, the
   * other two one append per row.
   */
  lemma {:induction false} AppendsCount(rows: seq<Cells>, f: nat)
    requires f < 3
    ensures |Appends(rows, f)| == if f == 0 then Filled(rows) else |rows|
  {
    if rows != [] {
      AppendsCount(rows[..|rows| - 1], f);
    }
  }

  /**
   * The lists only grow: reading more rows leaves every key of the
   * mappings in place, and its list a prefix of the new one.
   */
  lemma TabulateGrows(rows: seq<Cells>, more: seq<Cells>, f: nat, k: String)
    requires f < 3 && k in Tabulate(rows)[f]
    ensures k in Tabulate(rows + more)[f]
    ensures Tabulate(rows)[f][k] <= Tabulate(rows + more)[f][k]
  {
    TabulateLists(rows, f, k);
    TabulateLists(rows + more, f, k);
    ModelsUnderConcat(rows, more, f, k);
    var i :| 0 <= i < |rows| && Contributes(rows[i], f, k);
    assert (rows + more)[i] == rows[i];
  }

  /**
   * The keys `iterate_table` produces are normalised: lower-case and free of
   * `&` in every file, and also free of `_` in the last.
   */
  lemma ReduceKeys(table: seq<Row>, header: seq<String>, f: nat, k: String)
    requires Readable(table, header) && f < 3
    requires Reduce(table, header).Ok? && k in Reduce(table, header).value[f]
    ensures IsLower(k) && '&' !in k
    ensures f == 2 ==> '_' !in k
  {
    var h := HeaderOf(table, header).value;
    var rows := DataRows(table, h);
    DataRowsNormalised(table, h);
    TabulateLists(rows, f, k);
  }

  /** Both keys of a row are normalised: lower-case, no `&`, and no `_` in the second. */
  predicate Normalised(c: Cells)
  {
    IsLower(c.key) && '&' !in c.key && IsLower(c.underscoreKey) && '&' !in c.underscoreKey && '_' !in c.underscoreKey
  }

  /** Every data row's keys are normalised. */
  lemma DataRowsNormalised(table: seq<Row>, h: Head)
    requires RowsFit(table, h)
    ensures forall i :: 0 <= i < |DataRows(table, h)| ==> Normalised(DataRows(table, h)[i])
  {
  }

  /**
   * The first row never contributes: replacing it changes nothing when a
   * header is passed in, since the loop starts at the second row regardless.
   */
  lemma FirstRowSkipped(table: seq<Row>, header: seq<String>, other: Row)
    requires header != [] && table != [] && Readable(table, header)
    ensures Readable([other] + table[1..], header)
    ensures Reduce([other] + table[1..], header) == Reduce(table, header)
  {
    assert DataOf([other] + table[1..]) == DataOf(table);
  }
}
