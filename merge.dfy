/**
 * `combine_dicts` and `flatten_models` of scraper.py, and the fold of the
 * three page tables that `get_as_json` makes with them.
 */
module Merge {
  import opened Outcome
  import opened Text
  import opened Tables

  /** `{**a, **b}` on the mapping of one file. */
  function Overlay(a: Json, b: Json): (r: Json)
    ensures r.Keys == a.Keys + b.Keys
  {
    map k | k in a.Keys + b.Keys :: if k in b then b[k] else a[k]
  }

  /**
   * `{**a, **b}` is a right-biased union: it has the keys of both, `b`'s
   * whole list wins on a collision, and a key only `a` has keeps its list.
   * Nothing is concatenated, so `a`'s models under a shared key are lost.
   */
  lemma OverlayMeaning(a: Json, b: Json, k: String)
    ensures k in Overlay(a, b) <==> k in a || k in b
    ensures k in b ==> Overlay(a, b)[k] == b[k]
    ensures k in a && k !in b ==> Overlay(a, b)[k] == a[k]
  {
  }

  /** Overlaying is associative: overlays regroup freely (see `MergedConcat`). */
  lemma OverlayAssociative(a: Json, b: Json, c: Json)
    ensures Overlay(Overlay(a, b), c) == Overlay(a, Overlay(b, c))
  {
  }

  /** The empty mapping changes nothing on either side, and a mapping overlaid on itself is itself. */
  lemma OverlayIdentity(a: Json)
    ensures Overlay(map[], a) == a && Overlay(a, map[]) == a && Overlay(a, a) == a
  {
  }

  /**
   * `combine_dicts(a, b)`: for each file of `a` (always all of `FILES`), the
   * overlay of `b`'s mapping on `a`'s.
   */
  function CombineDicts(a: Jsons, b: Jsons): (r: Jsons)
    ensures forall f :: 0 <= f < 3 ==> r[f].Keys == a[f].Keys + b[f].Keys
  {
    seq(3, f requires 0 <= f < 3 => Overlay(a[f], b[f]))
  }

  /** `{file: {} for file in FILES}`: the starting point of the fold. */
  const Empty: Jsons := [map[], map[], map[]]

  /**
   * The tables' mappings combined in order, starting from `Empty`, as
   * `jsons = combine_dicts(jsons, iterate_table(table))` does for each table.
   */
  function Merged(ts: seq<Jsons>): (r: Jsons)
    ensures forall f, i :: 0 <= f < 3 && 0 <= i < |ts| ==> ts[i][f].Keys <= r[f].Keys
  {
    if ts == [] then Empty
    else
      var init := ts[..|ts| - 1];
      assert forall i :: 0 <= i < |init| ==> init[i] == ts[i];
      CombineDicts(Merged(init), ts[|ts| - 1])
  }

  /** `k` occurs in none of the tables after the `i`-th, in file `f`. */
  predicate AbsentAfter(ts: seq<Jsons>, i: nat, f: nat, k: String)
    requires f < 3
  {
    forall j :: i < j < |ts| ==> k !in ts[j][f]
  }

  /** The mapping of file `f` after one more table is one more overlay. */
  lemma MergedStep(ts: seq<Jsons>, f: nat)
    requires ts != [] && f < 3
    ensures Merged(ts)[f] == Overlay(Merged(ts[..|ts| - 1])[f], ts[|ts| - 1][f])
  {
  }

  /**
   * Folding two runs of tables is one overlay: the fold of the second run
   * laid over the fold of the first.
   */
  lemma {:induction false} MergedConcat(ts: seq<Jsons>, us: seq<Jsons>, f: nat)
    requires f < 3
    ensures Merged(ts + us)[f] == Overlay(Merged(ts)[f], Merged(us)[f])
    decreases |us|
  {
    if us == [] {
      assert ts + us == ts;
      OverlayIdentity(Merged(ts)[f]);
    } else {
      var init, last := us[..|us| - 1], us[|us| - 1];
      assert (ts + us)[..|ts + us| - 1] == ts + init;
      assert (ts + us)[|ts + us| - 1] == last;
      MergedStep(ts + us, f);
      MergedStep(us, f);
      MergedConcat(ts, init, f);
      OverlayAssociative(Merged(ts)[f], Merged(init)[f], last[f]);
    }
  }

  /** The fold holds a key exactly when some table does. */
  lemma {:induction false} MergedKeys(ts: seq<Jsons>, f: nat, k: String)
    requires f < 3
    ensures k in Merged(ts)[f] <==> exists i :: 0 <= i < |ts| && k in ts[i][f]
  {
    if ts != [] {
      var init := ts[..|ts| - 1];
      MergedKeys(init, f, k);
      MergedStep(ts, f);
      assert forall i :: 0 <= i < |init| ==> init[i] == ts[i];
    }
  }

  /**
   * A key's list in the fold is that of the last table holding it: later
   * tables have the final say.
   */
  lemma {:induction false} MergedLast(ts: seq<Jsons>, i: nat, f: nat, k: String)
    requires f < 3 && i < |ts| && k in ts[i][f] && AbsentAfter(ts, i, f, k)
    ensures k in Merged(ts)[f] && Merged(ts)[f][k] == ts[i][f][k]
  {
    var init := ts[..|ts| - 1];
    MergedStep(ts, f);
    if i < |init| {
      assert init[i] == ts[i];
      assert AbsentAfter(init, i, f, k) by {
        assert forall j :: 0 <= j < |init| ==> init[j] == ts[j];
      }
      MergedLast(init, i, f, k);
    }
  }

  /**
   * The pipeline's order: routers, then USB-C, then the main table, so a
   * key of the main table maps to its list whatever the other two hold, and
   * a key of USB-C not in the main table to USB-C's list.
   */
  lemma MainHasFinalSay(routers: Jsons, usb: Jsons, main: Jsons, f: nat, k: String)
    requires f < 3
    ensures k in Merged([routers, usb, main])[f] <==> k in routers[f] || k in usb[f] || k in main[f]
    ensures k in main[f] ==> Merged([routers, usb, main])[f][k] == main[f][k]
    ensures k !in main[f] && k in usb[f] ==> Merged([routers, usb, main])[f][k] == usb[f][k]
  {
    var ts := [routers, usb, main];
    MergedKeys(ts, f, k);
    if k in main[f] {
      MergedLast(ts, 2, f, k);
    } else if k in usb[f] {
      MergedLast(ts, 1, f, k);
    } else if k in routers[f] {
      assert k in ts[0][f];
    }
  }

  /** What `flatten_models` puts between the models of one board. */
  const SEP: String := " | "

  /** The flattened mapping of one file: board name -> models joined by `SEP`. */
  type FlatJson = map<String, String>
  /** The flattened mappings of the three files, in `FILES` order. */
  type FlatJsons = j: seq<FlatJson> | |j| == 3 witness [map[], map[], map[]]

  /** The inner comprehension of `flatten_models`, on one file's mapping. */
  function FlattenJson(m: Json): (r: FlatJson)
    ensures r.Keys == m.Keys
  {
    map k | k in m :: Join(m[k], SEP)
  }

  /** `flatten_models`: every file's mapping flattened, no file added or dropped. */
  function FlattenModels(js: Jsons): (r: FlatJsons)
    ensures forall f :: 0 <= f < 3 ==> r[f].Keys == js[f].Keys
  {
    seq(3, f requires 0 <= f < 3 => FlattenJson(js[f]))
  }

  /** A board with one model maps to that model, unchanged. */
  lemma FlattenSingle(m: Json, k: String)
    requires k in m && |m[k]| == 1
    ensures FlattenJson(m)[k] == m[k][0]
  {
  }

  /**
   * Flattening loses nothing and keeps the order: splitting the joined text
   * at `" | "` gives the list back, provided no model contains `|`.
   */
  lemma FlattenRoundTrip(m: Json, k: String)
    requires k in m && m[k] != []
    requires forall i :: 0 <= i < |m[k]| ==> '|' !in m[k][i]
    ensures Split(FlattenJson(m)[k], SEP) == m[k]
  {
    SplitJoin(m[k], SEP, 1);
  }

  /**
   * A fold over results, in order: the first error stops it, otherwise each
   * value is combined into the accumulated one with `step`.
   */
  function FoldOk<T, E>(rs: seq<Result<T, E>>, start: T, step: (T, T) -> T): (r: Result<T, E>)
    ensures r.Ok? ==> forall i :: 0 <= i < |rs| ==> rs[i].Ok?
  {
    if rs == [] then Ok(start)
    else
      assert forall i :: 0 <= i < |rs| - 1 ==> rs[..|rs| - 1][i] == rs[i];
      match FoldOk(rs[..|rs| - 1], start, step)
      case Err(e) => Err(e)
      case Ok(m) =>
        match rs[|rs| - 1]
        case Err(e) => Err(e)
        case Ok(t) => Ok(step(m, t))
  }

  /** Once the fold has failed, later results change nothing. */
  lemma {:induction false} FoldOkStops<T, E>(rs: seq<Result<T, E>>, start: T, step: (T, T) -> T, i: nat)
    requires i <= |rs| && FoldOk(rs[..i], start, step).Err?
    ensures FoldOk(rs, start, step) == FoldOk(rs[..i], start, step)
    decreases |rs| - i
  {
    if i < |rs| {
      assert rs[..i + 1][..i] == rs[..i];
      FoldOkStops(rs, start, step, i + 1);
    } else {
      assert rs[..i] == rs;
    }
  }

  /** One more result: the fold combines its value, or stops at its error. */
  lemma FoldOkStep<T, E>(rs: seq<Result<T, E>>, start: T, step: (T, T) -> T, i: nat, acc: T)
    requires i < |rs| && FoldOk(rs[..i], start, step) == Ok(acc)
    ensures rs[i].Ok? ==> FoldOk(rs[..i + 1], start, step) == Ok(step(acc, rs[i].value))
    ensures rs[i].Err? ==> FoldOk(rs, start, step) == Err(rs[i].error)
  {
    assert rs[..i + 1][..i] == rs[..i];
    if rs[i].Err? {
      FoldOkStops(rs, start, step, i + 1);
    }
  }

  /**
   * The fold of `get_as_json` over the tables' results: the first error
   * stops it, otherwise every mapping is combined into `Empty`.
   */
  function Folded(rs: seq<Result<Jsons, TableError>>): (r: Result<Jsons, TableError>)
    ensures r.Ok? ==> forall i :: 0 <= i < |rs| ==> rs[i].Ok?
  {
    FoldOk(rs, Empty, CombineDicts)
  }

  /**
   * The fold succeeds exactly when every table does, and then holds the
   * `Merged` mappings of the tables.
   */
  lemma {:induction false} FoldedMeaning(rs: seq<Result<Jsons, TableError>>, ts: seq<Jsons>)
    requires |rs| == |ts|
    ensures (forall i :: 0 <= i < |rs| ==> rs[i] == Ok(ts[i])) ==> Folded(rs) == Ok(Merged(ts))
    ensures Folded(rs).Ok? ==> forall i :: 0 <= i < |rs| ==> rs[i].Ok?
  {
    if rs != [] {
      var init := rs[..|rs| - 1];
      FoldedMeaning(init, ts[..|ts| - 1]);
      assert forall i :: 0 <= i < |init| ==> init[i] == rs[i];
    }
  }

  /**
   * The fold at the head of `get_as_json`: combine the routers and USB-C
   * tables, headed by their first rows, into the empty mappings in a loop,
   * then the main table with its own header.
   */
  method Gather(routers: seq<Row>, usb: seq<Row>, main: seq<Row>, mainHeader: seq<String>)
    returns (r: Result<Jsons, TableError>)
    requires Readable(routers, []) && Readable(usb, []) && Readable(main, mainHeader)
    ensures r == Folded([Reduce(routers, []), Reduce(usb, []), Reduce(main, mainHeader)])
  {
    ghost var rs := [Reduce(routers, []), Reduce(usb, []), Reduce(main, mainHeader)];
    var tables := [routers, usb];
    var jsons := Empty;
    for i := 0 to |tables|
      invariant Folded(rs[..i]) == Ok(jsons)
    {
      assert Readable(tables[i], []);
      var t := IterateTable(tables[i], []);
      FoldOkStep(rs, Empty, CombineDicts, i, jsons);
      if t.Err? {
        return Err(t.error);
      }
      jsons := CombineDicts(jsons, t.value);
    }
    var m := IterateTable(main, mainHeader);
    FoldOkStep(rs, Empty, CombineDicts, 2, jsons);
    if m.Err? {
      return Err(m.error);
    }
    assert rs[..3] == rs;
    r := Ok(CombineDicts(jsons, m.value));
  }
}
