/**
 * The tail of `get_as_json` in scraper.py: compare each flattened mapping
 * with the one saved for its file, and when it changed, save it and put a
 * dated diff entry at the head of the file's change history.
 */
module Versioning {
  import opened Outcome
  import opened Text
  import opened Tables
  import opened Merge

  /** A line of `ndiff` output that records a change: it starts with `+` or `-`. */
  predicate IsChange(d: String)
  {
    StartsWith(d, "+") || StartsWith(d, "-")
  }

  /** The comprehension that keeps the `+` and `-` lines of the diff, in order. */
  function Changes(diff: seq<String>): (r: seq<String>)
    ensures |r| <= |diff|
    ensures forall i :: 0 <= i < |r| ==> IsChange(r[i]) && r[i] in diff
  {
    if diff == [] then []
    else
      var init, last := diff[..|diff| - 1], diff[|diff| - 1];
      assert forall x :: x in init ==> x in diff;
      Changes(init) + if IsChange(last) then [last] else []
  }

  /** No change line of the diff is dropped. */
  lemma {:induction false} ChangesComplete(diff: seq<String>, i: nat)
    requires i < |diff| && IsChange(diff[i])
    ensures diff[i] in Changes(diff)
  {
    var init := diff[..|diff| - 1];
    if i < |init| {
      assert init[i] == diff[i];
      ChangesComplete(init, i);
    }
  }

  /** Filtering commutes with concatenation: the change lines keep their order. */
  lemma {:induction false} ChangesConcat(a: seq<String>, b: seq<String>)
    ensures Changes(a + b) == Changes(a) + Changes(b)
    decreases |b|
  {
    if b == [] {
      assert a + b == a;
    } else {
      var init := b[..|b| - 1];
      assert (a + b)[..|a + b| - 1] == a + init;
      assert (a + b)[|a + b| - 1] == b[|b| - 1];
      ChangesConcat(a, init);
    }
  }

  /** A diff made only of change lines is kept whole. */
  lemma {:induction false} ChangesOfChanges(diff: seq<String>)
    requires forall i :: 0 <= i < |diff| ==> IsChange(diff[i])
    ensures Changes(diff) == diff
  {
    if diff != [] {
      var init := diff[..|diff| - 1];
      ChangesOfChanges(init);
      assert init + [diff[|diff| - 1]] == diff;
    }
  }

  const NL: String := "\n"
  /** What separates two entries of a change history. */
  const GAP: String := "\n\n"

  /** The lines of a new history entry: the date, `===`, then the change lines. */
  function EntryLines(date: String, diff: seq<String>): seq<String>
  {
    [date, "==="] + Changes(diff)
  }

  /**
   * `'\n'.join(diff)`: the text of a new history entry. It opens with the
   * date line and the `===` line, and is just those two lines when the diff
   * holds no change.
   */
  function EntryText(date: String, diff: seq<String>): (r: String)
    ensures |date| + 4 <= |r| && r[..|date| + 4] == date + NL + "==="
    ensures Changes(diff) == [] ==> r == date + NL + "==="
  {
    var lines, c := EntryLines(date, diff), Changes(diff);
    assert lines[1..][1..] == c;
    var tail := if c == [] then "===" else "===" + NL + Join(c, NL);
    assert Join(lines[1..], NL) == tail;
    assert (date + NL + tail)[..|date| + 4] == date + NL + "===";
    Join(lines, NL)
  }

  /** A file's history once a change is recorded: the new entry, a blank line, the old history. */
  function NewHistory(date: String, diff: seq<String>, history: String): (r: String)
    ensures |history| < |r| && r[|r| - |history|..] == history
    ensures |EntryText(date, diff)| < |r| && r[..|EntryText(date, diff)|] == EntryText(date, diff)
  {
    EntryText(date, diff) + GAP + history
  }

  /**
   * The entry reads back line by line: splitting it at `\n` gives the date,
   * `===` and the change lines, provided none of them holds a line break.
   * Only the kept `+`/`-` lines are constrained: the `?` hint lines of
   * `ndiff`, which end in a line break, are filtered out anyway.
   */
  lemma EntryReadBack(date: String, diff: seq<String>)
    requires '\n' !in date
    requires forall i :: 0 <= i < |diff| && IsChange(diff[i]) ==> '\n' !in diff[i]
    ensures Split(EntryText(date, diff), NL) == EntryLines(date, diff)
  {
    var lines := EntryLines(date, diff);
    forall i | 0 <= i < |lines| ensures '\n' !in lines[i] {
      if i >= 2 {
        assert lines[i] == Changes(diff)[i - 2];
        assert lines[i] in diff && IsChange(lines[i]);
      }
    }
    SplitJoin(lines, NL, 0);
  }

  /** No blank line inside `s`, and `s` neither starts nor ends with a line break. */
  predicate Compact(s: String)
  {
    s != [] && s[0] != '\n' && s[|s| - 1] != '\n' &&
    forall j :: 0 <= j < |s| - 1 ==> !(s[j] == '\n' && s[j + 1] == '\n')
  }

  /** Non-empty lines without line breaks, joined by `\n`, hold no blank line. */
  lemma {:induction false} JoinCompact(lines: seq<String>)
    requires lines != []
    requires forall i :: 0 <= i < |lines| ==> lines[i] != [] && '\n' !in lines[i]
    ensures Compact(Join(lines, NL))
  {
    if |lines| > 1 {
      var x, rest := lines[0], Join(lines[1..], NL);
      JoinCompact(lines[1..]);
      var s := x + NL + rest;
      assert Join(lines, NL) == s;
      assert s[0] == x[0];
      assert s[|s| - 1] == rest[|rest| - 1];
      forall j | 0 <= j < |s| - 1 ensures !(s[j] == '\n' && s[j + 1] == '\n') {
        if j < |x| {
          assert s[j] == x[j];
        } else if j == |x| {
          assert s[j + 1] == rest[0];
        } else {
          assert s[j] == rest[j - |x| - 1] && s[j + 1] == rest[j - |x|];
        }
      }
    } else {
      assert forall j :: 0 <= j < |lines[0]| ==> lines[0][j] != '\n';
    }
  }

  /** In `x + GAP + rest` with a compact `x`, the first blank line is the one right after `x`. */
  lemma GapAfter(x: String, rest: String)
    requires Compact(x)
    ensures Find(x + GAP + rest, GAP) == Some(|x|)
  {
    var s := x + GAP + rest;
    assert At(s, GAP, |x|) by { assert s[|x|..|x| + 2] == GAP; }
    forall j: nat | j < |x| ensures !At(s, GAP, j) {
      if j + 2 <= |s| {
        assert s[j..j + 2][0] == s[j] && s[j..j + 2][1] == s[j + 1];
        if j + 1 < |x| {
          assert s[j] == x[j] && s[j + 1] == x[j + 1];
        } else {
          assert s[j] == x[|x| - 1];
        }
      }
    }
  }

  /**
   * A history is the list of its entries separated by blank lines, newest
   * first. Recording a change puts the new entry at the head of that list
   * and leaves the older entries as they were, provided the date and the
   * change lines are non-empty and hold no line break.
   */
  lemma HistoryReadBack(date: String, diff: seq<String>, history: String)
    requires date != [] && '\n' !in date
    requires forall i :: 0 <= i < |diff| && IsChange(diff[i]) ==> '\n' !in diff[i]
    ensures Split(NewHistory(date, diff, history), GAP) == [EntryText(date, diff)] + Split(history, GAP)
  {
    var lines := EntryLines(date, diff);
    forall i | 0 <= i < |lines| ensures lines[i] != [] && '\n' !in lines[i] {
      if i >= 2 {
        assert lines[i] == Changes(diff)[i - 2];
        assert lines[i] in diff && IsChange(lines[i]);
      }
    }
    JoinCompact(lines);
    var x := EntryText(date, diff);
    GapAfter(x, history);
    var s := NewHistory(date, diff, history);
    assert s[..|x|] == x;
    assert s[|x| + |GAP|..] == history;
  }

  /**
   * What `<file>.diff` holds after the run: unchanged when the mapping equals
   * the saved one, otherwise the new entry ahead of the old text. A history
   * only ever grows at the front: the old text is always the tail of the
   * new, and it is the whole of it exactly when nothing changed.
   */
  function Revised(saved: FlatJson, current: FlatJson, history: String, date: String, diff: seq<String>): (r: String)
    ensures |history| <= |r| && r[|r| - |history|..] == history
    ensures r == history <==> current == saved
  {
    if current == saved then history else NewHistory(date, diff, history)
  }

  /**
   * The date each file's entry would carry, in `FILES` order: the source
   * reads the clock once per changed file, inside the write loop.
   */
  type Dates = d: seq<String> | |d| == 3 witness ["", "", ""]

  /** The text of each file's `.diff`, in `FILES` order. */
  type Histories = h: seq<String> | |h| == 3 witness ["", "", ""]

  /**
   * The `.json` and `.diff` files of the three outputs. `json.load` of the
   * text `json.dumps` wrote is taken to give back the mapping written.
   */
  class Store {
    var saved: FlatJsons
    var histories: Histories

    constructor (saved: FlatJsons, histories: Histories)
      ensures this.saved == saved && this.histories == histories
    {
      this.saved := saved;
      this.histories := histories;
    }

    /**
     * The compare-and-write loop of `get_as_json`, file by file in `FILES`
     * order. `ndiff` stands for the `+`/`-`/`?`/space lines `difflib.ndiff`
     * gives for the two JSON dumps, and `dates[f]` for what `pendulum.today()`
     * returns when file `f` is written.
     */
    method Publish(jsons: FlatJsons, dates: Dates, ndiff: (FlatJson, FlatJson) -> seq<String>)
      modifies this
      ensures saved == jsons
      ensures forall f :: 0 <= f < 3 ==>
        histories[f] == Revised(old(saved)[f], jsons[f], old(histories)[f], dates[f], ndiff(old(saved)[f], jsons[f]))
    {
      ghost var saved0, histories0 := saved, histories;
      ghost var goal := seq(3, i requires 0 <= i < 3 =>
        Revised(saved0[i], jsons[i], histories0[i], dates[i], ndiff(saved0[i], jsons[i])));
      for f := 0 to 3
        invariant forall i :: 0 <= i < 3 ==> saved[i] == if i < f then jsons[i] else saved0[i]
        invariant forall i :: 0 <= i < 3 ==> histories[i] == if i < f then goal[i] else histories0[i]
      {
        assert goal[f] == Revised(saved[f], jsons[f], histories[f], dates[f], ndiff(saved[f], jsons[f]));
        PublishFile(f, jsons[f], dates[f], ndiff);
      }
      assert forall i :: 0 <= i < 3 ==> histories[i] == goal[i];
      SameByFile(saved, jsons);
    }

    /**
     * One turn of that loop: when the mapping of file `f` differs from the
     * saved one, write the new entry, add a blank line and the old history
     * after it, and save the mapping; otherwise touch nothing. `date` is
     * the clock reading of this turn.
     */
    method PublishFile(f: nat, current: FlatJson, date: String, ndiff: (FlatJson, FlatJson) -> seq<String>)
      requires f < 3
      modifies this
      ensures saved == old(saved)[f := current]
      ensures histories == old(histories)[f := Revised(old(saved)[f], current, old(histories)[f], date, ndiff(old(saved)[f], current))]
    {
      ghost var want := Revised(saved[f], current, histories[f], date, ndiff(saved[f], current));
      if current == saved[f] {
        assert saved[f := current] == saved && histories[f := want] == histories;
        return;
      }
      var diff := [date, "==="] + Changes(ndiff(saved[f], current));
      var oldDiff := GAP + histories[f];
      histories := histories[f := Join(diff, NL)];
      histories := histories[f := histories[f] + oldDiff];
      assert histories[f] == want by {
        assert Join(diff, NL) == EntryText(date, ndiff(saved[f], current));
      }
      saved := saved[f := current];
    }
  }

  /**
   * `get_as_json` after the page is fetched: fold the three tables, flatten
   * the result, and publish it. A table that cannot be read stops the run
   * before anything is written.
   */
  method GetAsJson(store: Store, routers: seq<Row>, usb: seq<Row>, main: seq<Row>, mainHeader: seq<String>,
                   dates: Dates, ndiff: (FlatJson, FlatJson) -> seq<String>)
    returns (r: Result<FlatJsons, TableError>)
    requires Readable(routers, []) && Readable(usb, []) && Readable(main, mainHeader)
    modifies store
    ensures var folded := Folded([Reduce(routers, []), Reduce(usb, []), Reduce(main, mainHeader)]);
      match folded
      case Err(e) => r == Err(e) && unchanged(store)
      case Ok(jsons) =>
        var flat := FlattenModels(jsons);
        r == Ok(flat) && store.saved == flat &&
        forall f :: 0 <= f < 3 ==>
          store.histories[f] == Revised(old(store.saved)[f], flat[f], old(store.histories)[f], dates[f], ndiff(old(store.saved)[f], flat[f]))
  {
    var jsons := Gather(routers, usb, main, mainHeader);
    if jsons.Err? {
      return Err(jsons.error);
    }
    var flat := FlattenModels(jsons.value);
    store.Publish(flat, dates, ndiff);
    r := Ok(flat);
  }
}
