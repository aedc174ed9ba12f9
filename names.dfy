/**
 * The board-name normalisers of scraper.py: `simplify_board_name` gives the
 * keys of `boardnamedevices` and `boardnamedevices-1`, `simplify_underscores`
 * those of `boardnamedevices-2`.
 */
module Names {
  import opened Text

  /** The two alternatives of the pattern `^(x86-|_he)` (`TO_REMOVE`). */
  const X86: String := "x86-"
  const HE: String := "_he"

  /**
   * How many leading characters `TO_REMOVE.sub('', s)` removes. The pattern
   * is anchored at the start of the string, so at most one marker goes, and
   * only a leading one.
   */
  function MarkerLength(s: String): (n: nat)
    ensures n <= |s|
  {
    if StartsWith(s, X86) then |X86| else if StartsWith(s, HE) then |HE| else 0
  }

  /** `TO_REMOVE.sub('', s)`. */
  function RemoveMarker(s: String): String
  {
    s[MarkerLength(s)..]
  }

  /**
   * The substitution removes exactly one leading marker when the text starts
   * with one, and leaves the text alone otherwise.
   */
  lemma RemoveMarkerMeaning(s: String)
    ensures var r := RemoveMarker(s);
      (StartsWith(s, X86) ==> s == X86 + r) &&
      (!StartsWith(s, X86) && StartsWith(s, HE) ==> s == HE + r) &&
      (!StartsWith(s, X86) && !StartsWith(s, HE) ==> r == s)
  {
    var r := RemoveMarker(s);
    assert s == s[..MarkerLength(s)] + r;
  }

  /**
   * `TO_REMOVE.sub('', s.lower())`, the last step of both normalisers: the
   * lower-cased text with at most one leading marker removed.
   */
  function LowerWithoutMarker(s: String): (r: String)
    ensures IsLower(r)
    ensures '&' !in s ==> '&' !in r
    ensures '_' !in s ==> '_' !in r
  {
    var h := Lower(s);
    LowerKeepsNonLetter(s, '&');
    LowerKeepsNonLetter(s, '_');
    DropKeeps(h, MarkerLength(h), '&');
    DropKeeps(h, MarkerLength(h), '_');
    RemoveMarker(h)
  }

  /** The first of two alternatives joined by `&`, stripped; the whole name when there is no `&`. */
  function FirstAlternative(b: String): (r: String)
    ensures '&' !in r
    ensures '&' !in b ==> r == b
  {
    if '&' in b then
      StripKeeps(BeforeFirst(b, '&'), '&');
      Strip(BeforeFirst(b, '&'))
    else b
  }

  /**
   * With `&` first at position `i`, the kept alternative is the text before
   * it with the surrounding whitespace cut off, and no whitespace is left at
   * either end.
   */
  lemma FirstAlternativeMeaning(b: String, i: nat)
    requires i < |b| && b[i] == '&' && '&' !in b[..i]
    ensures var r := FirstAlternative(b);
      TrimmedPart(b, i, r) && (r != [] ==> !IsSpace(r[0]) && !IsSpace(r[|r| - 1]))
  {
    StripBeforeFirst(b, '&', i);
  }

  /**
   * `simplify_board_name`: the lower-cased first alternative, with at most
   * one leading `x86-` or `_he` removed.
   */
  function SimplifyBoardName(b: String): (r: String)
    ensures IsLower(r) && '&' !in r
  {
    LowerWithoutMarker(FirstAlternative(b))
  }

  /**
   * `simplify_board_name(b)` is the lower-cased first alternative of `b`
   * with a leading `x86-` removed when it has one, else a leading `_he`,
   * and unchanged otherwise.
   */
  lemma SimplifyBoardNameShape(b: String)
    ensures var h, r := Lower(FirstAlternative(b)), SimplifyBoardName(b);
      (StartsWith(h, X86) ==> h == X86 + r) &&
      (!StartsWith(h, X86) && StartsWith(h, HE) ==> h == HE + r) &&
      (!StartsWith(h, X86) && !StartsWith(h, HE) ==> r == h)
  {
    RemoveMarkerMeaning(Lower(FirstAlternative(b)));
  }

  /**
   * The cut made for `boardnamedevices-2`: the text before the first `_`,
   * stripped, when there is a `_`; the name unchanged otherwise.
   */
  function UnderscoreHead(n: String): (r: String)
    requires IsLower(n) && '&' !in n
    ensures IsLower(r) && '_' !in r && '&' !in r
    ensures '_' !in n ==> r == n
  {
    if '_' in n then
      var p := BeforeFirst(n, '_');
      assert forall i :: 0 <= i < |p| ==> p[i] == n[i];
      StripKeeps(p, '_');
      StripKeeps(p, '&');
      Strip(p)
    else n
  }

  /**
   * With `_` first at position `i`, the cut is the text before it with the
   * surrounding whitespace removed, and no whitespace is left at either end.
   */
  lemma UnderscoreHeadMeaning(n: String, i: nat)
    requires IsLower(n) && '&' !in n
    requires i < |n| && n[i] == '_' && '_' !in n[..i]
    ensures var r := UnderscoreHead(n);
      TrimmedPart(n, i, r) && (r != [] ==> !IsSpace(r[0]) && !IsSpace(r[|r| - 1]))
  {
    StripBeforeFirst(n, '_', i);
  }

  /**
   * `simplify_underscores`: the part of `simplify_board_name(b)` before the
   * first `_` (stripped), with at most one leading `x86-` removed. It never
   * contains `_` or `&`.
   */
  function SimplifyUnderscores(b: String): (r: String)
    ensures IsLower(r) && '_' !in r && '&' !in r
  {
    LowerWithoutMarker(UnderscoreHead(SimplifyBoardName(b)))
  }

  /**
   * `simplify_underscores(b)` is the underscore cut of
   * `simplify_board_name(b)` with a leading `x86-` removed when it has one,
   * and unchanged otherwise: a leading `_` cannot survive the cut.
   */
  lemma SimplifyUnderscoresShape(b: String)
    ensures var head, r := UnderscoreHead(SimplifyBoardName(b)), SimplifyUnderscores(b);
      (StartsWith(head, X86) ==> head == X86 + r) &&
      (!StartsWith(head, X86) ==> r == head)
  {
    var head := UnderscoreHead(SimplifyBoardName(b));
    LowerOfLower(head);
    RemoveMarkerMeaning(head);
    assert !StartsWith(head, HE) by {
      if |HE| <= |head| { assert head[..|HE|][0] == head[0]; }
    }
  }

  /** A lower-case name that starts with neither marker comes through the last step unchanged. */
  lemma UnmarkedUnchanged(s: String)
    requires IsLower(s) && !StartsWith(s, X86) && !StartsWith(s, HE)
    ensures LowerWithoutMarker(s) == s
  {
    LowerOfLower(s);
  }

  /**
   * When the text before the first `_` holds no whitespace, the underscore
   * cut is exactly that text.
   */
  lemma {:induction false} CutAtFirstUnderscore(n: String, i: nat)
    requires IsLower(n) && '&' !in n
    requires i < |n| && n[i] == '_' && '_' !in n[..i]
    requires forall j :: 0 <= j < i ==> !IsSpace(n[j])
    ensures UnderscoreHead(n) == n[..i]
  {
    var p := BeforeFirst(n, '_');
    assert |p| == i;
    assert p == n[..i];
    assert forall j :: 0 <= j < |p| ==> !IsSpace(p[j]);
    StripUnspaced(p);
  }

  /** One leading marker goes; `_he` later in the name stays, whatever the docstring says. */
  lemma ExampleAlexHe(s: String)
    requires s == "x86-alex_he"
    ensures SimplifyBoardName(s) == "alex_he"
  {
    assert '&' !in s;
    LowerOfLower(s);
    assert s[..4] == X86;
  }

  /** Only one leading marker goes. */
  lemma ExampleDoubleMarker(s: String)
    requires s == "x86-x86-mario"
    ensures SimplifyBoardName(s) == "x86-mario"
  {
    assert '&' !in s;
    LowerOfLower(s);
    assert s[..4] == X86;
  }

  /** The first of two alternatives joined by `&` is kept, stripped and lower-cased. */
  lemma ExampleAlternatives(s: String)
    requires s == "falco & falco_II"
    ensures SimplifyBoardName(s) == "falco"
  {
    assert s[6] == '&';
    var p := BeforeFirst(s, '&');
    assert |p| == 6 by {
      assert forall i :: 0 <= i < 6 ==> s[i] != '&';
    }
    var t := p[..5];
    assert SkipSpaces(p, 0) == 0 by { assert !IsSpace(p[0]); }
    assert SkipSpacesBack(p, 0, 6) == 5 by {
      assert IsSpace(p[5]);
      assert !IsSpace(p[4]);
    }
    assert Strip(p) == t;
    assert t == "falco";
    assert forall i :: 0 <= i < |t| ==> !IsUpper(t[i]);
    NotPrefix(t, X86);
    NotPrefix(t, HE);
    UnmarkedUnchanged(t);
  }

  /** The steps after `simplify_board_name` turn `alex_he` into `alex`. */
  lemma ExampleHeadOfAlexHe(n: String)
    requires n == "alex_he"
    ensures IsLower(n) && '&' !in n && LowerWithoutMarker(UnderscoreHead(n)) == "alex"
  {
    var p := n[..4];
    assert p == "alex";
    assert forall j :: 0 <= j < |n| ==> !IsUpper(n[j]) && n[j] != '&';
    assert n[4] == '_';
    assert forall j :: 0 <= j < |p| ==> !IsSpace(p[j]) && p[j] != '_';
    CutAtFirstUnderscore(n, 4);
    NotPrefix(p, X86);
    NotPrefix(p, HE);
    UnmarkedUnchanged(p);
  }

  /** The underscore variant cuts `x86-alex_he` down to `alex`. */
  lemma ExampleUnderscores(s: String)
    requires s == "x86-alex_he"
    ensures SimplifyUnderscores(s) == "alex"
  {
    ExampleAlexHe(s);
    ExampleHeadOfAlexHe(SimplifyBoardName(s));
  }
}
