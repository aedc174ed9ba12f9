/**
 * The pieces of Python's `str` API that the scraper relies on: `lower()` on
 * ASCII, `strip()`, `split(c)[0]`, `startswith`, and `join`, plus a `Split`
 * that undoes `join`.
 */
module Text {
  import opened Outcome

  type String = seq<char>

  predicate IsUpper(c: char) { 'A' <= c <= 'Z' }

  /** No ASCII upper-case letter occurs in `s`. */
  predicate IsLower(s: String) { forall i :: 0 <= i < |s| ==> !IsUpper(s[i]) }

  function LowerChar(c: char): char
  {
    if IsUpper(c) then (c as int + 32) as char else c
  }

  /** `s.lower()` on ASCII text: upper-case letters become lower-case, every other character stays. */
  function Lower(s: String): (r: String)
    ensures |r| == |s| && IsLower(r)
    ensures forall i :: 0 <= i < |s| && !IsUpper(s[i]) ==> r[i] == s[i]
    ensures forall i :: 0 <= i < |s| && IsUpper(s[i]) ==>
      'a' <= r[i] <= 'z' && r[i] as int - 'a' as int == s[i] as int - 'A' as int
  {
    seq(|s|, i requires 0 <= i < |s| => LowerChar(s[i]))
  }

  /** A character that is not a letter is in `Lower(s)` exactly when it is in `s`. */
  lemma LowerKeepsNonLetter(s: String, c: char)
    requires !IsUpper(c) && !('a' <= c <= 'z')
    ensures c in Lower(s) <==> c in s
  {
    var r := Lower(s);
    if c in s {
      var i :| 0 <= i < |s| && s[i] == c;
      assert r[i] == c;
    }
    if c in r {
      var i :| 0 <= i < |r| && r[i] == c;
      assert s[i] == c;
    }
  }

  /** Lower-casing text that is already lower-case changes nothing. */
  lemma LowerOfLower(s: String)
    requires IsLower(s)
    ensures Lower(s) == s
  {
  }

  /** The characters Python's `str.strip()` removes: those for which `str.isspace()` holds. */
  predicate IsSpace(c: char)
  {
    || c == ' '
    || '\t' <= c <= '\r'
    || '\U{1C}' <= c <= '\U{1F}'
    || c == '\U{85}'
    || c == '\U{A0}'
    || c == '\U{1680}'
    || '\U{2000}' <= c <= '\U{200A}'
    || c == '\U{2028}'
    || c == '\U{2029}'
    || c == '\U{202F}'
    || c == '\U{205F}'
    || c == '\U{3000}'
  }

  /** The first position at or after `i` that does not hold whitespace, or `|s|`. */
  function SkipSpaces(s: String, i: nat): (r: nat)
    requires i <= |s|
    ensures i <= r <= |s|
    ensures forall j :: i <= j < r ==> IsSpace(s[j])
    ensures r < |s| ==> !IsSpace(s[r])
    decreases |s| - i
  {
    if i < |s| && IsSpace(s[i]) then SkipSpaces(s, i + 1) else i
  }

  /** The end of `s[..j]` once the whitespace before it, down to `lo`, is dropped. */
  function SkipSpacesBack(s: String, lo: nat, j: nat): (r: nat)
    requires lo <= j <= |s|
    ensures lo <= r <= j
    ensures forall k :: r <= k < j ==> IsSpace(s[k])
    ensures lo < r ==> !IsSpace(s[r - 1])
  {
    if lo < j && IsSpace(s[j - 1]) then SkipSpacesBack(s, lo, j - 1) else j
  }

  /** `s.strip()`: `s` without its leading and trailing whitespace. */
  function Strip(s: String): (r: String)
    ensures |r| <= |s|
    ensures r != [] ==> !IsSpace(r[0]) && !IsSpace(r[|r| - 1])
  {
    var a := SkipSpaces(s, 0);
    s[a..SkipSpacesBack(s, a, |s|)]
  }

  /**
   * What `strip()` keeps is one slice of `s`, and what it cuts off on either
   * side is whitespace.
   */
  lemma StripMeaning(s: String)
    ensures var r, a := Strip(s), SkipSpaces(s, 0);
      a + |r| <= |s| && r == s[a..a + |r|] &&
      (forall j :: 0 <= j < a ==> IsSpace(s[j])) &&
      (forall j :: a + |r| <= j < |s| ==> IsSpace(s[j]))
  {
  }

  /** `strip()` keeps lower-case text lower-case and brings in no character. */
  lemma StripKeeps(s: String, c: char)
    ensures IsLower(s) ==> IsLower(Strip(s))
    ensures c !in s ==> c !in Strip(s)
  {
    var a := SkipSpaces(s, 0);
    var r := Strip(s);
    assert forall i :: 0 <= i < |r| ==> r[i] == s[a + i];
  }

  /** Dropping a prefix keeps lower-case text lower-case and brings in no character. */
  lemma DropKeeps(s: String, n: nat, c: char)
    requires n <= |s|
    ensures IsLower(s) ==> IsLower(s[n..])
    ensures c !in s ==> c !in s[n..]
  {
    assert forall i :: 0 <= i < |s| - n ==> s[n..][i] == s[n + i];
  }

  /** Text with no whitespace in it is its own `strip()`. */
  lemma StripUnspaced(s: String)
    requires forall i :: 0 <= i < |s| ==> !IsSpace(s[i])
    ensures Strip(s) == s
  {
  }

  /** `s.split(c)[0]`: the text of `s` before the first `c`, or all of `s` when there is none. */
  function BeforeFirst(s: String, c: char): (r: String)
    ensures |r| <= |s| && r == s[..|r|]
    ensures c !in r
    ensures |r| < |s| ==> s[|r|] == c
  {
    s[..FindChar(s, c, 0)]
  }

  /** `r` is the slice of `s[..hi]` from `lo`, and only whitespace lies around it. */
  predicate TrimmedFrom(s: String, hi: nat, lo: nat, r: String)
    requires hi <= |s|
  {
    lo + |r| <= hi && r == s[lo..lo + |r|] &&
    (forall j :: 0 <= j < lo ==> IsSpace(s[j])) &&
    (forall j :: lo + |r| <= j < hi ==> IsSpace(s[j]))
  }

  /** `r` is `s[..hi]` with some whitespace cut off both ends. */
  predicate TrimmedPart(s: String, hi: nat, r: String)
    requires hi <= |s|
  {
    exists lo: nat | lo <= hi :: TrimmedFrom(s, hi, lo, r)
  }

  /**
   * `s.split(c)[0].strip()`, where `c` first occurs at `i`: the text before
   * position `i` with the whitespace around it cut off, and no whitespace left
   * at either end.
   */
  lemma StripBeforeFirst(s: String, c: char, i: nat)
    requires i < |s| && s[i] == c && c !in s[..i]
    ensures var r := Strip(BeforeFirst(s, c));
      TrimmedPart(s, i, r) && (r != [] ==> !IsSpace(r[0]) && !IsSpace(r[|r| - 1]))
  {
    var p := BeforeFirst(s, c);
    assert p == s[..i];
    StripMeaning(p);
    var r, a := Strip(p), SkipSpaces(p, 0);
    assert TrimmedFrom(s, i, a, r);
  }

  /** The first position at or after `i` holding `c`, or `|s|`. */
  function FindChar(s: String, c: char, i: nat): (r: nat)
    requires i <= |s|
    ensures i <= r <= |s|
    ensures forall j :: i <= j < r ==> s[j] != c
    ensures r < |s| ==> s[r] == c
    decreases |s| - i
  {
    if i < |s| && s[i] != c then FindChar(s, c, i + 1) else i
  }

  predicate StartsWith(s: String, p: String) { |p| <= |s| && s[..|p|] == p }

  /** Text whose first character differs from that of `p` does not start with `p`. */
  lemma NotPrefix(s: String, p: String)
    requires s != [] && p != [] && s[0] != p[0]
    ensures !StartsWith(s, p)
  {
    if |p| <= |s| { assert s[..|p|][0] == s[0]; }
  }

  /** `sep.join(xs)`. */
  function Join(xs: seq<String>, sep: String): (r: String)
    ensures |xs| == 1 ==> r == xs[0]
  {
    if xs == [] then []
    else if |xs| == 1 then xs[0]
    else xs[0] + sep + Join(xs[1..], sep)
  }

  /** `sep` occurs in `s` at position `j`. */
  predicate At(s: String, sep: String, j: nat) { j + |sep| <= |s| && s[j..j + |sep|] == sep }

  /** The position of the first occurrence of `sep` in `s`, if any. */
  function Find(s: String, sep: String): (r: Option<nat>)
    requires sep != []
    ensures r.Some? ==> At(s, sep, r.value)
    ensures r.Some? ==> forall j: nat :: j < r.value ==> !At(s, sep, j)
    ensures r.None? ==> forall j: nat :: !At(s, sep, j)
  {
    if |s| < |sep| then None
    else if s[..|sep|] == sep then Some(0)
    else
      var r := Find(s[1..], sep);
      ShiftAt(s, sep);
      match r
      case None => None
      case Some(i) =>
        assert s[i + 1..i + 1 + |sep|] == s[1..][i..i + |sep|];
        Some(i + 1)
  }

  /** An occurrence after the first position of `s` is an occurrence in `s[1..]`. */
  lemma ShiftAt(s: String, sep: String)
    requires s != []
    ensures forall j: nat :: 0 < j ==> (At(s, sep, j) <==> At(s[1..], sep, j - 1))
  {
    forall j: nat | 0 < j
      ensures At(s, sep, j) <==> At(s[1..], sep, j - 1)
    {
      if j + |sep| <= |s| {
        var here, there := s[j..j + |sep|], s[1..][j - 1..j - 1 + |sep|];
        forall m | 0 <= m < |sep| ensures here[m] == there[m] {
          assert s[j + m] == s[1..][j - 1 + m];
        }
        assert here == there;
      }
    }
  }

  /** `s.split(sep)`: the pieces of `s` between occurrences of `sep`. */
  function Split(s: String, sep: String): (r: seq<String>)
    requires sep != []
    ensures r != []
    decreases |s|
  {
    match Find(s, sep)
    case None => [s]
    case Some(i) => [s[..i]] + Split(s[i + |sep|..], sep)
  }

  /** Text without the character `sep[k]` holds no occurrence of `sep`. */
  lemma NoSeparator(s: String, sep: String, k: nat)
    requires k < |sep| && sep[k] !in s
    ensures Find(s, sep) == None
  {
    forall j: nat | j + |sep| <= |s| ensures !At(s, sep, j) {
      assert s[j..j + |sep|][k] == s[j + k];
    }
  }

  /**
   * When `x` lacks `sep[k]`, and `sep[k]` does not occur earlier in `sep`,
   * the first occurrence of `sep` in `x + sep + rest` is the one right after `x`.
   */
  lemma SeparatorAfter(x: String, sep: String, rest: String, k: nat)
    requires k < |sep| && sep[k] !in x
    requires forall m :: 0 <= m < k ==> sep[m] != sep[k]
    ensures Find(x + sep + rest, sep) == Some(|x|)
  {
    var s := x + sep + rest;
    assert At(s, sep, |x|) by { assert s[|x|..|x| + |sep|] == sep; }
    forall j: nat | j < |x| ensures !At(s, sep, j) {
      if j + |sep| <= |s| {
        assert s[j..j + |sep|][k] == s[j + k];
        if j + k >= |x| {
          assert s[j + k] == sep[j + k - |x|];
        }
      }
    }
  }

  /**
   * `Split` undoes `Join` when some character of the separator, one that does
   * not occur earlier in the separator, occurs in none of the pieces.
   */
  lemma {:induction false} SplitJoin(xs: seq<String>, sep: String, k: nat)
    requires xs != [] && k < |sep|
    requires forall m :: 0 <= m < k ==> sep[m] != sep[k]
    requires forall i :: 0 <= i < |xs| ==> sep[k] !in xs[i]
    ensures Split(Join(xs, sep), sep) == xs
  {
    if |xs| == 1 {
      NoSeparator(xs[0], sep, k);
    } else {
      var x, rest := xs[0], Join(xs[1..], sep);
      assert Join(xs, sep) == x + sep + rest;
      SplitAfter(x, sep, rest, k);
      SplitJoin(xs[1..], sep, k);
    }
  }

  /** The first piece of `x + sep + rest` is `x` when `x` lacks a character of `sep` as `SeparatorAfter` asks. */
  lemma SplitAfter(x: String, sep: String, rest: String, k: nat)
    requires k < |sep| && sep[k] !in x
    requires forall m :: 0 <= m < k ==> sep[m] != sep[k]
    ensures Split(x + sep + rest, sep) == [x] + Split(rest, sep)
  {
    var s := x + sep + rest;
    SeparatorAfter(x, sep, rest, k);
    assert s[..|x|] == x;
    assert s[|x| + |sep|..] == rest;
  }
}
