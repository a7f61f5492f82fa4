/** Source positions of documented declarations (generator/pos.go). */
module Pos {
  import opened Wrappers
  import opened Strings
  import opened Doxy

  /** A declaration position; `None` plays the role of a nil `*Location`. */
  datatype Location = Location(file: string, line: int, col: int)

  /** The line range of a declaration's body. */
  datatype LineRange = LineRange(file: string, startLine: int, endLine: int)

  /** `Location.String`: "File:Line", with ":Col" only for a column past the first. */
  function LocationString(l: Option<Location>): (s: string)
    ensures l.None? <==> s == ""
  {
    match l
    case None => ""
    case Some(loc) =>
      if loc.col <= 1 then loc.file + ":" + IntToString(loc.line)
      else loc.file + ":" + IntToString(loc.line) + ":" + IntToString(loc.col)
  }

  /** `asLocation`: no position for an empty file name, otherwise a copy of the fields. */
  function AsLocation(l: LocationType): (r: Option<Location>)
    ensures r.None? <==> l.file == ""
    ensures r.Some? ==> r.value.file == l.file && r.value.line == l.line && r.value.col == l.column
  {
    if l.file == "" then None else Some(Location(l.file, l.line, l.column))
  }

  /** `asLineRange`: no range without a body file or with a negative end line. */
  function AsLineRange(l: LocationType): (r: Option<LineRange>)
    ensures r.None? <==> (l.bodyfile == "" || l.bodyend < 0)
    ensures r.Some? ==> r.value.file == l.bodyfile && r.value.startLine == l.bodystart && r.value.endLine == l.bodyend
  {
    if l.bodyfile == "" || l.bodyend < 0 then None
    else Some(LineRange(l.bodyfile, l.bodystart, l.bodyend))
  }

  /** A location read from the index prints as nothing exactly when it names no file. */
  lemma AsLocationPrintsEmpty(l: LocationType)
    ensures LocationString(AsLocation(l)) == "" <==> l.file == ""
  {
  }

  /** Splitting from `k` at the first `c` at or after `k`, which sits at `i`. */
  lemma SplitFromField(s: string, c: char, k: nat, i: nat)
    requires k <= i < |s| && s[i] == c
    requires forall j :: k <= j < i ==> s[j] != c
    ensures SplitFrom(s, [c], k) == [s[k..i]] + SplitFrom(s, [c], i + 1)
  {
    OccursChar(s, c, i);
    forall j | k <= j < i
      ensures !OccursAt(s, [c], j)
    {
      OccursChar(s, c, j);
    }
    SplitFromAt(s, [c], k, i);
  }

  /** A one-character text occurs where that character stands. */
  lemma OccursChar(s: string, c: char, i: nat)
    requires i < |s|
    ensures OccursAt(s, [c], i) <==> s[i] == c
  {
    assert s[i..i + 1] == [s[i]];
  }

  /** Splitting from `k` when the only `c` left stands at `p`. */
  lemma SplitFromLastTwo(s: string, c: char, k: nat, p: nat)
    requires k <= p < |s| && s[p] == c
    requires forall j :: k <= j < |s| && j != p ==> s[j] != c
    ensures SplitFrom(s, [c], k) == [s[k..p], s[p + 1..]]
  {
    SplitFromField(s, c, k, p);
    SplitFromLast(s, c, p + 1);
  }

  /** Splitting from `k` when no `c` follows. */
  lemma SplitFromLast(s: string, c: char, k: nat)
    requires k <= |s|
    requires forall j :: k <= j < |s| ==> s[j] != c
    ensures SplitFrom(s, [c], k) == [s[k..]]
  {
    forall j | k <= j
      ensures !OccursAt(s, [c], j)
    {
      if j + 1 <= |s| {
        assert s[j..j + 1] == [s[j]];
      }
    }
    SplitFromNone(s, [c], k);
  }

  lemma NumberHasNoColon(n: int)
    ensures ':' !in IntToString(n)
  {
  }

  /**
   * The colon-separated fields of a formatted location are its file, its line
   * and (past the first column) its column, as long as the file name itself
   * holds no colon.
   */
  lemma LocationStringFields(l: Location)
    requires ':' !in l.file
    ensures Split(LocationString(Some(l)), ":") ==
      if l.col <= 1 then [l.file, IntToString(l.line)]
      else [l.file, IntToString(l.line), IntToString(l.col)]
  {
    NumberHasNoColon(l.line);
    NumberHasNoColon(l.col);
    if l.col <= 1 {
      TwoFields(l.file, IntToString(l.line));
    } else {
      ThreeFields(l.file, IntToString(l.line), IntToString(l.col));
    }
  }

  lemma TwoFields(a: string, b: string)
    requires ':' !in a && ':' !in b
    ensures Split(a + ":" + b, ":") == [a, b]
  {
    var s := a + ":" + b;
    assert s[0..|a|] == a && s[|a|] == ':' && s[|a| + 1..] == b;
    NoColonIn(s, 0, |a|);
    NoColonIn(s, |a| + 1, |s|);
    SplitFromLastTwo(s, ':', 0, |a|);
  }

  lemma ThreeFields(a: string, b: string, c: string)
    requires ':' !in a && ':' !in b && ':' !in c
    ensures Split(a + ":" + b + ":" + c, ":") == [a, b, c]
  {
    var s := a + ":" + b + ":" + c;
    var p := |a| + 1 + |b|;
    ThreeFieldsLayout(a, b, c);
    NoColonIn(s, 0, |a|);
    NoColonIn(s, |a| + 1, p);
    NoColonIn(s, p + 1, |s|);
    SplitFromField(s, ':', 0, |a|);
    SplitFromLastTwo(s, ':', |a| + 1, p);
  }

  lemma ThreeFieldsLayout(a: string, b: string, c: string)
    ensures var s := a + ":" + b + ":" + c; var p := |a| + 1 + |b|;
      s[0..|a|] == a && s[|a|] == ':' && s[|a| + 1..p] == b && s[p] == ':' && s[p + 1..] == c
  {
    var s := a + ":" + b + ":" + c;
    var p := |a| + 1 + |b|;
    assert s == (a + ":" + b) + ":" + c;
    assert (a + ":" + b)[..|a|] == a;
  }

  /** A slice free of colons has no colon at any of its positions. */
  lemma NoColonIn(s: string, k: nat, e: nat)
    requires k <= e <= |s| && ':' !in s[k..e]
    ensures forall j :: k <= j < e ==> s[j] != ':'
  {
    forall j | k <= j < e
      ensures s[j] != ':'
    {
      assert s[j] == s[k..e][j - k];
    }
  }

  /** Two locations with a column past the first print alike only if they are equal. */
  lemma LocationStringInjective(a: Location, b: Location)
    requires ':' !in a.file && ':' !in b.file
    requires a.col > 1 && b.col > 1
    requires LocationString(Some(a)) == LocationString(Some(b))
    ensures a == b
  {
    LocationStringFields(a);
    LocationStringFields(b);
    ParseIntToString(a.line);
    ParseIntToString(b.line);
    ParseIntToString(a.col);
    ParseIntToString(b.col);
  }
}
