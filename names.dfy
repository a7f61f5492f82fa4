/**
 * Go-safe names and the node header shared by every entity
 * (generator/types.go).
 */
module Names {
  import opened Wrappers
  import opened Strings
  import opened Doxy
  import opened Pos

  // ---------------------------------------------------------------------------
  // nameReplacer and toGoName
  // ---------------------------------------------------------------------------

  /** `nameReplacer` maps ':' and '-' to '_' and keeps every other character. */
  function SanitizeChar(c: char): char {
    if c == ':' || c == '-' then '_' else c
  }

  /** `nameReplacer.Replace`: one character for one character. */
  function Sanitize(name: string): (r: string)
    ensures |r| == |name|
    ensures forall i :: 0 <= i < |name| ==> r[i] == SanitizeChar(name[i])
  {
    seq(|name|, i requires 0 <= i < |name| => SanitizeChar(name[i]))
  }

  /** A sanitized name holds neither ':' nor '-'. */
  predicate Clean(s: string) {
    ':' !in s && '-' !in s
  }

  lemma SanitizeClean(name: string)
    ensures Clean(Sanitize(name))
  {
    var r := Sanitize(name);
    assert forall i :: 0 <= i < |r| ==> r[i] != ':' && r[i] != '-';
  }

  lemma SanitizeIdempotent(name: string)
    ensures Sanitize(Sanitize(name)) == Sanitize(name)
  {
  }

  lemma SanitizeAppend(a: string, b: string)
    ensures Sanitize(a + b) == Sanitize(a) + Sanitize(b)
  {
  }

  /** Case-mapping of the first character, as `unicode.ToUpper`/`ToLower` on ASCII. */
  function MapCase(c: char, exp: bool): char {
    if exp then ToUpper(c) else ToLower(c)
  }

  /** The Go keywords a lower-case name could collide with, and their stand-ins. */
  function AvoidKeyword(name: string): string {
    if name == "type" then "typ"
    else if name == "select" then "sel"
    else if name == "range" then "rng"
    else name
  }

  /**
   * `toGoName`: sanitize, upper-case (exported) or lower-case the first
   * character, then step around the keywords `type`, `select` and `range`.
   */
  function ToGoName(name: string, exp: bool): (r: string)
    ensures r == "" <==> name == ""
  {
    if name == "" then ""
    else
      var s := Sanitize(name);
      AvoidKeyword([MapCase(s[0], exp)] + s[1..])
  }

  /** `toExportedName` (generator/struct.go). */
  function ToExportedName(s: string): string {
    ToGoName(s, true)
  }

  lemma MapCaseKeepsSanitized(c: char, exp: bool)
    ensures SanitizeChar(MapCase(c, exp)) == MapCase(SanitizeChar(c), exp)
  {
  }

  /**
   * An exported name is the sanitized name with its first character
   * upper-cased: the keyword rule never fires, as no keyword starts upper-case.
   */
  lemma {:induction false} ExportedNameShape(name: string)
    requires name != ""
    ensures ToGoName(name, true) == [ToUpper(SanitizeChar(name[0]))] + Sanitize(name[1..])
  {
    var s := Sanitize(name);
    var m := [ToUpper(s[0])] + s[1..];
    assert !('a' <= m[0] <= 'z');
    assert AvoidKeyword(m) == m;
    assert s[1..] == Sanitize(name[1..]);
  }

  /** An unexported name is the lower-cased sanitized name after the keyword rule. */
  lemma UnexportedNameShape(name: string)
    requires name != ""
    ensures ToGoName(name, false) == AvoidKeyword([ToLower(SanitizeChar(name[0]))] + Sanitize(name[1..]))
  {
    assert Sanitize(name)[1..] == Sanitize(name[1..]);
  }

  /** Go names never hold ':' or '-'. */
  lemma {:induction false} ToGoNameClean(name: string, exp: bool)
    ensures Clean(ToGoName(name, exp))
  {
    if name != "" {
      var s := Sanitize(name);
      SanitizeClean(name);
      var m := [MapCase(s[0], exp)] + s[1..];
      assert m[0] != ':' && m[0] != '-';
      assert forall i :: 1 <= i < |m| ==> m[i] == s[i];
      assert Clean(m);
    }
  }

  /** Converting a Go name again changes nothing. */
  lemma {:induction false} ToGoNameIdempotent(name: string, exp: bool)
    ensures ToGoName(ToGoName(name, exp), exp) == ToGoName(name, exp)
  {
    if name != "" {
      var s := Sanitize(name);
      var m := [MapCase(s[0], exp)] + s[1..];
      var r := AvoidKeyword(m);
      if exp {
        assert !('a' <= m[0] <= 'z');
        assert r == m;
      }
      if r == m {
        ToGoNameClean(name, exp);
        assert Sanitize(r) == r;
        assert MapCase(r[0], exp) == r[0];
        assert [r[0]] + r[1..] == r;
      } else {
        assert !exp;
        assert r == "typ" || r == "sel" || r == "rng";
        assert Sanitize(r) == r;
        assert [MapCase(r[0], exp)] + r[1..] == r;
      }
    }
  }

  // ---------------------------------------------------------------------------
  // BaseNode
  // ---------------------------------------------------------------------------

  /** The header every entity carries; `goName` is the memoised sanitised name. */
  datatype BaseNode = BaseNode(
    refid: string,
    name: string,
    goName: string,
    prot: string,
    pos: Option<Location>,
    range: Option<LineRange>)

  /** The Go name a node answers with once `ensureGoName` has been applied to it. */
  function GoNameOf(b: BaseNode): string {
    if b.goName != "" then b.goName else Sanitize(b.name)
  }

  /**
   * `ensureGoName`: false for a nameless node; otherwise fill an empty
   * `goName` with the sanitised name. The second component is the node after
   * the call.
   */
  function EnsureGoName(b: BaseNode): (res: (bool, BaseNode))
    ensures res.0 <==> b.name != ""
    ensures res.1 == b.(goName := res.1.goName)
    ensures res.0 ==> res.1.goName == GoNameOf(b)
    ensures !res.0 ==> res.1 == b
  {
    if b.name == "" then (false, b)
    else if b.goName == "" then (true, b.(goName := Sanitize(b.name)))
    else (true, b)
  }

  /** A second call changes nothing. */
  lemma EnsureGoNameIdempotent(b: BaseNode)
    ensures EnsureGoName(EnsureGoName(b).1) == EnsureGoName(b)
  {
  }

  /** An already set Go name is never overwritten. */
  lemma EnsureGoNameKeeps(b: BaseNode)
    requires b.goName != ""
    ensures EnsureGoName(b).1 == b
  {
  }

  /** The name a node answers with does not depend on whether the memo is filled yet. */
  lemma EnsureGoNameInvisible(b: BaseNode)
    requires b.goName == "" || b.goName == Sanitize(b.name)
    ensures GoNameOf(EnsureGoName(b).1) == GoNameOf(b) == Sanitize(b.name)
  {
  }

  /** `entToBaseNode`: the header of an index entry, with no Go name yet. */
  function EntToBaseNode(ent: Entry, def: CompoundDef): (r: BaseNode)
    ensures r.refid == ent.refid && r.name == ent.name && r.goName == ""
    ensures r.prot == def.prot
    ensures r.pos == AsLocation(def.location) && r.range == AsLineRange(def.location)
  {
    BaseNode(ent.refid, ent.name, "", def.prot, AsLocation(def.location), AsLineRange(def.location))
  }
}
