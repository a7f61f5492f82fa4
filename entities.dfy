/**
 * The entities of the store (generator/struct.go, generator/protocol.go,
 * generator/file.go): attributes, properties, functions, struct and protocol
 * definitions, their add operations, their casts, and the Go method names
 * derived from selectors.
 */
module Entities {
  import opened Wrappers
  import opened Strings
  import opened Pos
  import opened Names
  import opened Types

  datatype Attribute = Attribute(
    name: string,
    prot: string,
    isStatic: bool,
    typ: Option<Type>,
    pos: Option<Location>,
    range: Option<LineRange>)

  datatype Property = Property(
    name: string,
    typ: Option<Type>,
    readable: bool,
    writable: bool,
    pos: Option<Location>,
    range: Option<LineRange>)

  /** A function or method; `receiver` is the class name a method belongs to. */
  datatype Function = Function(base: BaseNode, typ: FuncType, isExtern: bool, receiver: string)

  datatype StructType = StructType(
    base: BaseNode,
    isClass: bool,
    attributes: seq<Attribute>,
    properties: seq<Property>,
    methods: seq<Function>)

  datatype ProtocolType = ProtocolType(base: BaseNode, properties: seq<Property>, methods: seq<Function>)

  /** A type definition held in the store under its refid. */
  datatype Def = StructDef(st: StructType) | ProtocolDef(pt: ProtocolType)

  function BaseOf(d: Def): BaseNode {
    match d
    case StructDef(s) => s.base
    case ProtocolDef(p) => p.base
  }

  /** The nameless struct a forward reference creates until its definition is loaded. */
  function Placeholder(ref: string): (d: Def)
    ensures d.StructDef? && BaseOf(d).refid == ref && BaseOf(d).name == ""
    ensures d.st.attributes == [] && d.st.properties == [] && d.st.methods == []
  {
    StructDef(StructType(BaseNode(ref, "", "", "", None, None), false, [], [], []))
  }

  /**
   * The definition an entity reference denotes. Every reference the loader
   * creates has an entry; an absent one reads as a placeholder.
   */
  function Lookup(types: map<string, Def>, ref: string): (d: Def)
    ensures ref in types ==> d == types[ref]
    ensures ref !in types ==> d == Placeholder(ref)
  {
    if ref in types then types[ref] else Placeholder(ref)
  }

  // ---------------------------------------------------------------------------
  // Host capabilities
  // ---------------------------------------------------------------------------

  /** Only structs implement `addAttribute`. */
  predicate HostsAttributes(d: Def) {
    d.StructDef?
  }

  /** `%T` of a definition, as it appears in the loader's error messages. */
  function DynamicTypeName(d: Def): string {
    if d.StructDef? then "*generator.StructType" else "*generator.ProtocolType"
  }

  // ---------------------------------------------------------------------------
  // addAttribute, addProperty, addMethod
  // ---------------------------------------------------------------------------

  /** `StructType.addAttribute`: append at the end. */
  function StructAddAttribute(s: StructType, a: Attribute): (r: StructType)
    ensures r == s.(attributes := s.attributes + [a])
  {
    s.(attributes := s.attributes + [a])
  }

  /** `StructType.addProperty`: append at the end. */
  function StructAddProperty(s: StructType, p: Property): (r: StructType)
    ensures r == s.(properties := s.properties + [p])
  {
    s.(properties := s.properties + [p])
  }

  /** Some method in `ms` is called `name`. */
  predicate HasMethodNamed(ms: seq<Function>, name: string) {
    exists i :: 0 <= i < |ms| && ms[i].base.name == name
  }

  /** `StructType.addMethod`: a method whose name is already taken is dropped; the first one wins. */
  function StructAddMethod(s: StructType, f: Function): (r: StructType)
    ensures HasMethodNamed(s.methods, f.base.name) ==> r == s
    ensures !HasMethodNamed(s.methods, f.base.name) ==> r == s.(methods := s.methods + [f])
    ensures HasMethodNamed(r.methods, f.base.name)
  {
    if HasMethodNamed(s.methods, f.base.name) then s
    else
      var ms := s.methods + [f];
      assert ms[|s.methods|] == f;
      s.(methods := ms)
  }

  /** The redeclaration scan of `StructType.addMethod`. */
  method FindMethodNamed(ms: seq<Function>, name: string) returns (found: bool)
    ensures found <==> HasMethodNamed(ms, name)
  {
    var i := 0;
    while i < |ms|
      invariant 0 <= i <= |ms|
      invariant forall j :: 0 <= j < i ==> ms[j].base.name != name
    {
      if ms[i].base.name == name {
        return true;
      }
      i := i + 1;
    }
    return false;
  }

  /** Adding methods one by one keeps their names distinct. */
  lemma {:induction false} StructAddMethodDistinct(s: StructType, f: Function)
    requires forall i, j :: 0 <= i < j < |s.methods| ==> s.methods[i].base.name != s.methods[j].base.name
    ensures var ms := StructAddMethod(s, f).methods;
      forall i, j :: 0 <= i < j < |ms| ==> ms[i].base.name != ms[j].base.name
  {
    var ms := StructAddMethod(s, f).methods;
    if !HasMethodNamed(s.methods, f.base.name) {
      forall i, j | 0 <= i < j < |ms|
        ensures ms[i].base.name != ms[j].base.name
      {
        if j == |s.methods| {
          assert ms[i] == s.methods[i];
        }
      }
    }
  }

  /** `ProtocolType.addMethod`: always appends, without any duplicate check. */
  function ProtocolAddMethod(p: ProtocolType, f: Function): (r: ProtocolType)
    ensures r == p.(methods := p.methods + [f])
  {
    p.(methods := p.methods + [f])
  }

  /** `ProtocolType.addProperty`: append at the end. */
  function ProtocolAddProperty(p: ProtocolType, q: Property): (r: ProtocolType)
    ensures r == p.(properties := p.properties + [q])
  {
    p.(properties := p.properties + [q])
  }

  /** The property hosts are the structs and the protocols: every definition. */
  function DefAddProperty(d: Def, q: Property): (r: Def)
    ensures BaseOf(r) == BaseOf(d) && r.StructDef? == d.StructDef?
  {
    match d
    case StructDef(s) => StructDef(StructAddProperty(s, q))
    case ProtocolDef(p) => ProtocolDef(ProtocolAddProperty(p, q))
  }

  function DefAddAttribute(d: Def, a: Attribute): (r: Def)
    requires HostsAttributes(d)
    ensures BaseOf(r) == BaseOf(d) && r.StructDef?
  {
    StructDef(StructAddAttribute(d.st, a))
  }

  /** `s.Methods = append(s.Methods, f)`: the unchecked append of `attachMethods`. */
  function AppendMethod(s: StructType, f: Function): (r: StructType)
    ensures r == s.(methods := s.methods + [f])
  {
    s.(methods := s.methods + [f])
  }

  // ---------------------------------------------------------------------------
  // The Type methods of StructType and ProtocolType
  // ---------------------------------------------------------------------------

  /**
   * `GoTypeName` of a struct or protocol: the memoised Go name, or failure for
   * a nameless (placeholder) definition.
   */
  function DefGoTypeName(d: Def): (r: (string, bool))
    ensures r.1 <==> BaseOf(d).name != ""
    ensures r.1 ==> r.0 == GoNameOf(BaseOf(d))
    ensures !r.1 ==> r.0 == ""
  {
    var (ok, b) := EnsureGoName(BaseOf(d));
    if ok then (b.goName, true) else ("", false)
  }

  /**
   * `CastToObjC` of a struct or protocol: both implement objc.Object, so the
   * expression is passed as it is.
   */
  function DefCastToObjC(d: Def, exp: string): (r: (string, bool))
    ensures r.1 <==> BaseOf(d).name != ""
    ensures r.1 ==> r.0 == exp
    ensures !r.1 ==> r.0 == ""
  {
    if EnsureGoName(BaseOf(d)).0 then (exp, true) else ("", false)
  }

  /**
   * `CastToGo`: a struct wraps the object with its `As<Name>` converter, a
   * protocol passes the expression as it is.
   */
  function DefCastToGo(d: Def, exp: string): (r: (string, bool))
    ensures r.1 <==> BaseOf(d).name != ""
    ensures r.1 && d.StructDef? ==> r.0 == "As" + GoNameOf(BaseOf(d)) + "(" + exp + ")"
    ensures r.1 && d.ProtocolDef? ==> r.0 == exp
    ensures !r.1 ==> r.0 == ""
  {
    var (ok, b) := EnsureGoName(BaseOf(d));
    if !ok then ("", false)
    else if d.StructDef? then
      var (name, _) := DefGoTypeName(d);
      ("As" + name + "(" + exp + ")", true)
    else (exp, true)
  }

  /** Placeholders answer every question with failure. */
  lemma PlaceholderFails(ref: string, exp: string)
    ensures !DefGoTypeName(Placeholder(ref)).1
    ensures !DefCastToObjC(Placeholder(ref), exp).1
    ensures !DefCastToGo(Placeholder(ref), exp).1
  {
  }

  /** A cast to Go undone by a cast to ObjC of the same entity gives back the expression for protocols. */
  lemma ProtocolCastsInverse(d: Def, exp: string)
    requires d.ProtocolDef? && BaseOf(d).name != ""
    ensures DefCastToObjC(d, DefCastToGo(d, exp).0) == (exp, true)
  {
  }

  // ---------------------------------------------------------------------------
  // Method names
  // ---------------------------------------------------------------------------

  /**
   * `StructType.goMethName`: a trailing ':' becomes '_', every other ':'
   * becomes '_' and the result is exported.
   */
  function GoMethName(name: string): string {
    var n := if HasSuffix(name, ":") then TrimSuffix(name, ":") + "_" else name;
    ToExportedName(ReplaceChar(n, ':', '_'))
  }

  /**
   * The Go name of a protocol method: the trailing ':' is dropped, the other
   * ones become '_', and the result is exported.
   */
  function ProtoMethName(name: string): string {
    ToExportedName(ReplaceChar(TrimSuffix(name, ":"), ':', '_'))
  }

  /** Replacing ':' before sanitising changes nothing: the sanitiser replaces it anyway. */
  lemma ReplaceColonSanitize(s: string)
    ensures Sanitize(ReplaceChar(s, ':', '_')) == Sanitize(s)
  {
  }

  lemma ToExportedNameReplaceColon(s: string)
    ensures ToExportedName(ReplaceChar(s, ':', '_')) == ToExportedName(s)
  {
    ReplaceColonSanitize(s);
  }

  /**
   * A struct method's Go name is just the exported selector: the special
   * treatment of a trailing ':' is subsumed by the replacement that follows.
   */
  lemma GoMethNameIsExported(name: string)
    ensures GoMethName(name) == ToExportedName(name)
  {
    var n := if HasSuffix(name, ":") then TrimSuffix(name, ":") + "_" else name;
    ToExportedNameReplaceColon(n);
    if HasSuffix(name, ":") {
      var h := TrimSuffix(name, ":");
      assert name == h + ":";
      assert Sanitize(n) == Sanitize(name);
      ReplaceColonSanitize(n);
    }
  }

  /**
   * For a selector ending in ':', the struct wrapper's method name keeps a
   * trailing '_' where the protocol's method name has none.
   */
  lemma {:induction false} MethodNamesOfColonSelector(name: string)
    requires HasSuffix(name, ":") && |name| > 1
    ensures GoMethName(name) == ProtoMethName(name) + "_"
  {
    var h := TrimSuffix(name, ":");
    assert name == h + ":";
    GoMethNameIsExported(name);
    ToExportedNameReplaceColon(h);
    ExportedNameShape(name);
    ExportedNameShape(h);
    assert name[1..] == h[1..] + ":";
    SanitizeAppend(h[1..], ":");
    assert h[0] == name[0];
  }

  /** Without a trailing ':' the two mappings agree. */
  lemma MethodNamesAgree(name: string)
    requires !HasSuffix(name, ":")
    ensures GoMethName(name) == ProtoMethName(name)
  {
    GoMethNameIsExported(name);
    ToExportedNameReplaceColon(name);
  }

  /** Method names are Go identifiers as far as the sanitiser goes: no ':' and no '-'. */
  lemma MethodNamesClean(name: string)
    ensures Clean(GoMethName(name)) && Clean(ProtoMethName(name))
  {
    ToGoNameClean(ReplaceChar(if HasSuffix(name, ":") then TrimSuffix(name, ":") + "_" else name, ':', '_'), true);
    ToGoNameClean(ReplaceChar(TrimSuffix(name, ":"), ':', '_'), true);
  }
}
