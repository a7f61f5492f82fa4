/**
 * What the loader does to the generator's tables (generator/file.go,
 * generator/struct.go, generator/protocol.go, generator/generator.go), as
 * functions of the tables before and the index entries read. The loading
 * methods of `Generator` are proved to leave exactly these tables behind.
 *
 * Resolving a type never fails (see Resolver), so the loader's errors are
 * exactly: an entry that does not decode, an attribute section on a protocol,
 * and a file entry seen twice. An error stops loading with the tables as far
 * as they got, which `Outcome` records.
 */
module Loader {
  import opened Wrappers
  import opened Strings
  import opened Doxy
  import opened Pos
  import opened Names
  import opened Types
  import opened Entities
  import opened Resolver
  import Sorting

  /** The three tables of the generator. */
  datatype Store = Store(types: map<string, Def>, files: map<string, BaseNode>, funcs: map<string, Function>)

  /** The tables after a loading step, and the error it returned, if any. */
  datatype Outcome = Outcome(st: Store, err: Option<string>)

  // ---------------------------------------------------------------------------
  // loadFuncs
  // ---------------------------------------------------------------------------

  /**
   * The receiver of a function: the last space-separated token of the
   * definition text before its first "::", or "" for a free function.
   */
  function Receiver(def: string): (r: string)
    ensures Index(def, "::") < 0 ==> r == ""
    ensures ' ' !in r
    ensures Index(def, "::") >= 0 ==>
      var head := def[..Index(def, "::")];
      HasSuffix(head, r) && (|r| == |head| || head[|head| - |r| - 1] == ' ')
  {
    var i := Index(def, "::");
    if i < 0 then ""
    else
      var head := def[..i];
      var j := LastIndexOf(head, ' ');
      assert head[j + 1..] == head[|head| - |head[j + 1..]|..];
      head[j + 1..]
  }

  /** The key of the functions table: receiver, "::", name. */
  function MemberKey(m: MemberDef): string {
    Receiver(m.definition) + "::" + m.name
  }

  /** An argument: declared name and type; an array parameter is an array of that type. */
  function ParamArg(p: Param): FuncArg {
    var at := LinkType(p.typ);
    FuncArg(p.declname, (if p.arrayText != "" then Some(Array("", at)) else at))
  }

  /** The function `loadFuncs` builds for a member of kind "function". */
  function MemberFunction(m: MemberDef): (f: Function)
    ensures f.receiver == Receiver(m.definition) && FuncKeyOf(f) == MemberKey(m)
    ensures f.base.name == m.name && f.base.goName == "" && f.base.refid == ""
  {
    var ret := LinkType(m.typ);
    var ext := ret.Some? && ret.value.AppkitExtern?;
    var args := seq(|m.params|, i requires 0 <= i < |m.params| => ParamArg(m.params[i]));
    var base := BaseNode("", m.name, "", m.prot, AsLocation(m.location), AsLineRange(m.location));
    Function(base, FuncType((if ext then ret.value.elem else ret), args), ext, Receiver(m.definition))
  }

  function FuncKeyOf(f: Function): string {
    f.receiver + "::" + f.base.name
  }

  /** The types table after resolving the parameter types in order. */
  function ParamsStore(types: map<string, Def>, ps: seq<Param>): map<string, Def>
    decreases |ps|
  {
    if ps == [] then types else ParamsStore(LinkStore(types, ps[0].typ), ps[1..])
  }

  /** The types table after resolving a function's return type and then its parameter types. */
  function MemberStore(types: map<string, Def>, m: MemberDef): map<string, Def> {
    ParamsStore(LinkStore(types, m.typ), m.params)
  }

  /** One member of a function section: functions are stored under their key, other kinds skipped. */
  function LoadMember(st: Store, m: MemberDef): Store {
    if m.kind != "function" then st
    else Store(MemberStore(st.types, m), st.files, st.funcs[MemberKey(m) := MemberFunction(m)])
  }

  /** `loadFuncs`: the members in order. */
  function LoadFuncs(st: Store, ms: seq<MemberDef>): Store
    decreases |ms|
  {
    if ms == [] then st else LoadFuncs(LoadMember(st, ms[0]), ms[1..])
  }

  /** The keys the function members of `ms` are stored under. */
  function FuncKeys(ms: seq<MemberDef>): set<string> {
    set i | 0 <= i < |ms| && ms[i].kind == "function" :: MemberKey(ms[i])
  }

  // ---------------------------------------------------------------------------
  // loadDoxyObject
  // ---------------------------------------------------------------------------

  /** The six attribute section kinds. */
  const AttribKinds: set<string> := {
    "public-attrib", "public-static-attrib",
    "protected-attrib", "protected-static-attrib",
    "private-attrib", "private-static-attrib"
  }

  /** An attribute section is static when its kind mentions "static". */
  predicate IsStaticKind(kind: string) {
    Index(kind, "static") >= 0
  }

  function MemberAttribute(m: MemberDef, isStatic: bool): Attribute {
    Attribute(m.name, m.prot, isStatic, MemberType(m), AsLocation(m.location), AsLineRange(m.location))
  }

  function MemberProperty(m: MemberDef): Property {
    Property(m.name, MemberType(m), m.readable, m.writable, AsLocation(m.location), AsLineRange(m.location))
  }

  /** Every definition in the table is a struct. */
  predicate AllStructs(types: map<string, Def>) {
    forall k :: k in types ==> types[k].StructDef?
  }

  /** A definition keeps its kind and header. */
  predicate SameHeader(d: Def, d': Def) {
    d'.StructDef? == d.StructDef? && BaseOf(d') == BaseOf(d) && (d.StructDef? ==> d'.st.isClass == d.st.isClass)
  }

  /**
   * Loading members into a table removes nothing, keeps every definition's
   * kind and header, and adds only structs (the placeholders).
   */
  predicate Grows(types: map<string, Def>, types': map<string, Def>) {
    types.Keys <= types'.Keys &&
    (forall k :: k in types ==> SameHeader(types[k], types'[k])) &&
    (forall k :: k in types' && k !in types ==> types'[k].StructDef?)
  }

  lemma GrowsTransitive(a: map<string, Def>, b: map<string, Def>, c: map<string, Def>)
    requires Grows(a, b) && Grows(b, c)
    ensures Grows(a, c)
  {
  }

  /** One member of an attribute section: its type is resolved, then the attribute is appended to the host. */
  function AddAttribute(types: map<string, Def>, host: string, m: MemberDef, isStatic: bool): (r: map<string, Def>)
    requires host in types && HostsAttributes(types[host])
    ensures Grows(types, r) && host in r && HostsAttributes(r[host])
  {
    var t1 := LinkStore(types, m.typ);
    LinkStoreOnlyPlaceholders(types, m.typ);
    t1[host := DefAddAttribute(t1[host], MemberAttribute(m, isStatic))]
  }

  /** The members of an attribute section, in order. */
  function AddAttributes(types: map<string, Def>, host: string, ms: seq<MemberDef>, isStatic: bool): (r: map<string, Def>)
    requires host in types && HostsAttributes(types[host])
    ensures Grows(types, r)
    decreases |ms|
  {
    if ms == [] then types
    else
      var t2 := AddAttribute(types, host, ms[0], isStatic);
      var r := AddAttributes(t2, host, ms[1..], isStatic);
      GrowsTransitive(types, t2, r);
      r
  }

  /** One member of a property section: its type is resolved, then the property is appended to the host. */
  function AddProperty(types: map<string, Def>, host: string, m: MemberDef): (r: map<string, Def>)
    requires host in types
    ensures Grows(types, r) && host in r
  {
    var t1 := LinkStore(types, m.typ);
    LinkStoreOnlyPlaceholders(types, m.typ);
    t1[host := DefAddProperty(t1[host], MemberProperty(m))]
  }

  /** The members of a property section, in order. */
  function AddProperties(types: map<string, Def>, host: string, ms: seq<MemberDef>): (r: map<string, Def>)
    requires host in types
    ensures Grows(types, r)
    decreases |ms|
  {
    if ms == [] then types
    else
      var t2 := AddProperty(types, host, ms[0]);
      var r := AddProperties(t2, host, ms[1..]);
      GrowsTransitive(types, t2, r);
      r
  }

  /** The loop of `loadDoxyObject` over an attribute section, one member at a time. */
  lemma AddAttributesUnfold(types: map<string, Def>, host: string, ms: seq<MemberDef>, isStatic: bool, i: nat)
    requires host in types && HostsAttributes(types[host]) && i < |ms|
    ensures AddAttributes(types, host, ms[i..], isStatic) ==
      AddAttributes(AddAttribute(types, host, ms[i], isStatic), host, ms[i + 1..], isStatic)
  {
    assert ms[i..][0] == ms[i] && ms[i..][1..] == ms[i + 1..];
  }

  /** The loop of `loadDoxyObject` over a property section, one member at a time. */
  lemma AddPropertiesUnfold(types: map<string, Def>, host: string, ms: seq<MemberDef>, i: nat)
    requires host in types && i < |ms|
    ensures AddProperties(types, host, ms[i..]) == AddProperties(AddProperty(types, host, ms[i]), host, ms[i + 1..])
  {
    assert ms[i..][0] == ms[i] && ms[i..][1..] == ms[i + 1..];
  }

  /** Resolving parameter types only adds placeholders for their cross-references. */
  lemma {:induction false} ParamsStoreOnlyPlaceholders(types: map<string, Def>, ps: seq<Param>)
    ensures var r := ParamsStore(types, ps);
      types.Keys <= r.Keys && (forall k :: k in types ==> r[k] == types[k]) &&
      (forall k :: k in r && k !in types ==> r[k] == Placeholder(k) && exists i :: 0 <= i < |ps| && Links(ps[i].typ, k))
    decreases |ps|
  {
    if ps != [] {
      var t1 := LinkStore(types, ps[0].typ);
      LinkStoreOnlyPlaceholders(types, ps[0].typ);
      ParamsStoreOnlyPlaceholders(t1, ps[1..]);
      var r := ParamsStore(types, ps);
      forall k | k in r && k !in types
        ensures r[k] == Placeholder(k) && exists i :: 0 <= i < |ps| && Links(ps[i].typ, k)
      {
        if k in t1 {
          assert Links(ps[0].typ, k);
        } else {
          var i :| 0 <= i < |ps[1..]| && Links(ps[1..][i].typ, k);
          assert Links(ps[i + 1].typ, k);
        }
      }
    }
  }

  /** One section of a struct or protocol definition. */
  function LoadSection(st: Store, host: string, sec: SectionDef): (o: Outcome)
    requires host in st.types
    ensures Grows(st.types, o.st.types)
  {
    if sec.kind in AttribKinds then
      if !HostsAttributes(st.types[host]) then
        Outcome(st, Some(DynamicTypeName(st.types[host]) + " cannot host attributes"))
      else
        Outcome(st.(types := AddAttributes(st.types, host, sec.members, IsStaticKind(sec.kind))), None)
    else if sec.kind == "property" then
      Outcome(st.(types := AddProperties(st.types, host, sec.members)), None)
    else if sec.kind == "func" || sec.kind == "public-func" then
      LoadFuncsOnlyPlaceholders(st, sec.members);
      Outcome(LoadFuncs(st, sec.members), None)
    else Outcome(st, None)
  }

  /** `loadDoxyObject`: the sections in order, up to the first error. */
  function LoadSections(st: Store, host: string, secs: seq<SectionDef>): (o: Outcome)
    requires host in st.types
    ensures Grows(st.types, o.st.types)
    decreases |secs|
  {
    if secs == [] then Outcome(st, None)
    else
      var o := LoadSection(st, host, secs[0]);
      if o.err.Some? then o
      else
        var o' := LoadSections(o.st, host, secs[1..]);
        GrowsTransitive(st.types, o.st.types, o'.st.types);
        o'
  }

  // ---------------------------------------------------------------------------
  // loadDoxyStruct, loadDoxyProtocol, loadDoxyFile
  // ---------------------------------------------------------------------------

  /** The freshly loaded struct: the entry's header, class-ness, and no members yet. */
  function FreshStruct(ent: Entry, def: CompoundDef): Def {
    StructDef(StructType(EntToBaseNode(ent, def), ent.kind == Class, [], [], []))
  }

  /** The freshly loaded protocol: the entry's header with a trailing " -p" dropped from its name. */
  function FreshProtocol(ent: Entry, def: CompoundDef): Def {
    var b := EntToBaseNode(ent, def);
    ProtocolDef(ProtocolType(b.(name := TrimSuffix(b.name, " -p")), [], []))
  }

  /**
   * `loadDoxyStruct`: the definition under the entry's refid is replaced (a
   * placeholder created by an earlier reference is overwritten in place, so
   * references see the loaded struct), then its sections are loaded.
   */
  function LoadStruct(st: Store, ent: Entry): Outcome {
    match ent.decoded
    case Err(msg) => Outcome(st, Some(msg))
    case Ok(def) =>
      LoadSections(st.(types := st.types[ent.refid := FreshStruct(ent, def)]), ent.refid, def.sections)
  }

  /** `loadDoxyProtocol`, likewise for a protocol. */
  function LoadProtocol(st: Store, ent: Entry): Outcome {
    match ent.decoded
    case Err(msg) => Outcome(st, Some(msg))
    case Ok(def) =>
      LoadSections(st.(types := st.types[ent.refid := FreshProtocol(ent, def)]), ent.refid, def.sections)
  }

  /** The function sections of a file. */
  function FileSections(st: Store, secs: seq<SectionDef>): Store
    decreases |secs|
  {
    if secs == [] then st
    else if secs[0].kind == "func" || secs[0].kind == "public-func" then
      FileSections(LoadFuncs(st, secs[0].members), secs[1..])
    else FileSections(st, secs[1..])
  }

  /** `loadDoxyFile`: a file is recorded once; then its function sections are loaded. */
  function LoadFile(st: Store, ent: Entry): Outcome {
    match ent.decoded
    case Err(msg) => Outcome(st, Some(msg))
    case Ok(def) =>
      if ent.refid in st.files then Outcome(st, Some("duplicated file definition"))
      else Outcome(FileSections(st.(files := st.files[ent.refid := EntToBaseNode(ent, def)]), def.sections), None)
  }

  // ---------------------------------------------------------------------------
  // LoadDoxygen
  // ---------------------------------------------------------------------------

  /** The entry kinds that are loaded as structs. */
  predicate IsStructKind(k: CompoundKind) {
    k == Struct || k == Class || k == Interface
  }

  /** One index entry, dispatched on its kind; other kinds (protocols among them) are ignored. */
  function LoadEntry(st: Store, ent: Entry): Outcome {
    if IsStructKind(ent.kind) then LoadStruct(st, ent)
    else if ent.kind == File then LoadFile(st, ent)
    else Outcome(st, None)
  }

  /** The entries in order, up to the first error. */
  function LoadEntries(st: Store, es: seq<Entry>): Outcome
    decreases |es|
  {
    if es == [] then Outcome(st, None)
    else
      var o := LoadEntry(st, es[0]);
      if o.err.Some? then o else LoadEntries(o.st, es[1..])
  }

  /** The first pass of `LoadDoxygen`: opening the index, then loading every entry. */
  function LoadIndex(st: Store, index: Result<seq<Entry>>): Outcome {
    match index
    case Err(msg) => Outcome(st, Some(msg))
    case Ok(es) => LoadEntries(st, es)
  }

  // ---------------------------------------------------------------------------
  // attachMethods
  // ---------------------------------------------------------------------------

  /** A function after `ensureGoName`. */
  function Named(f: Function): (g: Function)
    ensures g == f.(base := g.base) && GoNameOf(g.base) == GoNameOf(f.base)
  {
    f.(base := EnsureGoName(f.base).1)
  }

  /** The struct a receiver name designates, if it is one in the table. */
  predicate Designates(types: map<string, Def>, structByName: string -> Option<string>, recv: string, ref: string) {
    structByName(recv) == Some(ref) && ref in types && types[ref].StructDef?
  }

  /** One function of `attachMethods`: named, and appended to its receiver's struct when there is one. */
  function AttachOne(st: Store, structByName: string -> Option<string>, k: string): (r: Store)
    requires k in st.funcs
    ensures r.files == st.files && r.funcs.Keys == st.funcs.Keys && r.types.Keys == st.types.Keys
  {
    var f := st.funcs[k];
    if f.receiver == "" then st
    else
      var g := Named(f);
      var funcs := st.funcs[k := g];
      var s := structByName(f.receiver);
      if s.Some? && Designates(st.types, structByName, f.receiver, s.value) then
        Store(st.types[s.value := StructDef(AppendMethod(st.types[s.value].st, g))], st.files, funcs)
      else st.(funcs := funcs)
  }

  /** `attachMethods` visiting the functions table in the order `order`. */
  function Attach(st: Store, structByName: string -> Option<string>, order: seq<string>): (r: Store)
    requires forall i :: 0 <= i < |order| ==> order[i] in st.funcs
    ensures r.files == st.files && r.funcs.Keys == st.funcs.Keys && r.types.Keys == st.types.Keys
    decreases |order|
  {
    if order == [] then st
    else Attach(AttachOne(st, structByName, order[0]), structByName, order[1..])
  }

  /** Visiting one more function is one more step at the end. */
  lemma {:induction false} AttachSnoc(st: Store, structByName: string -> Option<string>, order: seq<string>, k: string)
    requires forall i :: 0 <= i < |order| ==> order[i] in st.funcs
    requires k in st.funcs
    ensures Attach(st, structByName, order + [k]) == AttachOne(Attach(st, structByName, order), structByName, k)
    decreases |order|
  {
    if order == [] {
      assert [] + [k] == [k];
    } else {
      var st1 := AttachOne(st, structByName, order[0]);
      assert (order + [k])[0] == order[0] && (order + [k])[1..] == order[1..] + [k];
      AttachSnoc(st1, structByName, order[1..], k);
    }
  }

  /** `order` visits every key of `keys` exactly once. */
  predicate IsOrder(order: seq<string>, keys: set<string>) {
    (forall i :: 0 <= i < |order| ==> order[i] in keys) &&
    (forall k :: k in keys ==> k in order) &&
    (forall i, j :: 0 <= i < j < |order| ==> order[i] != order[j])
  }

  // ---------------------------------------------------------------------------
  // Properties of loadFuncs
  // ---------------------------------------------------------------------------

  lemma FuncKeysCons(ms: seq<MemberDef>)
    requires ms != []
    ensures FuncKeys(ms) == (if ms[0].kind == "function" then {MemberKey(ms[0])} else {}) + FuncKeys(ms[1..])
  {
    var rest := ms[1..];
    forall k | k in FuncKeys(ms)
      ensures k in (if ms[0].kind == "function" then {MemberKey(ms[0])} else {}) + FuncKeys(rest)
    {
      var i :| 0 <= i < |ms| && ms[i].kind == "function" && MemberKey(ms[i]) == k;
      if i > 0 {
        assert rest[i - 1] == ms[i];
      }
    }
    forall k | k in FuncKeys(rest)
      ensures k in FuncKeys(ms)
    {
      var i :| 0 <= i < |rest| && rest[i].kind == "function" && MemberKey(rest[i]) == k;
      assert ms[i + 1] == rest[i];
    }
  }

  /**
   * `loadFuncs` stores every function member under receiver + "::" + name and
   * touches no other key and no file.
   */
  lemma LoadFuncsKeys(st: Store, ms: seq<MemberDef>)
    ensures LoadFuncs(st, ms).funcs.Keys == st.funcs.Keys + FuncKeys(ms)
    ensures forall k :: k in st.funcs && k !in FuncKeys(ms) ==> LoadFuncs(st, ms).funcs[k] == st.funcs[k]
    ensures LoadFuncs(st, ms).files == st.files
  {
    LoadFuncsKeySet(st, ms);
    LoadFuncsKeepsOthers(st, ms);
    LoadFuncsFiles(st, ms);
  }

  lemma {:induction false} LoadFuncsKeySet(st: Store, ms: seq<MemberDef>)
    ensures LoadFuncs(st, ms).funcs.Keys == st.funcs.Keys + FuncKeys(ms)
    decreases |ms|
  {
    if ms != [] {
      FuncKeysCons(ms);
      LoadMemberKeys(st, ms[0]);
      LoadFuncsKeySet(LoadMember(st, ms[0]), ms[1..]);
    }
  }

  lemma {:induction false} LoadFuncsKeepsOthers(st: Store, ms: seq<MemberDef>)
    ensures forall k :: k in st.funcs && k !in FuncKeys(ms) ==>
      k in LoadFuncs(st, ms).funcs && LoadFuncs(st, ms).funcs[k] == st.funcs[k]
    decreases |ms|
  {
    if ms != [] {
      var st1 := LoadMember(st, ms[0]);
      FuncKeysCons(ms);
      LoadMemberKeys(st, ms[0]);
      LoadFuncsKeepsOthers(st1, ms[1..]);
      forall k | k in st.funcs && k !in FuncKeys(ms)
        ensures k in LoadFuncs(st, ms).funcs && LoadFuncs(st, ms).funcs[k] == st.funcs[k]
      {
        assert k in st1.funcs && k !in FuncKeys(ms[1..]);
      }
    }
  }

  lemma {:induction false} LoadFuncsFiles(st: Store, ms: seq<MemberDef>)
    ensures LoadFuncs(st, ms).files == st.files
    decreases |ms|
  {
    if ms != [] {
      LoadFuncsFiles(LoadMember(st, ms[0]), ms[1..]);
    }
  }

  /** One member: a function is stored under its key, and nothing else changes. */
  lemma LoadMemberKeys(st: Store, m: MemberDef)
    ensures LoadMember(st, m).funcs.Keys == st.funcs.Keys + (if m.kind == "function" then {MemberKey(m)} else {})
    ensures forall k :: k in st.funcs && (m.kind != "function" || k != MemberKey(m)) ==> LoadMember(st, m).funcs[k] == st.funcs[k]
    ensures LoadMember(st, m).files == st.files
  {
  }

  /** A later function with the same key replaces an earlier one: the last one wins. */
  lemma {:induction false} LoadFuncsLastWins(st: Store, ms: seq<MemberDef>, i: nat)
    requires i < |ms| && ms[i].kind == "function"
    requires forall j :: i < j < |ms| && ms[j].kind == "function" ==> MemberKey(ms[j]) != MemberKey(ms[i])
    ensures MemberKey(ms[i]) in LoadFuncs(st, ms).funcs
    ensures LoadFuncs(st, ms).funcs[MemberKey(ms[i])] == MemberFunction(ms[i])
    decreases |ms|
  {
    var st1 := LoadMember(st, ms[0]);
    if i == 0 {
      var rest := ms[1..];
      forall k | k in FuncKeys(rest)
        ensures k != MemberKey(ms[0])
      {
        var j :| 0 <= j < |rest| && rest[j].kind == "function" && MemberKey(rest[j]) == k;
        assert rest[j] == ms[j + 1];
      }
      LoadFuncsKeys(st1, rest);
    } else {
      LoadFuncsLastWins(st1, ms[1..], i - 1);
    }
  }

  /** Resolving a member's types only adds placeholders for its cross-references. */
  lemma MemberStoreOnlyPlaceholders(types: map<string, Def>, m: MemberDef)
    ensures var r := MemberStore(types, m);
      types.Keys <= r.Keys && (forall k :: k in types ==> r[k] == types[k]) &&
      (forall k :: k in r && k !in types ==> r[k] == Placeholder(k))
  {
    LinkStoreOnlyPlaceholders(types, m.typ);
    ParamsStoreOnlyPlaceholders(LinkStore(types, m.typ), m.params);
  }

  /** `loadFuncs` leaves every stored definition as it was and adds placeholders only. */
  lemma {:induction false} LoadFuncsOnlyPlaceholders(st: Store, ms: seq<MemberDef>)
    ensures var r := LoadFuncs(st, ms).types;
      st.types.Keys <= r.Keys && (forall k :: k in st.types ==> r[k] == st.types[k]) &&
      (forall k :: k in r && k !in st.types ==> r[k] == Placeholder(k))
    decreases |ms|
  {
    if ms != [] {
      if ms[0].kind == "function" {
        MemberStoreOnlyPlaceholders(st.types, ms[0]);
      }
      LoadFuncsOnlyPlaceholders(LoadMember(st, ms[0]), ms[1..]);
    }
  }

  /**
   * The stored return type, re-wrapped when the function is extern, is the
   * resolved return type: an appkitExtern result is unwrapped and marks the
   * function extern, and no other result does.
   */
  lemma ExternUnwrapped(m: MemberDef)
    ensures var f := MemberFunction(m);
      (f.isExtern ==> LinkType(m.typ) == Some(AppkitExtern(f.typ.ret))) &&
      (!f.isExtern ==> f.typ.ret == LinkType(m.typ) && !(f.typ.ret.Some? && f.typ.ret.value.AppkitExtern?))
  {
  }

  /**
   * The arguments follow the parameters in order, with their declared names;
   * an array parameter's type is an array of unknown size around it.
   */
  lemma ArgsFollowParams(m: MemberDef)
    ensures var args := MemberFunction(m).typ.args;
      |args| == |m.params| &&
      forall i :: 0 <= i < |m.params| ==>
        args[i].name == m.params[i].declname &&
        (m.params[i].arrayText == "" ==> args[i].typ == LinkType(m.params[i].typ)) &&
        (m.params[i].arrayText != "" ==> args[i].typ == Some(Array("", LinkType(m.params[i].typ))))
  {
  }

  // ---------------------------------------------------------------------------
  // Properties of loadDoxyObject
  // ---------------------------------------------------------------------------

  /** A protocol hosts no attributes: an attribute section is an error, and nothing is loaded. */
  lemma ProtocolRejectsAttributes(st: Store, host: string, sec: SectionDef)
    requires host in st.types && st.types[host].ProtocolDef? && sec.kind in AttribKinds
    ensures LoadSection(st, host, sec) == Outcome(st, Some("*generator.ProtocolType cannot host attributes"))
  {
    ProtocolMessage();
  }

  lemma ProtocolMessage()
    ensures "*generator.ProtocolType" + " cannot host attributes" == "*generator.ProtocolType cannot host attributes"
  {
  }

  /** Exactly the three static kinds among the six attribute kinds are static. */
  lemma StaticKinds(kind: string)
    requires kind in AttribKinds
    ensures IsStaticKind(kind) <==>
      kind == "public-static-attrib" || kind == "protected-static-attrib" || kind == "private-static-attrib"
  {
    if kind == "public-static-attrib" {
      PublicStatic();
    } else if kind == "protected-static-attrib" {
      ProtectedStatic();
    } else if kind == "private-static-attrib" {
      PrivateStatic();
    } else if kind == "public-attrib" {
      PublicNotStatic();
    } else if kind == "protected-attrib" {
      ProtectedNotStatic();
    } else {
      PrivateNotStatic();
    }
  }

  lemma PublicStatic()
    ensures IsStaticKind("public-static-attrib")
  {
    assert "public-static-attrib" == "public-" + "static" + "-attrib";
    StaticIn("public-", "-attrib");
  }

  lemma ProtectedStatic()
    ensures IsStaticKind("protected-static-attrib")
  {
    assert "protected-static-attrib" == "protected-" + "static" + "-attrib";
    StaticIn("protected-", "-attrib");
  }

  lemma PrivateStatic()
    ensures IsStaticKind("private-static-attrib")
  {
    assert "private-static-attrib" == "private-" + "static" + "-attrib";
    StaticIn("private-", "-attrib");
  }

  lemma PublicNotStatic()
    ensures !IsStaticKind("public-attrib")
  {
    NoStatic("public-attrib");
  }

  lemma ProtectedNotStatic()
    ensures !IsStaticKind("protected-attrib")
  {
    NoStatic("protected-attrib");
  }

  lemma PrivateNotStatic()
    ensures !IsStaticKind("private-attrib")
  {
    NoStatic("private-attrib");
  }

  lemma StaticIn(a: string, b: string)
    ensures IsStaticKind(a + "static" + b)
  {
    var kind := a + "static" + b;
    assert kind[|a|..|a| + 6] == "static";
    assert OccursAt(kind, "static", |a|);
  }

  lemma NoStatic(kind: string)
    requires 's' !in kind
    ensures !IsStaticKind(kind)
  {
    forall j | 0 <= j && j + 6 <= |kind|
      ensures !OccursAt(kind, "static", j)
    {
      assert kind[j..j + 6][0] == kind[j];
    }
  }

  /** The attributes an attribute section's members become, in order. */
  function SectionAttributes(ms: seq<MemberDef>, isStatic: bool): seq<Attribute> {
    seq(|ms|, i requires 0 <= i < |ms| => MemberAttribute(ms[i], isStatic))
  }

  /** The properties a property section's members become, in order. */
  function SectionProperties(ms: seq<MemberDef>): seq<Property> {
    seq(|ms|, i requires 0 <= i < |ms| => MemberProperty(ms[i]))
  }

  lemma SectionAttributesCons(ms: seq<MemberDef>, isStatic: bool)
    requires ms != []
    ensures SectionAttributes(ms, isStatic) == [MemberAttribute(ms[0], isStatic)] + SectionAttributes(ms[1..], isStatic)
  {
  }

  lemma SectionPropertiesCons(ms: seq<MemberDef>)
    requires ms != []
    ensures SectionProperties(ms) == [MemberProperty(ms[0])] + SectionProperties(ms[1..])
  {
  }

  /** The members of an attribute section are appended to the host in order, and nothing else of it changes. */
  lemma {:induction false} AddAttributesAppends(types: map<string, Def>, host: string, ms: seq<MemberDef>, isStatic: bool)
    requires host in types && HostsAttributes(types[host])
    ensures var d := AddAttributes(types, host, ms, isStatic)[host];
      d == StructDef(types[host].st.(attributes := types[host].st.attributes + SectionAttributes(ms, isStatic)))
    decreases |ms|
  {
    if ms != [] {
      var a := MemberAttribute(ms[0], isStatic);
      var t2 := AddAttribute(types, host, ms[0], isStatic);
      assert t2[host] == StructDef(types[host].st.(attributes := types[host].st.attributes + [a]));
      AddAttributesAppends(t2, host, ms[1..], isStatic);
      SectionAttributesCons(ms, isStatic);
      AppendAssoc(types[host].st.attributes, [a], SectionAttributes(ms[1..], isStatic));
    } else {
      assert SectionAttributes(ms, isStatic) == [];
      assert types[host].st.attributes + [] == types[host].st.attributes;
    }
  }

  lemma AppendAssoc<T>(a: seq<T>, b: seq<T>, c: seq<T>)
    ensures a + b + c == a + (b + c)
  {
  }

  /** The properties of a definition. */
  function PropertiesOf(d: Def): seq<Property> {
    match d
    case StructDef(s) => s.properties
    case ProtocolDef(p) => p.properties
  }

  /** The members of a property section are appended to the host in order. */
  lemma {:induction false} AddPropertiesAppends(types: map<string, Def>, host: string, ms: seq<MemberDef>)
    requires host in types
    ensures PropertiesOf(AddProperties(types, host, ms)[host]) == PropertiesOf(types[host]) + SectionProperties(ms)
    decreases |ms|
  {
    if ms != [] {
      var q := MemberProperty(ms[0]);
      var t2 := AddProperty(types, host, ms[0]);
      assert PropertiesOf(t2[host]) == PropertiesOf(types[host]) + [q];
      AddPropertiesAppends(t2, host, ms[1..]);
      SectionPropertiesCons(ms);
      AppendAssoc(PropertiesOf(types[host]), [q], SectionProperties(ms[1..]));
    } else {
      assert SectionProperties(ms) == [];
      assert PropertiesOf(types[host]) + [] == PropertiesOf(types[host]);
    }
  }

  /** Every section of a struct loads: a struct hosts attributes, properties and methods. */
  lemma {:induction false} StructSectionsLoad(st: Store, host: string, secs: seq<SectionDef>)
    requires host in st.types && st.types[host].StructDef?
    ensures LoadSections(st, host, secs).err == None
    decreases |secs|
  {
    if secs != [] {
      var o := LoadSection(st, host, secs[0]);
      StructSectionsLoad(o.st, host, secs[1..]);
    }
  }

  /** The sections of a protocol fail exactly when one of them holds attributes. */
  lemma {:induction false} ProtocolSectionsFail(st: Store, host: string, secs: seq<SectionDef>)
    requires host in st.types && st.types[host].ProtocolDef?
    ensures var o := LoadSections(st, host, secs);
      (o.err.Some? <==> exists i :: 0 <= i < |secs| && secs[i].kind in AttribKinds) &&
      (o.err.Some? ==> o.err == Some("*generator.ProtocolType cannot host attributes"))
    decreases |secs|
  {
    if secs != [] {
      var o := LoadSection(st, host, secs[0]);
      ProtocolSectionStep(st, host, secs[0]);
      if o.err.None? {
        ProtocolSectionsFail(o.st, host, secs[1..]);
        if exists i :: 0 <= i < |secs[1..]| && secs[1..][i].kind in AttribKinds {
          var i :| 0 <= i < |secs[1..]| && secs[1..][i].kind in AttribKinds;
          assert secs[i + 1] == secs[1..][i];
        }
        if exists i :: 0 <= i < |secs| && secs[i].kind in AttribKinds {
          var i :| 0 <= i < |secs| && secs[i].kind in AttribKinds;
          assert i > 0;
          assert secs[1..][i - 1] == secs[i];
        }
      }
    }
  }

  /** One section of a protocol fails exactly when it holds attributes, and the host stays a protocol. */
  lemma ProtocolSectionStep(st: Store, host: string, sec: SectionDef)
    requires host in st.types && st.types[host].ProtocolDef?
    ensures var o := LoadSection(st, host, sec);
      host in o.st.types && o.st.types[host].ProtocolDef? &&
      (o.err.Some? <==> sec.kind in AttribKinds) &&
      (o.err.Some? ==> o.err == Some("*generator.ProtocolType cannot host attributes"))
  {
    if sec.kind in AttribKinds {
      ProtocolRejectsAttributes(st, host, sec);
    }
  }

  // ---------------------------------------------------------------------------
  // Properties of the entry loaders
  // ---------------------------------------------------------------------------

  /**
   * A decoded struct entry always loads. Its refid then holds the entry's
   * header and class-ness, which every reference to it now sees. No
   * definition is removed, and every other definition keeps its header.
   */
  lemma LoadStructResult(st: Store, ent: Entry, def: CompoundDef)
    requires ent.decoded == Ok(def)
    ensures var o := LoadStruct(st, ent);
      o.err == None &&
      st.types.Keys + {ent.refid} <= o.st.types.Keys &&
      o.st.types[ent.refid].StructDef? &&
      BaseOf(Lookup(o.st.types, ent.refid)) == EntToBaseNode(ent, def) &&
      o.st.types[ent.refid].st.isClass == (ent.kind == Class) &&
      forall k :: k in st.types && k != ent.refid ==> SameHeader(st.types[k], o.st.types[k])
  {
    var st1 := st.(types := st.types[ent.refid := FreshStruct(ent, def)]);
    StructSectionsLoad(st1, ent.refid, def.sections);
  }

  /**
   * A decoded protocol entry keeps its refid's place in the table under the
   * name without " -p". It fails exactly when it has an attribute section.
   */
  lemma LoadProtocolResult(st: Store, ent: Entry, def: CompoundDef)
    requires ent.decoded == Ok(def)
    ensures var o := LoadProtocol(st, ent);
      ent.refid in o.st.types && o.st.types[ent.refid].ProtocolDef? &&
      BaseOf(o.st.types[ent.refid]).name == TrimSuffix(ent.name, " -p") &&
      (o.err.Some? <==> exists i :: 0 <= i < |def.sections| && def.sections[i].kind in AttribKinds)
  {
    var st1 := st.(types := st.types[ent.refid := FreshProtocol(ent, def)]);
    ProtocolSectionsFail(st1, ent.refid, def.sections);
  }

  /** The function sections of a file leave the file table alone. */
  lemma {:induction false} FileSectionsFiles(st: Store, secs: seq<SectionDef>)
    ensures FileSections(st, secs).files == st.files
    decreases |secs|
  {
    if secs != [] {
      if secs[0].kind == "func" || secs[0].kind == "public-func" {
        LoadFuncsKeys(st, secs[0].members);
        FileSectionsFiles(LoadFuncs(st, secs[0].members), secs[1..]);
      } else {
        FileSectionsFiles(st, secs[1..]);
      }
    }
  }

  /**
   * A decoded file entry fails exactly when its refid was already recorded,
   * and then changes nothing; otherwise it records the file under the refid.
   */
  lemma LoadFileResult(st: Store, ent: Entry, def: CompoundDef)
    requires ent.decoded == Ok(def)
    ensures var o := LoadFile(st, ent);
      (o.err.Some? <==> ent.refid in st.files) &&
      (o.err.Some? ==> o == Outcome(st, Some("duplicated file definition"))) &&
      (o.err.None? ==> o.st.files == st.files[ent.refid := EntToBaseNode(ent, def)])
  {
    if ent.refid !in st.files {
      FileSectionsFiles(st.(files := st.files[ent.refid := EntToBaseNode(ent, def)]), def.sections);
    }
  }

  /** Loading `a + b` is loading `a` and, unless that failed, loading `b` from there. */
  lemma {:induction false} LoadEntriesAppend(st: Store, a: seq<Entry>, b: seq<Entry>)
    ensures LoadEntries(st, a + b) ==
      var o := LoadEntries(st, a); if o.err.Some? then o else LoadEntries(o.st, b)
    decreases |a|
  {
    if a == [] {
      assert a + b == b;
    } else {
      assert (a + b)[0] == a[0];
      assert (a + b)[1..] == a[1..] + b;
      var o := LoadEntry(st, a[0]);
      if o.err.None? {
        LoadEntriesAppend(o.st, a[1..], b);
      }
    }
  }

  /** The first error is returned, and the entries after it are never looked at. */
  lemma FirstErrorStops(st: Store, a: seq<Entry>, e: Entry, b: seq<Entry>)
    requires LoadEntries(st, a).err == None
    requires LoadEntry(LoadEntries(st, a).st, e).err.Some?
    ensures LoadEntries(st, a + [e] + b) == LoadEntry(LoadEntries(st, a).st, e)
  {
    LoadEntriesAppend(st, a, [e] + b);
    assert a + [e] + b == a + ([e] + b);
    var o := LoadEntries(st, a);
    assert ([e] + b)[0] == e;
  }

  /** Protocol entries, and every kind other than struct, class, interface and file, are ignored. */
  lemma IgnoredEntries(st: Store, ent: Entry)
    requires !IsStructKind(ent.kind) && ent.kind != File
    ensures LoadEntry(st, ent) == Outcome(st, None)
  {
  }

  lemma {:induction false} FileSectionsGrows(st: Store, secs: seq<SectionDef>)
    ensures Grows(st.types, FileSections(st, secs).types)
    decreases |secs|
  {
    if secs != [] {
      if secs[0].kind == "func" || secs[0].kind == "public-func" {
        var st1 := LoadFuncs(st, secs[0].members);
        LoadFuncsOnlyPlaceholders(st, secs[0].members);
        FileSectionsGrows(st1, secs[1..]);
        GrowsTransitive(st.types, st1.types, FileSections(st, secs).types);
      } else {
        FileSectionsGrows(st, secs[1..]);
      }
    }
  }

  lemma LoadEntryAllStructs(st: Store, ent: Entry)
    requires AllStructs(st.types)
    ensures AllStructs(LoadEntry(st, ent).st.types)
  {
    if ent.decoded.Ok? {
      var def := ent.decoded.value;
      if IsStructKind(ent.kind) {
        var st1 := st.(types := st.types[ent.refid := FreshStruct(ent, def)]);
        assert AllStructs(st1.types);
      } else if ent.kind == File && ent.refid !in st.files {
        FileSectionsGrows(st.(files := st.files[ent.refid := EntToBaseNode(ent, def)]), def.sections);
      }
    }
  }

  /**
   * Struct, class and interface entries hold structs, a forward reference
   * creates a struct placeholder, and protocol entries are never loaded: a
   * table of structs stays one.
   */
  lemma {:induction false} OnlyStructsStored(st: Store, es: seq<Entry>)
    requires AllStructs(st.types)
    ensures AllStructs(LoadEntries(st, es).st.types)
    decreases |es|
  {
    if es != [] {
      LoadEntryAllStructs(st, es[0]);
      var o := LoadEntry(st, es[0]);
      if o.err.None? {
        OnlyStructsStored(o.st, es[1..]);
      }
    }
  }

  // ---------------------------------------------------------------------------
  // Properties of attachMethods
  // ---------------------------------------------------------------------------

  /** A function after `attachMethods`: a method is named, a free function left alone. */
  function Attached(f: Function): Function {
    if f.receiver == "" then f else Named(f)
  }

  /** The functions attached to the struct `ref` while visiting `order`, in that order. */
  function AttachedTo(st: Store, structByName: string -> Option<string>, order: seq<string>, ref: string): seq<Function>
    decreases |order|
  {
    if order == [] then []
    else
      var piece :=
        if order[0] in st.funcs && st.funcs[order[0]].receiver != "" &&
          Designates(st.types, structByName, st.funcs[order[0]].receiver, ref)
        then [Named(st.funcs[order[0]])]
        else [];
      piece + AttachedTo(st, structByName, order[1..], ref)
  }

  /** The attached functions depend only on the visited functions and on which refids are structs. */
  lemma {:induction false} AttachedToFrame(st: Store, st': Store, structByName: string -> Option<string>, order: seq<string>, ref: string)
    requires st'.funcs.Keys == st.funcs.Keys
    requires forall i :: 0 <= i < |order| && order[i] in st.funcs ==> st'.funcs[order[i]] == st.funcs[order[i]]
    requires st'.types.Keys == st.types.Keys
    requires forall k :: k in st.types ==> st'.types[k].StructDef? == st.types[k].StructDef?
    ensures AttachedTo(st', structByName, order, ref) == AttachedTo(st, structByName, order, ref)
    decreases |order|
  {
    if order != [] {
      assert forall i :: 0 <= i < |order[1..]| ==> order[1..][i] == order[i + 1];
      AttachedToFrame(st, st', structByName, order[1..], ref);
    }
  }

  lemma {:induction false} AttachedToAppend(st: Store, structByName: string -> Option<string>, a: seq<string>, b: seq<string>, ref: string)
    ensures AttachedTo(st, structByName, a + b, ref) == AttachedTo(st, structByName, a, ref) + AttachedTo(st, structByName, b, ref)
    decreases |a|
  {
    if a == [] {
      assert a + b == b;
    } else {
      assert (a + b)[0] == a[0];
      assert (a + b)[1..] == a[1..] + b;
      AttachedToAppend(st, structByName, a[1..], b, ref);
    }
  }

  /** The methods `attachMethods` appends to the struct `ref`, with their names filled. */
  lemma {:induction false} AttachFuncsClosedForm(st: Store, structByName: string -> Option<string>, order: seq<string>)
    requires forall i :: 0 <= i < |order| ==> order[i] in st.funcs
    requires forall i, j :: 0 <= i < j < |order| ==> order[i] != order[j]
    ensures var r := Attach(st, structByName, order);
      forall k :: k in st.funcs ==> r.funcs[k] == if k in order then Attached(st.funcs[k]) else st.funcs[k]
    decreases |order|
  {
    if order != [] {
      var k0 := order[0];
      var st1 := AttachOne(st, structByName, k0);
      var rest := order[1..];
      OrderTail(order, st.funcs.Keys);
      AttachOneFuncs(st, structByName, k0);
      AttachFuncsClosedForm(st1, structByName, rest);
      var r := Attach(st, structByName, order);
      assert r == Attach(st1, structByName, rest);
      forall k | k in st.funcs
        ensures r.funcs[k] == if k in order then Attached(st.funcs[k]) else st.funcs[k]
      {
        assert k in order <==> k == k0 || k in rest;
      }
    }
  }

  /** Visiting the first key of a repetition-free order leaves the rest to visit, none of them that key. */
  lemma OrderTail(order: seq<string>, keys: set<string>)
    requires order != []
    requires forall i :: 0 <= i < |order| ==> order[i] in keys
    requires forall i, j :: 0 <= i < j < |order| ==> order[i] != order[j]
    ensures order == [order[0]] + order[1..] && order[0] !in order[1..]
    ensures forall i :: 0 <= i < |order[1..]| ==> order[1..][i] in keys
    ensures forall i, j :: 0 <= i < j < |order[1..]| ==> order[1..][i] != order[1..][j]
  {
    var rest := order[1..];
    assert forall i :: 0 <= i < |rest| ==> rest[i] == order[i + 1];
  }

  /** One step of `attachMethods` names the visited function and changes no other. */
  lemma AttachOneFuncs(st: Store, structByName: string -> Option<string>, k0: string)
    requires k0 in st.funcs
    ensures forall k :: k in st.funcs ==>
      AttachOne(st, structByName, k0).funcs[k] == if k == k0 then Attached(st.funcs[k]) else st.funcs[k]
  {
  }

  /** A definition with `extra` appended to its methods when it is a struct. */
  function WithMethods(d: Def, extra: seq<Function>): Def {
    if d.StructDef? then StructDef(d.st.(methods := d.st.methods + extra)) else d
  }

  lemma WithMethodsAppend(d: Def, a: seq<Function>, b: seq<Function>)
    ensures WithMethods(WithMethods(d, a), b) == WithMethods(d, a + b)
    ensures WithMethods(d, a).StructDef? == d.StructDef?
  {
    if d.StructDef? {
      assert d.st.methods + a + b == d.st.methods + (a + b);
    }
  }

  /**
   * The closed form of `attachMethods` over an order visiting each key at most
   * once: each struct gains, after its methods, the visited functions whose
   * receiver designates it; free functions and functions of unknown receivers
   * are attached nowhere, and no duplicate check applies.
   */
  lemma {:induction false} AttachTypesClosedForm(st: Store, structByName: string -> Option<string>, order: seq<string>)
    requires forall i :: 0 <= i < |order| ==> order[i] in st.funcs
    requires forall i, j :: 0 <= i < j < |order| ==> order[i] != order[j]
    ensures var r := Attach(st, structByName, order);
      forall ref :: ref in st.types ==>
        r.types[ref] == WithMethods(st.types[ref], AttachedTo(st, structByName, order, ref))
    decreases |order|
  {
    if order != [] {
      var k0 := order[0];
      var st1 := AttachOne(st, structByName, k0);
      var rest := order[1..];
      OrderTail(order, st.funcs.Keys);
      AttachTypesClosedForm(st1, structByName, rest);
      AttachOneFrame(st, structByName, k0);
      forall ref | ref in st.types
        ensures Attach(st, structByName, order).types[ref] == WithMethods(st.types[ref], AttachedTo(st, structByName, order, ref))
      {
        AttachedToFrame(st, st1, structByName, rest, ref);
        AttachOneTypes(st, structByName, k0, ref);
        AttachedToAppend(st, structByName, [k0], rest, ref);
        assert order == [k0] + rest;
        WithMethodsAppend(st.types[ref], AttachedTo(st, structByName, [k0], ref), AttachedTo(st, structByName, rest, ref));
      }
    }
  }

  /** One step of `attachMethods` changes no other function and keeps structs structs. */
  lemma AttachOneFrame(st: Store, structByName: string -> Option<string>, k: string)
    requires k in st.funcs
    ensures var st1 := AttachOne(st, structByName, k);
      (forall k' :: k' in st.funcs && k' != k ==> st1.funcs[k'] == st.funcs[k']) &&
      (forall r :: r in st.types ==> st1.types[r].StructDef? == st.types[r].StructDef?)
  {
  }

  /** One step of `attachMethods` on the definition under `ref`. */
  lemma AttachOneTypes(st: Store, structByName: string -> Option<string>, k: string, ref: string)
    requires k in st.funcs && ref in st.types
    ensures AttachOne(st, structByName, k).types[ref] == WithMethods(st.types[ref], AttachedTo(st, structByName, [k], ref))
  {
    assert [k][1..] == [];
    var piece := AttachedTo(st, structByName, [k], ref);
    if st.types[ref].StructDef? && piece == [] {
      assert st.types[ref].st.methods + piece == st.types[ref].st.methods;
    }
  }

  lemma RemoveAt(s: seq<string>, j: nat)
    requires j < |s|
    ensures s == s[..j] + ([s[j]] + s[j + 1..])
    ensures multiset(s) == multiset(s[..j] + s[j + 1..]) + multiset{s[j]}
  {
    assert s == s[..j] + [s[j]] + s[j + 1..];
  }

  /** Visiting the functions in another order attaches the same functions to each struct. */
  lemma {:induction false} AttachedToPermutation(st: Store, structByName: string -> Option<string>, o1: seq<string>, o2: seq<string>, ref: string)
    requires multiset(o1) == multiset(o2)
    ensures multiset(AttachedTo(st, structByName, o1, ref)) == multiset(AttachedTo(st, structByName, o2, ref))
    decreases |o1|
  {
    if o1 == [] {
      assert |o2| == |multiset(o2)| == 0;
    } else {
      var x := o1[0];
      assert x in multiset(o2);
      var j :| 0 <= j < |o2| && o2[j] == x;
      var left, right := o2[..j], o2[j + 1..];
      RemoveAt(o2, j);
      RemoveHead(o1, o2, j);
      AttachedToPermutation(st, structByName, o1[1..], left + right, ref);
      AttachedToHead(st, structByName, o1, ref);
      AttachedToMove(st, structByName, x, left, right, ref);
      assert AttachedTo(st, structByName, o2, ref) == AttachedTo(st, structByName, left + ([x] + right), ref);
    }
  }

  /** What is attached while visiting `o` is what its head attaches, then what its tail does. */
  lemma AttachedToHead(st: Store, structByName: string -> Option<string>, o: seq<string>, ref: string)
    requires o != []
    ensures multiset(AttachedTo(st, structByName, o, ref)) ==
      multiset(AttachedTo(st, structByName, [o[0]], ref)) + multiset(AttachedTo(st, structByName, o[1..], ref))
  {
    assert o == [o[0]] + o[1..];
    AttachedToAppend(st, structByName, [o[0]], o[1..], ref);
  }

  /** Taking the head of `o1` out of `o2`, where it stands at `j`, leaves the same multiset as its tail. */
  lemma RemoveHead(o1: seq<string>, o2: seq<string>, j: nat)
    requires multiset(o1) == multiset(o2) && o1 != [] && j < |o2| && o2[j] == o1[0]
    ensures multiset(o1[1..]) == multiset(o2[..j] + o2[j + 1..])
  {
    var x := o1[0];
    RemoveAt(o2, j);
    assert o1 == [x] + o1[1..];
    var rest := o2[..j] + o2[j + 1..];
    forall y
      ensures multiset(o1[1..])[y] == multiset(rest)[y]
    {
      assert multiset(o1)[y] == multiset{x}[y] + multiset(o1[1..])[y];
      assert multiset(o2)[y] == multiset(rest)[y] + multiset{x}[y];
    }
  }

  /** Where `x` stands among the visited functions changes only the order of what is attached. */
  lemma AttachedToMove(st: Store, structByName: string -> Option<string>, x: string, left: seq<string>, right: seq<string>, ref: string)
    ensures multiset(AttachedTo(st, structByName, left + ([x] + right), ref)) ==
      multiset(AttachedTo(st, structByName, [x], ref)) + multiset(AttachedTo(st, structByName, left + right, ref))
  {
    AttachedToAppend(st, structByName, left, [x] + right, ref);
    AttachedToAppend(st, structByName, [x], right, ref);
    AttachedToAppend(st, structByName, left, right, ref);
  }

  /** Two orders of the same keys are permutations of each other. */
  lemma OrdersPermute(o1: seq<string>, o2: seq<string>, keys: set<string>)
    requires IsOrder(o1, keys) && IsOrder(o2, keys)
    ensures multiset(o1) == multiset(o2)
  {
    forall x
      ensures multiset(o1)[x] == multiset(o2)[x]
    {
      Sorting.DistinctCounts(o1, x);
      Sorting.DistinctCounts(o2, x);
    }
  }

  /** Appending permuted methods gives definitions equal up to the order of their methods. */
  lemma SameAttachment(d: Def, a: seq<Function>, b: seq<Function>)
    requires multiset(a) == multiset(b)
    ensures var d1 := WithMethods(d, a); var d2 := WithMethods(d, b);
      (d1.ProtocolDef? ==> d1 == d2) &&
      (d1.StructDef? ==>
        d2.StructDef? && d1.st.(methods := []) == d2.st.(methods := []) &&
        multiset(d1.st.methods) == multiset(d2.st.methods))
  {
  }

  /**
   * The order in which `attachMethods` visits the functions table (Go's map
   * order) does not matter for anything but the order of the methods appended
   * to a struct: the functions and files come out the same, and every
   * definition the same except that its methods are a permutation.
   */
  lemma AttachOrderIrrelevant(st: Store, structByName: string -> Option<string>, o1: seq<string>, o2: seq<string>)
    requires IsOrder(o1, st.funcs.Keys) && IsOrder(o2, st.funcs.Keys)
    ensures var r1 := Attach(st, structByName, o1); var r2 := Attach(st, structByName, o2);
      r1.funcs == r2.funcs && r1.files == r2.files && r1.types.Keys == r2.types.Keys &&
      forall ref :: ref in r1.types ==>
        (r1.types[ref].ProtocolDef? ==> r1.types[ref] == r2.types[ref]) &&
        (r1.types[ref].StructDef? ==>
          r2.types[ref].StructDef? &&
          r1.types[ref].st.(methods := []) == r2.types[ref].st.(methods := []) &&
          multiset(r1.types[ref].st.methods) == multiset(r2.types[ref].st.methods))
  {
    AttachOrderFuncs(st, structByName, o1, o2);
    var r1 := Attach(st, structByName, o1);
    var r2 := Attach(st, structByName, o2);
    forall ref | ref in r1.types
      ensures (r1.types[ref].ProtocolDef? ==> r1.types[ref] == r2.types[ref]) &&
        (r1.types[ref].StructDef? ==>
          r2.types[ref].StructDef? &&
          r1.types[ref].st.(methods := []) == r2.types[ref].st.(methods := []) &&
          multiset(r1.types[ref].st.methods) == multiset(r2.types[ref].st.methods))
    {
      AttachOrderAt(st, structByName, o1, o2, ref);
    }
  }

  lemma AttachOrderFuncs(st: Store, structByName: string -> Option<string>, o1: seq<string>, o2: seq<string>)
    requires IsOrder(o1, st.funcs.Keys) && IsOrder(o2, st.funcs.Keys)
    ensures Attach(st, structByName, o1).funcs == Attach(st, structByName, o2).funcs
  {
    AttachFuncsClosedForm(st, structByName, o1);
    AttachFuncsClosedForm(st, structByName, o2);
  }

  lemma AttachOrderAt(st: Store, structByName: string -> Option<string>, o1: seq<string>, o2: seq<string>, ref: string)
    requires IsOrder(o1, st.funcs.Keys) && IsOrder(o2, st.funcs.Keys)
    requires ref in st.types
    ensures var d1 := Attach(st, structByName, o1).types[ref]; var d2 := Attach(st, structByName, o2).types[ref];
      (d1.ProtocolDef? ==> d1 == d2) &&
      (d1.StructDef? ==>
        d2.StructDef? && d1.st.(methods := []) == d2.st.(methods := []) &&
        multiset(d1.st.methods) == multiset(d2.st.methods))
  {
    AttachTypesClosedForm(st, structByName, o1);
    AttachTypesClosedForm(st, structByName, o2);
    OrdersPermute(o1, o2, st.funcs.Keys);
    AttachedToPermutation(st, structByName, o1, o2, ref);
    SameAttachment(st.types[ref], AttachedTo(st, structByName, o1, ref), AttachedTo(st, structByName, o2, ref));
  }
}
