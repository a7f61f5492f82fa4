/**
 * The generator object (generator/generator.go, generator/file.go,
 * generator/struct.go, generator/protocol.go, generator/member_type.go): three
 * tables updated in place by the loader. Each loading method is proved to
 * leave exactly the tables the corresponding function of `Loader` describes,
 * so every property proved there holds of the object.
 */
module Gen {
  import opened Wrappers
  import opened Doxy
  import opened Pos
  import opened Names
  import opened Types
  import opened Entities
  import opened Resolver
  import opened TypeOps
  import Loader
  import Sorting
  import Emitter

  class Generator {
    /** Definitions by refid. */
    var types: map<string, Def>
    /** Files by refid. */
    var files: map<string, BaseNode>
    /** Functions by receiver + "::" + name. */
    var funcs: map<string, Function>

    /** The three tables, as the values the loader functions work on. */
    function State(): Loader.Store
      reads this
    {
      Loader.Store(types, files, funcs)
    }

    /** `NewGenerator`: all tables empty. */
    constructor ()
      ensures types == map[] && files == map[] && funcs == map[]
    {
      types := map[];
      files := map[];
      funcs := map[];
    }

    // -------------------------------------------------------------------------
    // getTypeFromLinkText, getMemberType
    // -------------------------------------------------------------------------

    /** The placeholder step shared by both resolvers: a refid not in the table gets a nameless struct. */
    method StoreRef(ref: string)
      modifies this
      ensures types == AddPlaceholder(old(types), ref) && files == old(files) && funcs == old(funcs)
    {
      if ref !in types {
        types := types[ref := Placeholder(ref)];
      }
    }

    /** `getTypeFromLinkText`. */
    method TypeFromLinkText(lt: Option<LinkedText>) returns (t: Option<Type>)
      modifies this
      ensures t == LinkType(lt)
      ensures types == LinkStore(old(types), lt) && files == old(files) && funcs == old(funcs)
    {
      if lt.None? {
        return Some(Unknown("", ""));
      }
      var l := lt.value;
      if |l.refs| == 1 {
        StoreRef(l.refs[0]);
        return Some(Entity(l.refs[0]));
      } else if |l.refs| != 0 {
        return Some(Unknown("", "ref type"));
      }
      t := Resolve(l.text);
    }

    /** `getMemberType`. */
    method MemberTypeOf(m: MemberDef) returns (t: Option<Type>)
      modifies this
      ensures t == MemberType(m)
      ensures types == LinkStore(old(types), m.typ) && files == old(files) && funcs == old(funcs)
    {
      if m.typ.None? {
        return Some(Unknown("", ""));
      }
      var l := m.typ.value;
      if |l.refs| == 1 {
        StoreRef(l.refs[0]);
        return Some(Entity(l.refs[0]));
      } else if |l.refs| != 0 {
        return Some(Unknown("", "ref type"));
      }
      var fallback := Strings.TrimSpace(l.text + " " + m.argsstring);
      assert MemberType(m) == Resolve(fallback);
      t := Resolve(fallback);
    }

    // -------------------------------------------------------------------------
    // loadFuncs
    // -------------------------------------------------------------------------

    /** `loadFuncs`: every function member is stored under its key, replacing an earlier one. */
    method LoadFuncs(ms: seq<MemberDef>)
      modifies this
      ensures State() == Loader.LoadFuncs(old(State()), ms)
    {
      var i := 0;
      while i < |ms|
        invariant 0 <= i <= |ms|
        invariant Loader.LoadFuncs(old(State()), ms) == Loader.LoadFuncs(State(), ms[i..])
      {
        assert ms[i..][0] == ms[i] && ms[i..][1..] == ms[i + 1..];
        LoadMember(ms[i]);
        i := i + 1;
      }
    }

    /** One iteration of `loadFuncs`. */
    method LoadMember(m: MemberDef)
      modifies this
      ensures State() == Loader.LoadMember(old(State()), m)
    {
      if m.kind != "function" {
        return;
      }
      var recv := Loader.Receiver(m.definition);
      var ret := TypeFromLinkText(m.typ);
      var ext := false;
      if ret.Some? && ret.value.AppkitExtern? {
        ret := ret.value.elem;
        ext := true;
      }
      var args := LoadParams(m.params);
      assert args == seq(|m.params|, k requires 0 <= k < |m.params| => Loader.ParamArg(m.params[k]));
      var base := BaseNode("", m.name, "", m.prot, AsLocation(m.location), AsLineRange(m.location));
      funcs := funcs[recv + "::" + m.name := Function(base, FuncType(ret, args), ext, recv)];
    }

    /** The parameter loop of `loadFuncs`: each parameter's type resolved, an array parameter's wrapped. */
    method LoadParams(ps: seq<Param>) returns (args: seq<FuncArg>)
      modifies this
      ensures args == seq(|ps|, k requires 0 <= k < |ps| => Loader.ParamArg(ps[k]))
      ensures types == Loader.ParamsStore(old(types), ps)
      ensures files == old(files) && funcs == old(funcs)
    {
      args := [];
      var j := 0;
      while j < |ps|
        invariant 0 <= j <= |ps|
        invariant |args| == j && forall k :: 0 <= k < j ==> args[k] == Loader.ParamArg(ps[k])
        invariant Loader.ParamsStore(old(types), ps) == Loader.ParamsStore(types, ps[j..])
        invariant files == old(files) && funcs == old(funcs)
      {
        var p := ps[j];
        var at := TypeFromLinkText(p.typ);
        if p.arrayText != "" {
          at := Some(Array("", at));
        }
        args := args + [FuncArg(p.declname, at)];
        assert ps[j..][0] == p && ps[j..][1..] == ps[j + 1..];
        j := j + 1;
      }
    }

    // -------------------------------------------------------------------------
    // loadDoxyObject
    // -------------------------------------------------------------------------

    /** The attribute loop of `loadDoxyObject`. */
    method LoadAttributes(host: string, ms: seq<MemberDef>, isStatic: bool)
      requires host in types && HostsAttributes(types[host])
      modifies this
      ensures types == Loader.AddAttributes(old(types), host, ms, isStatic)
      ensures files == old(files) && funcs == old(funcs)
    {
      assert ms[0..] == ms;
      var i := 0;
      while i < |ms|
        invariant 0 <= i <= |ms|
        invariant host in types && HostsAttributes(types[host])
        invariant Loader.AddAttributes(old(types), host, ms, isStatic) == Loader.AddAttributes(types, host, ms[i..], isStatic)
        invariant files == old(files) && funcs == old(funcs)
      {
        Loader.AddAttributesUnfold(types, host, ms, isStatic, i);
        LoadAttribute(host, ms[i], isStatic);
        i := i + 1;
      }
      assert ms[i..] == [];
    }

    /** One attribute: its type is resolved, then it is appended to the host struct. */
    method LoadAttribute(host: string, m: MemberDef, isStatic: bool)
      requires host in types && HostsAttributes(types[host])
      modifies this
      ensures types == Loader.AddAttribute(old(types), host, m, isStatic)
      ensures files == old(files) && funcs == old(funcs)
    {
      var typ := MemberTypeOf(m);
      var a := Attribute(m.name, m.prot, isStatic, typ, AsLocation(m.location), AsLineRange(m.location));
      types := types[host := StructDef(StructAddAttribute(types[host].st, a))];
    }

    /** The property loop of `loadDoxyObject`. */
    method LoadProperties(host: string, ms: seq<MemberDef>)
      requires host in types
      modifies this
      ensures types == Loader.AddProperties(old(types), host, ms)
      ensures files == old(files) && funcs == old(funcs)
    {
      assert ms[0..] == ms;
      var i := 0;
      while i < |ms|
        invariant 0 <= i <= |ms|
        invariant host in types
        invariant Loader.AddProperties(old(types), host, ms) == Loader.AddProperties(types, host, ms[i..])
        invariant files == old(files) && funcs == old(funcs)
      {
        Loader.AddPropertiesUnfold(types, host, ms, i);
        LoadProperty(host, ms[i]);
        i := i + 1;
      }
      assert ms[i..] == [];
    }

    /** One property: its type is resolved, then it is appended to the host. */
    method LoadProperty(host: string, m: MemberDef)
      requires host in types
      modifies this
      ensures types == Loader.AddProperty(old(types), host, m)
      ensures files == old(files) && funcs == old(funcs)
    {
      var typ := MemberTypeOf(m);
      var q := Property(m.name, typ, m.readable, m.writable, AsLocation(m.location), AsLineRange(m.location));
      types := types[host := DefAddProperty(types[host], q)];
    }

    /** `loadDoxyObject`: the sections of the definition under `host`, up to the first error. */
    method LoadDoxyObject(host: string, secs: seq<SectionDef>) returns (err: Option<string>)
      requires host in types
      modifies this
      ensures Loader.Outcome(State(), err) == Loader.LoadSections(old(State()), host, secs)
    {
      var i := 0;
      while i < |secs|
        invariant 0 <= i <= |secs|
        invariant host in types
        invariant Loader.LoadSections(old(State()), host, secs) == Loader.LoadSections(State(), host, secs[i..])
      {
        var sec := secs[i];
        assert secs[i..][0] == sec && secs[i..][1..] == secs[i + 1..];
        ghost var before := State();
        if sec.kind in Loader.AttribKinds {
          if !HostsAttributes(types[host]) {
            return Some(DynamicTypeName(types[host]) + " cannot host attributes");
          }
          LoadAttributes(host, sec.members, Loader.IsStaticKind(sec.kind));
        } else if sec.kind == "property" {
          LoadProperties(host, sec.members);
        } else if sec.kind == "func" || sec.kind == "public-func" {
          LoadFuncs(sec.members);
        }
        assert State() == Loader.LoadSection(before, host, sec).st;
        i := i + 1;
      }
      return None;
    }

    // -------------------------------------------------------------------------
    // loadDoxyStruct, loadDoxyProtocol, loadDoxyFile
    // -------------------------------------------------------------------------

    /**
     * `loadDoxyStruct`: the struct under the entry's refid (created when
     * absent) is overwritten with the loaded header, then its sections load.
     */
    method LoadDoxyStruct(ent: Entry) returns (err: Option<string>)
      modifies this
      ensures Loader.Outcome(State(), err) == Loader.LoadStruct(old(State()), ent)
    {
      if ent.decoded.Err? {
        return Some(ent.decoded.msg);
      }
      var def := ent.decoded.value;
      if !(ent.refid in types && types[ent.refid].StructDef?) {
        types := types[ent.refid := Placeholder(ent.refid)];
      }
      types := types[ent.refid := Loader.FreshStruct(ent, def)];
      ghost var st1 := old(State()).(types := old(types)[ent.refid := Loader.FreshStruct(ent, def)]);
      assert State() == st1;
      assert Loader.LoadStruct(old(State()), ent) == Loader.LoadSections(st1, ent.refid, def.sections);
      err := LoadDoxyObject(ent.refid, def.sections);
    }

    /** `loadDoxyProtocol`, likewise for a protocol, whose name loses a trailing " -p". */
    method LoadDoxyProtocol(ent: Entry) returns (err: Option<string>)
      modifies this
      ensures Loader.Outcome(State(), err) == Loader.LoadProtocol(old(State()), ent)
    {
      if ent.decoded.Err? {
        return Some(ent.decoded.msg);
      }
      var def := ent.decoded.value;
      if !(ent.refid in types && types[ent.refid].ProtocolDef?) {
        types := types[ent.refid := ProtocolDef(ProtocolType(BaseNode(ent.refid, "", "", "", None, None), [], []))];
      }
      types := types[ent.refid := Loader.FreshProtocol(ent, def)];
      ghost var st1 := old(State()).(types := old(types)[ent.refid := Loader.FreshProtocol(ent, def)]);
      assert State() == st1;
      assert Loader.LoadProtocol(old(State()), ent) == Loader.LoadSections(st1, ent.refid, def.sections);
      err := LoadDoxyObject(ent.refid, def.sections);
    }

    /** `loadDoxyFile`: a file is recorded once, then its function sections load. */
    method LoadDoxyFile(ent: Entry) returns (err: Option<string>)
      modifies this
      ensures Loader.Outcome(State(), err) == Loader.LoadFile(old(State()), ent)
    {
      if ent.decoded.Err? {
        return Some(ent.decoded.msg);
      }
      var def := ent.decoded.value;
      if ent.refid in files {
        return Some("duplicated file definition");
      }
      files := files[ent.refid := EntToBaseNode(ent, def)];
      ghost var st1 := State();
      var secs := def.sections;
      var i := 0;
      while i < |secs|
        invariant 0 <= i <= |secs|
        invariant Loader.FileSections(st1, secs) == Loader.FileSections(State(), secs[i..])
      {
        assert secs[i..][0] == secs[i] && secs[i..][1..] == secs[i + 1..];
        if secs[i].kind == "func" || secs[i].kind == "public-func" {
          LoadFuncs(secs[i].members);
        }
        i := i + 1;
      }
      return None;
    }

    // -------------------------------------------------------------------------
    // attachMethods, LoadDoxygen
    // -------------------------------------------------------------------------

    /**
     * `attachMethods`: the functions table is visited in some order (Go's
     * map order, returned as `order`); each method is named and appended to
     * its receiver's struct when `structByName` finds one.
     */
    method AttachMethods(structByName: string -> Option<string>) returns (ghost order: seq<string>)
      modifies this
      ensures Loader.IsOrder(order, old(funcs).Keys)
      ensures State() == Loader.Attach(old(State()), structByName, order)
    {
      ghost var st0 := State();
      var remaining := funcs.Keys;
      order := [];
      while remaining != {}
        invariant funcs.Keys == st0.funcs.Keys && types.Keys == st0.types.Keys
        invariant remaining <= st0.funcs.Keys
        invariant forall i :: 0 <= i < |order| ==> order[i] in st0.funcs && order[i] !in remaining
        invariant forall k :: k in st0.funcs ==> k in remaining || k in order
        invariant forall i, j :: 0 <= i < j < |order| ==> order[i] != order[j]
        invariant State() == Loader.Attach(st0, structByName, order)
        decreases remaining
      {
        var k :| k in remaining;
        Loader.AttachSnoc(st0, structByName, order, k);
        AttachMethod(structByName, k);
        order := order + [k];
        remaining := remaining - {k};
      }
    }

    /** One visit of `attachMethods`: a method is named and appended to its receiver's struct. */
    method AttachMethod(structByName: string -> Option<string>, k: string)
      requires k in funcs
      modifies this
      ensures State() == Loader.AttachOne(old(State()), structByName, k)
    {
      var f := funcs[k];
      if f.receiver != "" {
        var g := f.(base := EnsureGoName(f.base).1);
        funcs := funcs[k := g];
        var s := structByName(f.receiver);
        if s.Some? && s.value in types && types[s.value].StructDef? {
          types := types[s.value := StructDef(AppendMethod(types[s.value].st, g))];
        }
      }
    }

    /**
     * `LoadDoxygen`: the entries in order up to the first error, then, when
     * all loaded, `attachMethods` once.
     */
    method LoadDoxygen(index: Result<seq<Entry>>, structByName: string -> Option<string>)
      returns (err: Option<string>, ghost order: seq<string>)
      modifies this
      ensures var o := Loader.LoadIndex(old(State()), index);
        (o.err.Some? ==> err == o.err && State() == o.st) &&
        (o.err.None? ==> (err.None? && Loader.IsOrder(order, o.st.funcs.Keys) &&
          State() == Loader.Attach(o.st, structByName, order)))
    {
      order := [];
      if index.Err? {
        return Some(index.msg), order;
      }
      err := LoadEntries(index.value);
      if err.Some? {
        return err, order;
      }
      order := AttachMethods(structByName);
    }

    /** The entries of the index in order, up to the first that fails. */
    method LoadEntries(es: seq<Entry>) returns (err: Option<string>)
      modifies this
      ensures Loader.Outcome(State(), err) == Loader.LoadEntries(old(State()), es)
    {
      var i := 0;
      while i < |es|
        invariant 0 <= i <= |es|
        invariant Loader.LoadEntries(old(State()), es) == Loader.LoadEntries(State(), es[i..])
      {
        assert es[i..][0] == es[i] && es[i..][1..] == es[i + 1..];
        err := LoadEntry(es[i]);
        if err.Some? {
          return err;
        }
        i := i + 1;
      }
      return None;
    }

    /** One entry of the index: structs, classes and protocols by their loader, files by theirs, others skipped. */
    method LoadEntry(ent: Entry) returns (err: Option<string>)
      modifies this
      ensures Loader.Outcome(State(), err) == Loader.LoadEntry(old(State()), ent)
    {
      err := None;
      if Loader.IsStructKind(ent.kind) {
        err := LoadDoxyStruct(ent);
      } else if ent.kind == File {
        err := LoadDoxyFile(ent);
      }
    }

    // -------------------------------------------------------------------------
    // TypeByName
    // -------------------------------------------------------------------------

    /**
     * `TypeByName`: the refid of a definition whose Go type name is `name`,
     * if there is one; which one is found among several is unspecified.
     */
    method TypeByName(name: string) returns (r: Option<string>)
      ensures r.Some? ==> r.value in types && DefGoTypeName(types[r.value]) == (name, true)
      ensures r.None? ==> forall k :: k in types ==> DefGoTypeName(types[k]) != (name, true)
    {
      var remaining := types.Keys;
      while remaining != {}
        invariant remaining <= types.Keys
        invariant forall k :: k in types && k !in remaining ==> DefGoTypeName(types[k]) != (name, true)
        decreases remaining
      {
        var k :| k in remaining;
        var (tname, ok) := DefGoTypeName(types[k]);
        if ok && tname == name {
          return Some(k);
        }
        remaining := remaining - {k};
      }
      return None;
    }

    /**
     * `PrintGo`: the stubs of the free functions, each written only when
     * printable, in the sorted order of their names.
     */
    method PrintGo() returns (out: string, ghost keys: seq<string>)
      requires forall k :: k in funcs ==> FuncNameDefined(funcs[k].typ)
      ensures Loader.IsOrder(keys, funcs.Keys) && Sorting.StrictlySorted(keys)
      ensures out == Emitter.FuncsText(types, funcs, keys, |keys|)
    {
      var refs := FuncNames();
      var sorted := Sorting.SortStrings(refs);
      SortedOrder(refs, sorted, funcs.Keys);
      keys := sorted;
      out := PrintFuncs(sorted);
    }

    /** The names of the functions table, each once, in the order the map yields them. */
    method FuncNames() returns (refs: seq<string>)
      ensures Loader.IsOrder(refs, funcs.Keys)
    {
      refs := [];
      var remaining := funcs.Keys;
      while remaining != {}
        invariant remaining <= funcs.Keys
        invariant forall i :: 0 <= i < |refs| ==> refs[i] in funcs && refs[i] !in remaining
        invariant forall k :: k in funcs ==> k in remaining || k in refs
        invariant Sorting.Distinct(refs)
        decreases remaining
      {
        var k :| k in remaining;
        refs := refs + [k];
        remaining := remaining - {k};
      }
    }

    /** The definitions of the functions `names`, in that order; a function `PrintGoDef` rejects is skipped. */
    method PrintFuncs(names: seq<string>) returns (out: string)
      requires forall i :: 0 <= i < |names| ==> names[i] in funcs
      requires forall k :: k in funcs ==> FuncNameDefined(funcs[k].typ)
      ensures out == Emitter.FuncsText(types, funcs, names, |names|)
    {
      out := "";
      for i := 0 to |names|
        invariant out == Emitter.FuncsText(types, funcs, names, i)
      {
        var d, ok := Emitter.PrintGoDef(types, funcs[names[i]]);
        if ok {
          out := out + d;
        }
      }
    }
  }

  /** Sorting an order of a set of names gives a strictly sorted order of the same names. */
  lemma SortedOrder(refs: seq<string>, sorted: seq<string>, names: set<string>)
    requires Loader.IsOrder(refs, names)
    requires Sorting.Sorted(sorted) && multiset(sorted) == multiset(refs)
    ensures Loader.IsOrder(sorted, names) && Sorting.StrictlySorted(sorted)
  {
    assert Sorting.Distinct(refs);
    Sorting.PermutationDistinct(refs, sorted);
    Sorting.SortedDistinct(sorted);
    forall i | 0 <= i < |sorted|
      ensures sorted[i] in names
    {
      assert sorted[i] in multiset(refs);
    }
    forall k | k in names
      ensures k in sorted
    {
      assert k in multiset(refs);
    }
  }

  /** Only one order of a set of names is strictly sorted, so `PrintGo` writes one text for a given state. */
  lemma SortedOrderUnique(k1: seq<string>, k2: seq<string>, names: set<string>)
    requires Loader.IsOrder(k1, names) && Loader.IsOrder(k2, names)
    requires Sorting.StrictlySorted(k1) && Sorting.StrictlySorted(k2)
    ensures k1 == k2
  {
    Loader.OrdersPermute(k1, k2, names);
    Sorting.StrictlySortedSorted(k1);
    Sorting.StrictlySortedSorted(k2);
    Sorting.SortedUnique(k1, k2);
  }
}
