/**
 * The wrapper emitter (generator/struct.go, generator/protocol.go,
 * generator/file.go): the Go text printed for a struct, for a protocol and
 * for a free function. What the Go code writes to its `io.Writer` is the
 * string a function here returns; each printer is a method with the loops of
 * the Go code, proved to produce that string.
 *
 * Asking a nil type for its name would make the Go code panic; the printers
 * therefore require every argument and property type to be present, and
 * every present type to be nameable (see `Types.NameDefined`).
 */
module Emitter {
  import opened Wrappers
  import opened Strings
  import opened Pos
  import opened Names
  import opened Types
  import opened Entities
  import opened TypeOps

  // ---------------------------------------------------------------------------
  // What the printers require
  // ---------------------------------------------------------------------------

  /** A type that can be named and cast without reaching a nil element. */
  predicate TypeDefined(t: Option<Type>) {
    t.Some? && NameDefined(t.value) && CastDefined(t.value)
  }

  predicate ArgsDefined(args: seq<FuncArg>) {
    forall i :: 0 <= i < |args| ==> TypeDefined(args[i].typ)
  }

  /** A signature the printers can walk: present argument types, and a return that is nil or defined. */
  predicate SigDefined(ft: FuncType) {
    ArgsDefined(ft.args) && (ft.ret.Some? ==> TypeDefined(ft.ret))
  }

  predicate MethodsDefined(ms: seq<Function>) {
    forall i :: 0 <= i < |ms| ==> SigDefined(ms[i].typ)
  }

  predicate StructDefined(s: StructType) {
    (forall i :: 0 <= i < |s.properties| ==> TypeDefined(s.properties[i].typ)) && MethodsDefined(s.methods)
  }

  lemma SigDefinedNames(ft: FuncType)
    requires SigDefined(ft)
    ensures FuncNameDefined(ft)
  {
  }

  // ---------------------------------------------------------------------------
  // Pieces shared by the printers
  // ---------------------------------------------------------------------------

  /** " (" + position + ")" after a header comment, when the definition has a position. */
  function PosSuffix(pos: Option<Location>): string {
    if pos.Some? then " (" + LocationString(pos) + ")" else ""
  }

  /** The first `n` arguments as "name type", separated by ", ". */
  function ParamList(types: map<string, Def>, args: seq<FuncArg>, n: nat): string
    requires ArgsDefined(args) && n <= |args|
  {
    if n == 0 then ""
    else
      ParamList(types, args, n - 1) + (if n - 1 != 0 then ", " else "") +
      args[n - 1].name + " " + GoTypeName(types, args[n - 1].typ.value).0
  }

  lemma Assoc(a: string, b: string, c: string)
    ensures a + b + c == a + (b + c)
  {
  }

  /** The loop printing the argument list of a method signature. */
  method PrintParamList(types: map<string, Def>, args: seq<FuncArg>) returns (out: string)
    requires ArgsDefined(args)
    ensures out == ParamList(types, args, |args|)
  {
    out := "";
    for i := 0 to |args|
      invariant out == ParamList(types, args, i)
    {
      if i != 0 {
        out := out + ", ";
      }
      var (typ, _) := GoTypeName(types, args[i].typ.value);
      out := out + args[i].name + " " + typ;
    }
  }

  // ---------------------------------------------------------------------------
  // StructType.PrintGoWrapper
  // ---------------------------------------------------------------------------

  /** The type declaration, constructor and converter every struct wrapper opens with. */
  function StructHeader(s: StructType): string {
    var g := GoNameOf(s.base);
    StructIntro(s) + ConverterDecl(g) + ("\n\treturn " + g + "{v}\n}\n")
  }

  /** The header comment, the type declaration and the constructor of a struct wrapper. */
  function StructIntro(s: StructType): string {
    var g := GoNameOf(s.base);
    "// " + s.base.name + PosSuffix(s.base.pos) +
    "\ntype " + g + " struct {\n\tobjc.Object\n}\n" +
    "\nfunc New" + g + "() " + g + " {\n\treturn As" + g + "(objc.GetClass(" + Quote(s.base.name) +
    ").SendMsg(\"alloc\").SendMsg(\"init\"))\n}\n"
  }

  /** The opening of the `As<Name>` converter a struct wrapper defines. */
  function ConverterDecl(g: string): string {
    "\nfunc As" + g + "(v objc.Object) " + g + " {"
  }

  /** The advisory printed for a property whose type cannot be used. */
  function PropertyTodo(name: string, t: Option<Type>): string {
    "\n// TODO: property " + name + " (" + Dump(t) + ")\n"
  }

  /** A setter for a property, or an advisory when its type has no name or no cast to ObjC. */
  function PropertyText(types: map<string, Def>, g: string, p: Property): string
    requires TypeDefined(p.typ)
  {
    var name := ToExportedName(p.name);
    var (tp, ok) := GoTypeName(types, p.typ.value);
    var (cast, cok) := CastToObjC(types, p.typ.value, "v");
    if !ok || !cok then PropertyTodo(name, p.typ) else SetterText(g, name, tp, cast)
  }

  /** The setter `Set<Name>` sending `set<Name>:` with the value cast to ObjC. */
  function SetterText(g: string, name: string, tp: string, cast: string): string {
    "\nfunc (o " + g + ") Set" + name + "(v " + tp + ") {\n\to.SendMsg(" +
    Quote("set" + name + ":") + ", " + cast + ")\n}\n"
  }

  function PropertiesText(types: map<string, Def>, g: string, ps: seq<Property>, n: nat): string
    requires n <= |ps| && forall i :: 0 <= i < |ps| ==> TypeDefined(ps[i].typ)
  {
    if n == 0 then "" else PropertiesText(types, g, ps, n - 1) + PropertyText(types, g, ps[n - 1])
  }

  /** Every argument type has a Go name: the first loop over a method's arguments. */
  predicate ArgsNamed(types: map<string, Def>, args: seq<FuncArg>)
    requires ArgsDefined(args)
  {
    forall i :: 0 <= i < |args| ==> GoTypeName(types, args[i].typ.value).1
  }

  /** The ", " + cast of the first `n` arguments, and whether every cast to ObjC succeeds. */
  function SendArgs(types: map<string, Def>, args: seq<FuncArg>, n: nat): (string, bool)
    requires ArgsDefined(args) && n <= |args|
  {
    if n == 0 then ("", true)
    else
      var r := SendArgs(types, args, n - 1);
      var c := CastToObjC(types, args[n - 1].typ.value, args[n - 1].name);
      (r.0 + (", " + c.0), r.1 && c.1)
  }

  /** The return type after the argument list, the statement of the body, and a trailing comment. */
  datatype ReturnParts = ReturnParts(returnType: string, stmt: string, comment: string)

  /**
   * A struct method's return: with a name and a cast to Go, the body returns
   * the converted call; with a name but no cast the type is only mentioned in
   * a TODO comment; without a name the call is kept with a FIXME note.
   */
  function StructReturn(types: map<string, Def>, ret: Option<Type>, call: string): ReturnParts
    requires ret.Some? ==> TypeDefined(ret)
  {
    if ret.None? then ReturnParts("", call, "")
    else
      var (typ, ok) := GoTypeName(types, ret.value);
      if !ok then ReturnParts("", call, "\n\t// FIXME: return " + Dump(ret))
      else
        var (cast, cok) := CastToGo(types, ret.value, call);
        if cok then ReturnParts(" " + typ, "return " + cast + " // from " + Dump(ret), "")
        else ReturnParts(" /* TODO: " + typ + " */", call, "")
  }

  /** The message send of a method: its selector and the arguments cast to ObjC. */
  function SendCall(name: string, sendArgs: string): string {
    "o.SendMsg(" + Quote(name) + sendArgs + ")"
  }

  /** A struct method: nothing at all when an argument has no name or no cast, the method otherwise. */
  function StructMethod(types: map<string, Def>, g: string, m: Function): string
    requires SigDefined(m.typ)
  {
    var args := m.typ.args;
    var sa := SendArgs(types, args, |args|);
    if !ArgsNamed(types, args) || !sa.1 then ""
    else
      var rp := StructReturn(types, m.typ.ret, SendCall(m.base.name, sa.0));
      MethodText(g, GoMethName(m.base.name), ParamList(types, args, |args|), rp)
  }

  /** A Go method of the wrapper type `g`. */
  function MethodText(g: string, name: string, params: string, rp: ReturnParts): string {
    "\nfunc (o " + g + ") " + name + "(" + (params + ")" + rp.returnType + " {\n\t" + rp.stmt + rp.comment + "\n}\n")
  }

  function StructMethods(types: map<string, Def>, g: string, ms: seq<Function>, n: nat): string
    requires n <= |ms| && MethodsDefined(ms)
  {
    if n == 0 then "" else StructMethods(types, g, ms, n - 1) + StructMethod(types, g, ms[n - 1])
  }

  /**
   * `StructType.PrintGoWrapper`: false and nothing written for a nameless
   * struct; otherwise the header, a setter per property and the methods.
   */
  function StructWrapper(types: map<string, Def>, s: StructType): (string, bool)
    requires StructDefined(s)
  {
    if s.base.name == "" then ("", false)
    else
      var g := GoNameOf(s.base);
      (StructHeader(s) + PropertiesText(types, g, s.properties, |s.properties|) +
       StructMethods(types, g, s.methods, |s.methods|), true)
  }

  /** The first loop over a method's arguments: does every argument type have a Go name? */
  method CheckArgNames(types: map<string, Def>, args: seq<FuncArg>) returns (ok: bool)
    requires ArgsDefined(args)
    ensures ok == ArgsNamed(types, args)
  {
    for i := 0 to |args|
      invariant forall j :: 0 <= j < i ==> GoTypeName(types, args[j].typ.value).1
    {
      var (_, nok) := GoTypeName(types, args[i].typ.value);
      if !nok {
        return false;
      }
    }
    return true;
  }

  /** Once a cast fails the send is abandoned; each cast is tried in order. */
  lemma {:induction false} SendArgsOk(types: map<string, Def>, args: seq<FuncArg>, n: nat)
    requires ArgsDefined(args) && n <= |args|
    ensures SendArgs(types, args, n).1 <==>
      forall j :: 0 <= j < n ==> CastToObjC(types, args[j].typ.value, args[j].name).1
  {
    if n > 0 {
      SendArgsOk(types, args, n - 1);
    }
  }

  /** The second loop over a method's arguments: the message send, or failure at the first argument without a cast. */
  method BuildSend(types: map<string, Def>, name: string, args: seq<FuncArg>) returns (call: string, ok: bool)
    requires ArgsDefined(args)
    ensures ok == SendArgs(types, args, |args|).1
    ensures ok ==> call == SendCall(name, SendArgs(types, args, |args|).0)
  {
    call := "o.SendMsg(" + Quote(name);
    ghost var head := call;
    for i := 0 to |args|
      invariant call == head + SendArgs(types, args, i).0
      invariant SendArgs(types, args, i).1
    {
      var (cast, cok) := CastToObjC(types, args[i].typ.value, args[i].name);
      if !cok {
        SendArgsOk(types, args, i + 1);
        SendArgsOk(types, args, |args|);
        return call, false;
      }
      Assoc(head, SendArgs(types, args, i).0, ", " + cast);
      call := call + (", " + cast);
    }
    call := call + ")";
    ok := true;
  }

  /** One iteration of the method loop of `PrintGoWrapper`. */
  method PrintStructMethod(types: map<string, Def>, g: string, m: Function) returns (out: string)
    requires SigDefined(m.typ)
    ensures out == StructMethod(types, g, m)
  {
    var ft := m.typ;
    var named := CheckArgNames(types, ft.args);
    if !named {
      return "";
    }
    var callStmt, ok := BuildSend(types, m.base.name, ft.args);
    if !ok {
      return "";
    }
    var comment := "";
    var returnType := "";
    if ft.ret.Some? {
      var (typ, tok) := GoTypeName(types, ft.ret.value);
      if tok {
        var (cast, cok) := CastToGo(types, ft.ret.value, callStmt);
        if cok {
          returnType := " " + typ;
          callStmt := "return " + cast + " // from " + Dump(ft.ret);
        } else {
          returnType := " /* TODO: " + typ + " */";
        }
      } else {
        comment := "\n\t// FIXME: return " + Dump(ft.ret);
      }
    }
    var params := PrintParamList(types, ft.args);
    out := MethodText(g, GoMethName(m.base.name), params, ReturnParts(returnType, callStmt, comment));
  }

  /** One iteration of the property loop of `PrintGoWrapper`. */
  method PrintProperty(types: map<string, Def>, g: string, p: Property) returns (text: string)
    requires TypeDefined(p.typ)
    ensures text == PropertyText(types, g, p)
  {
    var name := ToExportedName(p.name);
    var (tp, tok) := GoTypeName(types, p.typ.value);
    if !tok {
      return PropertyTodo(name, p.typ);
    }
    var (cast, cok) := CastToObjC(types, p.typ.value, "v");
    if !cok {
      return PropertyTodo(name, p.typ);
    }
    text := SetterText(g, name, tp, cast);
  }

  /** The property loop of `PrintGoWrapper`. */
  method PrintProperties(types: map<string, Def>, g: string, ps: seq<Property>) returns (out: string)
    requires forall i :: 0 <= i < |ps| ==> TypeDefined(ps[i].typ)
    ensures out == PropertiesText(types, g, ps, |ps|)
  {
    out := "";
    for i := 0 to |ps|
      invariant out == PropertiesText(types, g, ps, i)
    {
      var text := PrintProperty(types, g, ps[i]);
      out := out + text;
    }
  }

  /** The method loop of `PrintGoWrapper`. */
  method PrintStructMethods(types: map<string, Def>, g: string, ms: seq<Function>) returns (out: string)
    requires MethodsDefined(ms)
    ensures out == StructMethods(types, g, ms, |ms|)
  {
    out := "";
    for i := 0 to |ms|
      invariant out == StructMethods(types, g, ms, i)
    {
      var text := PrintStructMethod(types, g, ms[i]);
      out := out + text;
    }
  }

  /** `StructType.PrintGoWrapper` as the Go code runs it. */
  method PrintStructWrapper(types: map<string, Def>, s: StructType) returns (out: string, ok: bool)
    requires StructDefined(s)
    ensures (out, ok) == StructWrapper(types, s)
  {
    if !EnsureGoName(s.base).0 {
      return "", false;
    }
    var g := GoNameOf(s.base);
    var props := PrintProperties(types, g, s.properties);
    var meths := PrintStructMethods(types, g, s.methods);
    out := StructHeader(s) + props + meths;
    ok := true;
  }

  // ---------------------------------------------------------------------------
  // Properties of the struct wrapper
  // ---------------------------------------------------------------------------

  /**
   * A method is left out entirely exactly when one of its arguments has no
   * Go type name or no cast to ObjC; otherwise its text opens a Go method.
   */
  lemma StructMethodSkipped(types: map<string, Def>, g: string, m: Function)
    requires SigDefined(m.typ)
    ensures var args := m.typ.args;
      StructMethod(types, g, m) == "" <==>
        exists i :: 0 <= i < |args| &&
          (!GoTypeName(types, args[i].typ.value).1 || !CastToObjC(types, args[i].typ.value, args[i].name).1)
    ensures StructMethod(types, g, m) != "" ==>
      HasPrefix(StructMethod(types, g, m), "\nfunc (o " + g + ") " + GoMethName(m.base.name) + "(")
  {
    var args := m.typ.args;
    SendArgsOk(types, args, |args|);
    var sa := SendArgs(types, args, |args|);
    if ArgsNamed(types, args) && sa.1 {
      var rp := StructReturn(types, m.typ.ret, SendCall(m.base.name, sa.0));
      var head := "\nfunc (o " + g + ") " + GoMethName(m.base.name) + "(";
      var tail := ParamList(types, args, |args|) + ")" + rp.returnType + " {\n\t" + rp.stmt + rp.comment + "\n}\n";
      assert StructMethod(types, g, m) == head + tail;
      PrefixOfConcat(head, tail);
    }
  }

  /** A string opens every concatenation it starts. */
  lemma PrefixOfConcat(a: string, b: string)
    ensures HasPrefix(a + b, a)
  {
    assert (a + b)[..|a|] == a;
  }

  /**
   * The body of an emitted method returns a value exactly when the return
   * type has both a Go name and a cast to Go; the signature declares or
   * mentions a return type exactly when it has a name; and the FIXME note
   * appears exactly when it has none.
   */
  lemma StructReturnAdvisories(types: map<string, Def>, ret: Option<Type>, name: string, sendArgs: string)
    requires ret.Some? ==> TypeDefined(ret)
    ensures var rp := StructReturn(types, ret, SendCall(name, sendArgs));
      (HasPrefix(rp.stmt, "return ") <==>
        ret.Some? && GoTypeName(types, ret.value).1 && CastToGo(types, ret.value, SendCall(name, sendArgs)).1) &&
      (rp.returnType != "" <==> ret.Some? && GoTypeName(types, ret.value).1) &&
      (rp.comment != "" <==> ret.Some? && !GoTypeName(types, ret.value).1) &&
      (!HasPrefix(rp.stmt, "return ") ==> rp.stmt == SendCall(name, sendArgs))
  {
    var call := SendCall(name, sendArgs);
    assert call[0] == 'o';
    assert !HasPrefix(call, "return ") by {
      if |call| >= 7 {
        assert call[..7][0] == 'o';
      }
    }
  }

  /** A proper prefix of a concatenation occurs at the start of its remainder's position. */
  lemma OccursBetween(a: string, b: string, c: string)
    ensures OccursAt(a + b + c, b, |a|)
  {
    assert (a + b + c)[|a|..|a| + |b|] == b;
  }

  /**
   * Casting to Go an expression of a struct type calls the `As<Name>`
   * converter, and that struct's wrapper defines the converter.
   */
  lemma StructConverterDefined(types: map<string, Def>, ref: string, exp: string)
    requires ref in types && types[ref].StructDef? && types[ref].st.base.name != ""
    requires StructDefined(types[ref].st)
    ensures var s := types[ref].st; var g := GoNameOf(s.base);
      CastToGo(types, Entity(ref), exp) == ("As" + g + "(" + exp + ")", true) &&
      StructWrapper(types, s).1 &&
      exists j :: OccursAt(StructWrapper(types, s).0, ConverterDecl(g), j)
  {
    var s := types[ref].st;
    var rest := StructWrapperShape(types, s);
    OccursBetween(StructIntro(s), ConverterDecl(GoNameOf(s.base)), rest);
  }

  /** A named struct's wrapper continues its introduction with the converter. */
  lemma StructWrapperShape(types: map<string, Def>, s: StructType) returns (rest: string)
    requires StructDefined(s) && s.base.name != ""
    ensures StructWrapper(types, s) == (StructIntro(s) + ConverterDecl(GoNameOf(s.base)) + rest, true)
  {
    var g := GoNameOf(s.base);
    var head := StructIntro(s) + ConverterDecl(g);
    var body := "\n\treturn " + g + "{v}\n}\n";
    var ps := PropertiesText(types, g, s.properties, |s.properties|);
    var ms := StructMethods(types, g, s.methods, |s.methods|);
    Assoc(head, body, ps);
    Assoc(head, body + ps, ms);
    rest := body + ps + ms;
  }

  /** Setters are printed whatever the property's access flags say. */
  lemma PropertyTextIgnoresAccess(types: map<string, Def>, g: string, p: Property, readable: bool, writable: bool)
    requires TypeDefined(p.typ)
    ensures PropertyText(types, g, p.(readable := readable, writable := writable)) == PropertyText(types, g, p)
    ensures var name := ToExportedName(p.name);
      HasPrefix(PropertyText(types, g, p), "\nfunc (o " + g + ") Set" + name + "(") ||
      PropertyText(types, g, p) == PropertyTodo(name, p.typ)
  {
  }

  // ---------------------------------------------------------------------------
  // ProtocolType.PrintGoWrapper: printGoInterface, printGoImpl, printGoClassReg
  // ---------------------------------------------------------------------------

  /** An argument the protocol printers can pass: it has a Go name and a cast to ObjC. */
  predicate ArgUsable(types: map<string, Def>, a: FuncArg)
    requires TypeDefined(a.typ)
  {
    GoTypeName(types, a.typ.value).1 && CastToObjC(types, a.typ.value, "v").1
  }

  /** The first of the first `n` arguments that is not usable. */
  function FirstUnusable(types: map<string, Def>, args: seq<FuncArg>, n: nat): (r: Option<nat>)
    requires ArgsDefined(args) && n <= |args|
    ensures r.Some? ==> r.value < n
  {
    if n == 0 then None
    else
      var r := FirstUnusable(types, args, n - 1);
      if r.Some? then r
      else if !ArgUsable(types, args[n - 1]) then Some(n - 1)
      else None
  }

  /** The argument found is unusable and every one before it usable; none is found when all are usable. */
  lemma {:induction false} FirstUnusableMeans(types: map<string, Def>, args: seq<FuncArg>, n: nat)
    requires ArgsDefined(args) && n <= |args|
    ensures var r := FirstUnusable(types, args, n);
      (r.Some? ==> !ArgUsable(types, args[r.value]) && forall j :: 0 <= j < r.value ==> ArgUsable(types, args[j])) &&
      (r.None? <==> forall j :: 0 <= j < n ==> ArgUsable(types, args[j]))
  {
    if n > 0 {
      FirstUnusableMeans(types, args, n - 1);
    }
  }

  /** A method all three protocol printers print: it has a name and only usable arguments. */
  predicate Exposed(types: map<string, Def>, m: Function)
    requires SigDefined(m.typ)
  {
    m.base.name != "" && FirstUnusable(types, m.typ.args, |m.typ.args|).None?
  }

  /** The argument loop shared by the three protocol printers: the first unusable argument. */
  method FindUnusable(types: map<string, Def>, args: seq<FuncArg>) returns (r: Option<nat>)
    requires ArgsDefined(args)
    ensures r == FirstUnusable(types, args, |args|)
  {
    for i := 0 to |args|
      invariant FirstUnusable(types, args, i).None?
    {
      var (_, nok) := GoTypeName(types, args[i].typ.value);
      if !nok {
        FirstUnusableStays(types, args, i + 1, |args|);
        return Some(i);
      }
      var (_, cok) := CastToObjC(types, args[i].typ.value, "v");
      if !cok {
        FirstUnusableStays(types, args, i + 1, |args|);
        return Some(i);
      }
    }
    return None;
  }

  /** A longer prefix finds the same first unusable argument. */
  lemma {:induction false} FirstUnusableStays(types: map<string, Def>, args: seq<FuncArg>, n: nat, n': nat)
    requires ArgsDefined(args) && n <= n' <= |args|
    requires FirstUnusable(types, args, n).Some?
    ensures FirstUnusable(types, args, n') == FirstUnusable(types, args, n)
    decreases n' - n
  {
    if n < n' {
      FirstUnusableStays(types, args, n, n' - 1);
    }
  }

  /** The return of an interface method: the type, a TODO mention, or a FIXME line before the method. */
  function InterfaceReturn(types: map<string, Def>, ret: Option<Type>): (r: (string, string))
    requires ret.Some? ==> TypeDefined(ret)
  {
    if ret.None? then ("", "")
    else
      var (typ, ok) := GoTypeName(types, ret.value);
      if !ok then ("", "\t// FIXME: return " + Dump(ret) + "\n")
      else if CastToGo(types, ret.value, "v").1 then (" " + typ, "")
      else (" /* TODO: " + typ + " */", "")
  }

  /**
   * One method of the interface: nothing for a nameless method, only a TODO
   * line naming the first unusable argument's type, or the signature.
   */
  function InterfaceMethod(types: map<string, Def>, m: Function): string
    requires SigDefined(m.typ)
  {
    var args := m.typ.args;
    if m.base.name == "" then ""
    else match FirstUnusable(types, args, |args|)
      case Some(j) => "\n\t// TODO: " + m.base.name + " (" + Dump(args[j].typ) + ")\n\n"
      case None =>
        var (returnType, comment) := InterfaceReturn(types, m.typ.ret);
        comment + InterfaceSig(ProtoMethName(m.base.name), ParamList(types, args, |args|), returnType)
  }

  /** The signature line of an interface method. */
  function InterfaceSig(name: string, params: string, returnType: string): string {
    "\t" + name + "(" + (params + ")" + returnType + "\n")
  }

  function InterfaceMethods(types: map<string, Def>, ms: seq<Function>, n: nat): string
    requires n <= |ms| && MethodsDefined(ms)
  {
    if n == 0 then "" else InterfaceMethods(types, ms, n - 1) + InterfaceMethod(types, ms[n - 1])
  }

  /** `printGoInterface`: the Go interface a user implements. */
  function InterfaceText(types: map<string, Def>, p: ProtocolType): string
    requires MethodsDefined(p.methods)
  {
    var g := GoNameOf(p.base);
    "// " + p.base.name + PosSuffix(p.base.pos) +
    "\ntype " + g + " interface {\n\tobjc.Object\n\tSetObjcRef(v objc.Object)\n\n" +
    InterfaceMethods(types, p.methods, |p.methods|) + "}\n"
  }

  /** The first `n` arguments as "name objc.Object". */
  function ObjectList(args: seq<FuncArg>, n: nat): string
    requires n <= |args|
  {
    if n == 0 then "" else ObjectList(args, n - 1) + (if n - 1 != 0 then ", " else "") + args[n - 1].name + " objc.Object"
  }

  /** The first `n` arguments cast to Go. */
  function GoCastList(types: map<string, Def>, args: seq<FuncArg>, n: nat): string
    requires ArgsDefined(args) && n <= |args|
  {
    if n == 0 then ""
    else GoCastList(types, args, n - 1) + (if n - 1 != 0 then ", " else "") + CastToGo(types, args[n - 1].typ.value, args[n - 1].name).0
  }

  /** An exposed method returns an object when its return type has a name and a cast to Go. */
  predicate ReturnsObject(types: map<string, Def>, ret: Option<Type>)
    requires ret.Some? ==> TypeDefined(ret)
  {
    ret.Some? && GoTypeName(types, ret.value).1 && CastToGo(types, ret.value, "v").1
  }

  /** The forwarding method of the implementation type for an exposed method. */
  function ImplDef(types: map<string, Def>, g: string, m: Function): string
    requires SigDefined(m.typ)
  {
    var args := m.typ.args;
    var name := ProtoMethName(m.base.name);
    var call := "o.v." + name + "(" + GoCastList(types, args, |args|) + ")";
    var hasRet := ReturnsObject(types, m.typ.ret);
    ForwardText(g, name, ObjectList(args, |args|), if hasRet then " objc.Object" else "",
      if hasRet then "return " + CastToObjC(types, m.typ.ret.value, call).0 else call)
  }

  /** A method of the implementation type `go<g>`. */
  function ForwardText(g: string, name: string, params: string, retDecl: string, stmt: string): string {
    "func (o go" + g + ") " + name + "(" + params + ")" + retDecl + " {\n\t" + stmt + "\n}\n"
  }

  /** The registration of an exposed method: its selector, verbatim, bound to the forwarding method. */
  function RegLine(g: string, m: Function): string {
    "\n\tc.AddMethod(" + Quote(m.base.name) + ", go" + g + "." + ProtoMethName(m.base.name) + ")"
  }

  /** Whether a method is one the protocol printers print, for any method. */
  function IsExposed(types: map<string, Def>): Function -> bool {
    (m: Function) => SigDefined(m.typ) && Exposed(types, m)
  }

  /** The forwarding method of a method, for any method. */
  function ImplOf(types: map<string, Def>, g: string): Function -> string {
    (m: Function) => if SigDefined(m.typ) then ImplDef(types, g, m) else ""
  }

  /** The registration of a method. */
  function RegOf(g: string): Function -> string {
    (m: Function) => RegLine(g, m)
  }

  /**
   * The method loop `printGoImpl` and `printGoClassReg` share: the text of
   * each of the first `n` methods that is kept, in order.
   */
  function Picked(ms: seq<Function>, n: nat, keep: Function -> bool, text: Function -> string): string
    requires n <= |ms|
  {
    if n == 0 then "" else Picked(ms, n - 1, keep, text) + (if keep(ms[n - 1]) then text(ms[n - 1]) else "")
  }

  function ImplMethods(types: map<string, Def>, g: string, ms: seq<Function>, n: nat): string
    requires n <= |ms|
  {
    Picked(ms, n, IsExposed(types), ImplOf(types, g))
  }

  function RegMethods(types: map<string, Def>, g: string, ms: seq<Function>, n: nat): string
    requires n <= |ms|
  {
    Picked(ms, n, IsExposed(types), RegOf(g))
  }

  /** `printGoClassReg`: registering the implementation type and its methods with the runtime. */
  function ClassRegText(types: map<string, Def>, p: ProtocolType): string
    requires MethodsDefined(p.methods)
  {
    var g := GoNameOf(p.base);
    "\nfunc init(){\n\tc := objc.NewClass(go" + g + "{})" +
    RegMethods(types, g, p.methods, |p.methods|) + "\n\tobjc.RegisterClass(c)\n}\n"
  }

  /** `printGoImpl`: the implementation type forwarding to the user's value, then `printGoClassReg`. */
  function ImplText(types: map<string, Def>, p: ProtocolType): string
    requires MethodsDefined(p.methods)
  {
    var g := GoNameOf(p.base);
    "\ntype go" + g + " struct{\n\tobjc.Object `objc:\"go" + g + " : " + p.base.name + "\"`\n\tv " + g + "\n}\n" +
    ImplMethods(types, g, p.methods, |p.methods|) + ClassRegText(types, p)
  }

  /** `ProtocolType.PrintGoWrapper`: false and nothing written for a nameless protocol. */
  function ProtocolWrapper(types: map<string, Def>, p: ProtocolType): (string, bool)
    requires MethodsDefined(p.methods)
  {
    if p.base.name == "" then ("", false) else (InterfaceText(types, p) + ImplText(types, p), true)
  }

  /** One iteration of the method loop of `printGoInterface`. */
  method PrintInterfaceMethod(types: map<string, Def>, m: Function) returns (out: string)
    requires SigDefined(m.typ)
    ensures out == InterfaceMethod(types, m)
  {
    if !EnsureGoName(m.base).0 {
      return "";
    }
    var ft := m.typ;
    var bad := FindUnusable(types, ft.args);
    if bad.Some? {
      return "\n\t// TODO: " + m.base.name + " (" + Dump(ft.args[bad.value].typ) + ")\n\n";
    }
    var comment := "";
    var returnType := "";
    if ft.ret.Some? {
      var (typ, tok) := GoTypeName(types, ft.ret.value);
      if tok {
        var (_, cok) := CastToGo(types, ft.ret.value, "v");
        if cok {
          returnType := " " + typ;
        } else {
          returnType := " /* TODO: " + typ + " */";
        }
      } else {
        comment := "\t// FIXME: return " + Dump(ft.ret) + "\n";
      }
    }
    var params := PrintParamList(types, ft.args);
    out := comment + InterfaceSig(ProtoMethName(m.base.name), params, returnType);
  }

  /** `printGoInterface` as the Go code runs it. */
  method PrintGoInterface(types: map<string, Def>, p: ProtocolType) returns (out: string, ok: bool)
    requires MethodsDefined(p.methods)
    ensures out == InterfaceText(types, p) && ok
  {
    var g := GoNameOf(p.base);
    out := "// " + p.base.name + PosSuffix(p.base.pos) +
      "\ntype " + g + " interface {\n\tobjc.Object\n\tSetObjcRef(v objc.Object)\n\n";
    ghost var header := out;
    var ms := p.methods;
    for i := 0 to |ms|
      invariant out == header + InterfaceMethods(types, ms, i)
    {
      var text := PrintInterfaceMethod(types, ms[i]);
      Assoc(header, InterfaceMethods(types, ms, i), text);
      out := out + text;
    }
    out := out + "}\n";
    ok := true;
  }

  /** The loop building the forwarded call's arguments. */
  method PrintGoCasts(types: map<string, Def>, args: seq<FuncArg>) returns (out: string)
    requires ArgsDefined(args)
    ensures out == GoCastList(types, args, |args|)
  {
    out := "";
    for i := 0 to |args|
      invariant out == GoCastList(types, args, i)
    {
      if i != 0 {
        out := out + ", ";
      }
      var (cast, _) := CastToGo(types, args[i].typ.value, args[i].name);
      out := out + cast;
    }
  }

  /** The loop printing the forwarding method's parameters. */
  method PrintObjectList(args: seq<FuncArg>) returns (out: string)
    ensures out == ObjectList(args, |args|)
  {
    out := "";
    for i := 0 to |args|
      invariant out == ObjectList(args, i)
    {
      if i != 0 {
        out := out + ", ";
      }
      out := out + args[i].name + " objc.Object";
    }
  }

  /** One iteration of the method loop of `printGoImpl`. */
  method PrintImplMethod(types: map<string, Def>, g: string, m: Function) returns (out: string)
    requires SigDefined(m.typ)
    ensures out == if Exposed(types, m) then ImplDef(types, g, m) else ""
  {
    if !EnsureGoName(m.base).0 {
      return "";
    }
    var ft := m.typ;
    var bad := FindUnusable(types, ft.args);
    if bad.Some? {
      return "";
    }
    var returnType := "";
    if ft.ret.Some? {
      var (typ, tok) := GoTypeName(types, ft.ret.value);
      if tok {
        var (_, cok) := CastToGo(types, ft.ret.value, "v");
        if cok {
          returnType := " " + typ;
        }
      }
    }
    assert returnType != "" <==> ReturnsObject(types, ft.ret);
    var name := ProtoMethName(m.base.name);
    var params := PrintObjectList(ft.args);
    var retDecl := if returnType != "" then " objc.Object" else "";
    var casts := PrintGoCasts(types, ft.args);
    var callStmt := "o.v." + name + "(" + casts + ")";
    if returnType != "" {
      var (c, _) := CastToObjC(types, ft.ret.value, callStmt);
      callStmt := "return " + c;
    }
    out := ForwardText(g, name, params, retDecl, callStmt);
  }

  /** One iteration of the method loop of `printGoClassReg`. */
  method PrintRegMethod(types: map<string, Def>, g: string, m: Function) returns (out: string)
    requires SigDefined(m.typ)
    ensures out == if Exposed(types, m) then RegLine(g, m) else ""
  {
    if !EnsureGoName(m.base).0 {
      return "";
    }
    var bad := FindUnusable(types, m.typ.args);
    if bad.Some? {
      return "";
    }
    out := "\n\tc.AddMethod(" + Quote(m.base.name) + ", go" + g + "." + ProtoMethName(m.base.name) + ")";
  }

  /** `printGoClassReg` as the Go code runs it. */
  method PrintGoClassReg(types: map<string, Def>, p: ProtocolType) returns (out: string, ok: bool)
    requires MethodsDefined(p.methods)
    ensures out == ClassRegText(types, p) && ok
  {
    var g := GoNameOf(p.base);
    out := "\nfunc init(){\n\tc := objc.NewClass(go" + g + "{})";
    ghost var header := out;
    var ms := p.methods;
    for i := 0 to |ms|
      invariant out == header + RegMethods(types, g, ms, i)
    {
      var text := PrintRegMethod(types, g, ms[i]);
      Assoc(header, RegMethods(types, g, ms, i), text);
      out := out + text;
    }
    out := out + "\n\tobjc.RegisterClass(c)\n}\n";
    ok := true;
  }

  /** `printGoImpl` as the Go code runs it. */
  method PrintGoImpl(types: map<string, Def>, p: ProtocolType) returns (out: string, ok: bool)
    requires MethodsDefined(p.methods)
    ensures out == ImplText(types, p) && ok
  {
    var g := GoNameOf(p.base);
    out := "\ntype go" + g + " struct{\n\tobjc.Object `objc:\"go" + g + " : " + p.base.name + "\"`\n\tv " + g + "\n}\n";
    ghost var header := out;
    var ms := p.methods;
    for i := 0 to |ms|
      invariant out == header + ImplMethods(types, g, ms, i)
    {
      var text := PrintImplMethod(types, g, ms[i]);
      Assoc(header, ImplMethods(types, g, ms, i), text);
      out := out + text;
    }
    var reg, rok := PrintGoClassReg(types, p);
    if !rok {
      return out + reg, false;
    }
    out := out + reg;
    ok := true;
  }

  /** `ProtocolType.PrintGoWrapper` as the Go code runs it. */
  method PrintProtocolWrapper(types: map<string, Def>, p: ProtocolType) returns (out: string, ok: bool)
    requires MethodsDefined(p.methods)
    ensures (out, ok) == ProtocolWrapper(types, p)
  {
    if !EnsureGoName(p.base).0 {
      return "", false;
    }
    var iface, iok := PrintGoInterface(types, p);
    out := iface;
    if !iok {
      return out, false;
    }
    var impl, mok := PrintGoImpl(types, p);
    out := out + impl;
    if !mok {
      return out, false;
    }
    ok := true;
  }

  // ---------------------------------------------------------------------------
  // Properties of the protocol wrapper
  // ---------------------------------------------------------------------------

  /** The first `n` methods that are kept, in order. */
  function Kept(ms: seq<Function>, n: nat, keep: Function -> bool): seq<Function>
    requires n <= |ms|
  {
    if n == 0 then [] else Kept(ms, n - 1, keep) + (if keep(ms[n - 1]) then [ms[n - 1]] else [])
  }

  /** The texts of all of `es`, in order. */
  function Texts(es: seq<Function>, text: Function -> string): string {
    if es == [] then "" else Texts(es[..|es| - 1], text) + text(es[|es| - 1])
  }

  lemma TextsSnoc(es: seq<Function>, m: Function, text: Function -> string)
    ensures Texts(es + [m], text) == Texts(es, text) + text(m)
  {
    var es' := es + [m];
    assert es'[..|es|] == es && es'[|es|] == m;
  }

  /** Printing the kept methods one by one is printing the list of kept methods. */
  lemma {:induction false} PickedIsKept(ms: seq<Function>, n: nat, keep: Function -> bool, text: Function -> string)
    requires n <= |ms|
    ensures Picked(ms, n, keep, text) == Texts(Kept(ms, n, keep), text)
  {
    if n > 0 {
      PickedIsKept(ms, n - 1, keep, text);
      var es := Kept(ms, n - 1, keep);
      if keep(ms[n - 1]) {
        TextsSnoc(es, ms[n - 1], text);
      } else {
        assert Kept(ms, n, keep) == es;
      }
    }
  }

  /** The kept methods are exactly the first `n` methods that pass `keep`. */
  lemma {:induction false} KeptMembers(ms: seq<Function>, n: nat, keep: Function -> bool)
    requires n <= |ms|
    ensures forall m :: m in Kept(ms, n, keep) <==> exists i :: 0 <= i < n && ms[i] == m && keep(m)
  {
    if n > 0 {
      KeptMembers(ms, n - 1, keep);
    }
  }

  /** The methods the implementation and the registration print, in order. */
  function ExposedMethods(types: map<string, Def>, ms: seq<Function>, n: nat): seq<Function>
    requires n <= |ms|
  {
    Kept(ms, n, IsExposed(types))
  }

  /** The methods printed are exactly the exposed ones among the first `n`. */
  lemma ExposedMethodsMembers(types: map<string, Def>, ms: seq<Function>, n: nat)
    requires n <= |ms| && MethodsDefined(ms)
    ensures forall m :: m in ExposedMethods(types, ms, n) <==> exists i :: 0 <= i < n && ms[i] == m && Exposed(types, m)
  {
    KeptMembers(ms, n, IsExposed(types));
  }

  /**
   * `printGoImpl` and `printGoClassReg` filter the methods alike: the
   * implementation defines a forwarding method for exactly the methods
   * registered, in the same order.
   */
  lemma RegisteredAreImplemented(types: map<string, Def>, g: string, ms: seq<Function>, n: nat)
    requires n <= |ms|
    ensures ImplMethods(types, g, ms, n) == Texts(ExposedMethods(types, ms, n), ImplOf(types, g))
    ensures RegMethods(types, g, ms, n) == Texts(ExposedMethods(types, ms, n), RegOf(g))
  {
    PickedIsKept(ms, n, IsExposed(types), ImplOf(types, g));
    PickedIsKept(ms, n, IsExposed(types), RegOf(g));
  }

  /**
   * Each registration binds the method's selector, verbatim, to a forwarding
   * method of the same name as the one the implementation defines.
   */
  lemma RegistrationNamesImplementation(types: map<string, Def>, g: string, m: Function)
    requires SigDefined(m.typ)
    ensures var name := ProtoMethName(m.base.name);
      RegLine(g, m) == "\n\tc.AddMethod(" + Quote(m.base.name) + ", go" + g + "." + name + ")" &&
      HasPrefix(ImplDef(types, g, m), "func (o go" + g + ") " + name + "(")
  {
  }

  /**
   * A named method with an unusable argument appears in the interface only
   * as a TODO line, and neither among the implementation nor the
   * registrations; a nameless method appears nowhere.
   */
  lemma UnusableMethodsOnlyMentioned(types: map<string, Def>, g: string, m: Function)
    requires SigDefined(m.typ) && !Exposed(types, m)
    ensures m.base.name == "" ==> InterfaceMethod(types, m) == ""
    ensures m.base.name != "" ==> HasPrefix(InterfaceMethod(types, m), "\n\t// TODO: " + m.base.name + " (")
    ensures ImplMethods(types, g, [m], 1) == "" && RegMethods(types, g, [m], 1) == ""
  {
    assert [m][0] == m && !IsExposed(types)(m);
    assert ImplMethods(types, g, [m], 1) == Picked([m], 0, IsExposed(types), ImplOf(types, g)) + "";
    assert RegMethods(types, g, [m], 1) == Picked([m], 0, IsExposed(types), RegOf(g)) + "";
  }

  /** An exposed method is declared in the interface under the name the implementation forwards to. */
  lemma ExposedMethodDeclared(types: map<string, Def>, m: Function)
    requires SigDefined(m.typ) && Exposed(types, m)
    ensures var name := ProtoMethName(m.base.name);
      exists j :: OccursAt(InterfaceMethod(types, m), "\t" + name + "(", j)
  {
    var name := ProtoMethName(m.base.name);
    var args := m.typ.args;
    var (returnType, comment) := InterfaceReturn(types, m.typ.ret);
    var post := ParamList(types, args, |args|) + ")" + returnType + "\n";
    assert InterfaceMethod(types, m) == comment + InterfaceSig(name, ParamList(types, args, |args|), returnType);
    OccursAfter(comment, "\t" + name + "(", post);
  }

  /** A string occurs right after what precedes it. */
  lemma OccursAfter(a: string, b: string, c: string)
    ensures OccursAt(a + (b + c), b, |a|)
  {
    assert (a + (b + c))[|a|..|a| + |b|] == b;
  }

  // ---------------------------------------------------------------------------
  // Function.printGoDef
  // ---------------------------------------------------------------------------

  /** `printGoDef`: a stub definition of a free function, and whether its signature is representable. */
  function FuncDef(types: map<string, Def>, f: Function): (string, bool)
    requires FuncNameDefined(f.typ)
  {
    var (args, ok) := GoArgs(types, f.typ);
    ("func " + f.base.name + args + " {\n\tpanic(\"not implemented\")\n}\n\n", ok)
  }

  method PrintGoDef(types: map<string, Def>, f: Function) returns (out: string, ok: bool)
    requires FuncNameDefined(f.typ)
    ensures (out, ok) == FuncDef(types, f)
  {
    out := "func " + f.base.name;
    var args;
    args, ok := PrintGoArgs(types, f.typ);
    out := out + args + " {\n\tpanic(\"not implemented\")\n}\n\n";
  }

  /**
   * A stub is printable exactly when every argument has a type with a Go
   * name and so has the return, if any.
   */
  lemma FuncDefOk(types: map<string, Def>, f: Function)
    requires FuncNameDefined(f.typ)
    ensures FuncDef(types, f).1 <==>
      ArgsRepresentable(types, f.typ, |f.typ.args|) &&
      (f.typ.ret.Some? ==> GoTypeName(types, f.typ.ret.value).1)
  {
    GoArgsOk(types, f.typ);
  }

  /** A stub always opens with the function's name and its argument list. */
  lemma FuncDefShape(types: map<string, Def>, f: Function)
    requires FuncNameDefined(f.typ)
    ensures HasPrefix(FuncDef(types, f).0, "func " + f.base.name + ("(" + ArgsUpTo(types, f.typ, |f.typ.args|).0 + ")"))
  {
    GoArgsShape(types, f.typ);
    PrefixInside("func " + f.base.name, GoArgs(types, f.typ).0, " {\n\tpanic(\"not implemented\")\n}\n\n",
      "(" + ArgsUpTo(types, f.typ, |f.typ.args|).0 + ")");
  }

  /** A prefix of the middle part extends the first part to a prefix of the whole. */
  lemma PrefixInside(a: string, b: string, c: string, p: string)
    requires HasPrefix(b, p)
    ensures HasPrefix(a + b + c, a + p)
  {
    assert (a + b + c)[..|a| + |p|] == a + p;
  }

  // ---------------------------------------------------------------------------
  // Generator.PrintGo
  // ---------------------------------------------------------------------------

  /** The functions under `keys`, in that order, each written only when printable. */
  function FuncsText(types: map<string, Def>, funcs: map<string, Function>, keys: seq<string>, n: nat): string
    requires n <= |keys|
    requires forall i :: 0 <= i < |keys| ==> keys[i] in funcs && FuncNameDefined(funcs[keys[i]].typ)
  {
    if n == 0 then ""
    else
      var d := FuncDef(types, funcs[keys[n - 1]]);
      FuncsText(types, funcs, keys, n - 1) + (if d.1 then d.0 else "")
  }
}
