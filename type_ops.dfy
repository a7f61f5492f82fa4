/**
 * The three questions every type answers (generator/member_type.go,
 * generator/known_type.go, generator/struct.go, generator/protocol.go): its
 * Go type name, a cast of an expression to ObjC and a cast to Go, each with an
 * ok flag; and `printGoArgs`, the argument list of a function type.
 *
 * Entity references are answered by the definition the store holds for them.
 */
module TypeOps {
  import opened Wrappers
  import opened Strings
  import opened Names
  import opened Types
  import opened Entities

  // ---------------------------------------------------------------------------
  // GoTypeName
  // ---------------------------------------------------------------------------

  /** `UnknownType.GoTypeName`'s text: the name or `interface{}`, then the comment. */
  function UnknownText(name: string, comment: string): string {
    (if name != "" then name else "interface{}") + (if comment != "" then " /* " + comment + " */" else "")
  }

  function GoTypeName(types: map<string, Def>, t: Type): (string, bool)
    requires NameDefined(t)
    decreases t, 0, 0
  {
    match t
    case Primitive(n) => (n, true)
    case Named(n) => (n, true)
    case Ptr(e) =>
      var r := GoTypeName(types, e.value);
      ("*" + r.0, r.1)
    case Array(size, e) =>
      var r := GoTypeName(types, e.value);
      ("[" + size + "]" + r.0, r.1)
    case Const(e) => GoTypeName(types, e.value)
    case Strong(e) => GoTypeName(types, e.value)
    case Nullable(e, _) => GoTypeName(types, e.value)
    case AppkitExtern(e) => GoTypeName(types, e.value)
    case Func(ft) =>
      var r := GoArgs(types, ft);
      ("func" + r.0, r.1)
    case Unknown(n, c) => (UnknownText(n, c), false)
    case NSString => ("string", true)
    case Entity(ref) => DefGoTypeName(Lookup(types, ref))
  }

  // ---------------------------------------------------------------------------
  // printGoArgs
  // ---------------------------------------------------------------------------

  /** Some argument of `ft` carries a name. */
  predicate HasNames(ft: FuncType) {
    exists i :: 0 <= i < |ft.args| && ft.args[i].name != ""
  }

  /** One of the first `n` arguments carries a name. */
  predicate NamedBefore(ft: FuncType, n: nat) {
    exists j :: 0 <= j < n && j < |ft.args| && ft.args[j].name != ""
  }

  /** The name printed for argument `i`: `arg<i>` stands in for a missing one once any argument is named. */
  function ArgName(ft: FuncType, i: nat): string
    requires i < |ft.args|
  {
    if HasNames(ft) && ft.args[i].name == "" then "arg" + NatToString(i) else ft.args[i].name
  }

  /** The text of argument `i`, with its leading separator, and whether its type is representable. */
  function ArgPiece(types: map<string, Def>, ft: FuncType, i: nat): (string, bool)
    requires FuncNameDefined(ft) && i < |ft.args|
    decreases ft, 0, 0
  {
    var sep := if i != 0 then ", " else "";
    var name := ArgName(ft, i);
    var pre := sep + (if name != "" then name + " " else "");
    var a := ft.args[i];
    if a.typ.None? then (pre, false)
    else
      var r := GoTypeName(types, a.typ.value);
      (pre + r.0, r.1)
  }

  /** The first `n` arguments. */
  function ArgsUpTo(types: map<string, Def>, ft: FuncType, n: nat): (string, bool)
    requires FuncNameDefined(ft) && n <= |ft.args|
    decreases ft, 1, n
  {
    if n == 0 then ("", true)
    else
      var r := ArgsUpTo(types, ft, n - 1);
      var p := ArgPiece(types, ft, n - 1);
      (r.0 + p.0, r.1 && p.1)
  }

  /** The return part: a space and the return type's name, or nothing for a nil return. */
  function RetPart(types: map<string, Def>, ft: FuncType): (string, bool)
    requires FuncNameDefined(ft)
    decreases ft, 1, 0
  {
    if ft.ret.None? then ("", true)
    else
      var r := GoTypeName(types, ft.ret.value);
      (" " + r.0, r.1)
  }

  /** `printGoArgs`: "(" + arguments + ")" + return, and whether every part is representable. */
  function GoArgs(types: map<string, Def>, ft: FuncType): (string, bool)
    requires FuncNameDefined(ft)
    decreases ft, 2, 0
  {
    var a := ArgsUpTo(types, ft, |ft.args|);
    var r := RetPart(types, ft);
    ("(" + a.0 + ")" + r.0, a.1 && r.1)
  }

  /** `printGoArgs` as the Go code runs it: a scan for names, then one pass over the arguments. */
  method PrintGoArgs(types: map<string, Def>, ft: FuncType) returns (out: string, ok: bool)
    requires FuncNameDefined(ft)
    ensures (out, ok) == GoArgs(types, ft)
  {
    var hasNames := ScanNames(ft);
    var args, argsOk := PrintArgs(types, ft, hasNames);
    var retText, retOk := PrintRet(types, ft);
    out := "(" + args + ")" + retText;
    ok := argsOk && retOk;
  }

  /** The argument loop of `printGoArgs`. */
  method PrintArgs(types: map<string, Def>, ft: FuncType, hasNames: bool) returns (out: string, ok: bool)
    requires FuncNameDefined(ft)
    requires hasNames == HasNames(ft)
    ensures (out, ok) == ArgsUpTo(types, ft, |ft.args|)
  {
    out := "";
    ok := true;
    var i := 0;
    while i < |ft.args|
      invariant 0 <= i <= |ft.args|
      invariant (out, ok) == ArgsUpTo(types, ft, i)
    {
      var piece, pok := PrintArg(types, ft, i, hasNames);
      out := out + piece;
      if !pok {
        ok := false;
      }
      ArgsUpToStep(types, ft, i);
      i := i + 1;
    }
  }

  /** The return part of `printGoArgs`. */
  method PrintRet(types: map<string, Def>, ft: FuncType) returns (out: string, ok: bool)
    requires FuncNameDefined(ft)
    ensures (out, ok) == RetPart(types, ft)
  {
    out := "";
    ok := true;
    if ft.ret.Some? {
      var rt := GoTypeName(types, ft.ret.value);
      if !rt.1 {
        ok := false;
      }
      out := " " + rt.0;
    }
  }

  /** The first loop of `printGoArgs`: does any argument carry a name? */
  method ScanNames(ft: FuncType) returns (hasNames: bool)
    ensures hasNames == HasNames(ft)
  {
    hasNames := false;
    var i := 0;
    while i < |ft.args|
      invariant 0 <= i <= |ft.args|
      invariant !NamedBefore(ft, i)
    {
      if ft.args[i].name != "" {
        hasNames := true;
        break;
      }
      i := i + 1;
    }
  }

  /** One iteration of the argument loop of `printGoArgs`. */
  method PrintArg(types: map<string, Def>, ft: FuncType, i: nat, hasNames: bool) returns (piece: string, ok: bool)
    requires FuncNameDefined(ft) && i < |ft.args|
    requires hasNames == HasNames(ft)
    ensures (piece, ok) == ArgPiece(types, ft, i)
  {
    var sep := if i != 0 then ", " else "";
    var name := ft.args[i].name;
    if hasNames && name == "" {
      name := "arg" + NatToString(i);
    }
    assert name == ArgName(ft, i);
    piece := sep + (if name != "" then name + " " else "");
    if ft.args[i].typ.None? {
      return piece, false;
    }
    var at := GoTypeName(types, ft.args[i].typ.value);
    piece := piece + at.0;
    ok := at.1;
  }

  lemma ArgsUpToStep(types: map<string, Def>, ft: FuncType, i: nat)
    requires FuncNameDefined(ft) && i < |ft.args|
    ensures ArgsUpTo(types, ft, i + 1) ==
      (ArgsUpTo(types, ft, i).0 + ArgPiece(types, ft, i).0, ArgsUpTo(types, ft, i).1 && ArgPiece(types, ft, i).1)
  {
  }

  /** The first `n` arguments are all present and representable. */
  predicate ArgsRepresentable(types: map<string, Def>, ft: FuncType, n: nat)
    requires FuncNameDefined(ft) && n <= |ft.args|
  {
    forall i :: 0 <= i < n ==> ft.args[i].typ.Some? && GoTypeName(types, ft.args[i].typ.value).1
  }

  lemma {:induction false} ArgsUpToOk(types: map<string, Def>, ft: FuncType, n: nat)
    requires FuncNameDefined(ft) && n <= |ft.args|
    ensures ArgsUpTo(types, ft, n).1 <==> ArgsRepresentable(types, ft, n)
  {
    if n > 0 {
      ArgsUpToOk(types, ft, n - 1);
      ArgPieceOk(types, ft, n - 1);
      ArgsRepresentableStep(types, ft, n - 1);
    }
  }

  /** Argument `i` is representable exactly when it has a representable type. */
  lemma ArgPieceOk(types: map<string, Def>, ft: FuncType, i: nat)
    requires FuncNameDefined(ft) && i < |ft.args|
    ensures ArgPiece(types, ft, i).1 <==> ft.args[i].typ.Some? && GoTypeName(types, ft.args[i].typ.value).1
  {
  }

  lemma ArgsRepresentableStep(types: map<string, Def>, ft: FuncType, i: nat)
    requires FuncNameDefined(ft) && i < |ft.args|
    ensures ArgsRepresentable(types, ft, i + 1) <==>
      ArgsRepresentable(types, ft, i) && ft.args[i].typ.Some? && GoTypeName(types, ft.args[i].typ.value).1
  {
  }

  /**
   * A function type is representable exactly when every argument has a type,
   * every argument type is representable and so is the return type.
   */
  lemma GoArgsOk(types: map<string, Def>, ft: FuncType)
    requires FuncNameDefined(ft)
    ensures GoArgs(types, ft).1 <==>
      ArgsRepresentable(types, ft, |ft.args|) &&
      (ft.ret.Some? ==> GoTypeName(types, ft.ret.value).1)
  {
    ArgsUpToOk(types, ft, |ft.args|);
  }

  /** Once one argument is named every argument is; otherwise none is. */
  lemma ArgNamesAllOrNone(ft: FuncType)
    ensures HasNames(ft) ==> forall i :: 0 <= i < |ft.args| ==> ArgName(ft, i) != ""
    ensures HasNames(ft) ==> forall i :: 0 <= i < |ft.args| && ft.args[i].name == "" ==>
      ArgName(ft, i) == "arg" + NatToString(i)
    ensures !HasNames(ft) ==> forall i :: 0 <= i < |ft.args| ==> ArgName(ft, i) == ""
  {
  }

  /** The text always opens with the parenthesised argument list. */
  lemma GoArgsShape(types: map<string, Def>, ft: FuncType)
    requires FuncNameDefined(ft)
    ensures var s := GoArgs(types, ft).0;
      HasPrefix(s, "(" + ArgsUpTo(types, ft, |ft.args|).0 + ")") &&
      (ft.ret.None? ==> HasSuffix(s, ")"))
  {
  }

  // ---------------------------------------------------------------------------
  // CastToObjC and CastToGo
  // ---------------------------------------------------------------------------

  function CastToObjC(types: map<string, Def>, t: Type, exp: string): (string, bool)
    requires CastDefined(t)
  {
    match t
    case Primitive(_) => (exp, true)
    case Named(_) => (exp, false)
    case Ptr(e) => CastToObjC(types, e.value, exp)
    case Array(_, _) => (exp, false)
    case Const(e) => CastToObjC(types, e.value, exp)
    case Strong(e) => CastToObjC(types, e.value, exp)
    case Nullable(e, _) => CastToObjC(types, e.value, exp)
    case AppkitExtern(e) => CastToObjC(types, e.value, exp)
    case Func(_) => (exp, false)
    case Unknown(_, _) => (exp, false)
    case NSString => ("foundation.NSStringFromString(" + exp + ")", true)
    case Entity(ref) => DefCastToObjC(Lookup(types, ref), exp)
  }

  function CastToGo(types: map<string, Def>, t: Type, exp: string): (string, bool)
    requires CastDefined(t)
  {
    match t
    case Primitive(n) => if n == "bool" then (exp + ".Bool()", true) else (exp, false)
    case Named(_) => (exp, false)
    case Ptr(e) => CastToGo(types, e.value, exp)
    case Array(_, _) => (exp, false)
    case Const(e) => CastToGo(types, e.value, exp)
    case Strong(e) => CastToGo(types, e.value, exp)
    case Nullable(e, _) => CastToGo(types, e.value, exp)
    case AppkitExtern(e) => CastToGo(types, e.value, exp)
    case Func(_) => (exp, false)
    case Unknown(_, _) => (exp, false)
    case NSString => (exp, false)
    case Entity(ref) => DefCastToGo(Lookup(types, ref), exp)
  }

  // ---------------------------------------------------------------------------
  // Properties of the type algebra
  // ---------------------------------------------------------------------------

  /**
   * Qualifiers are transparent: however many Const, Strong, Nullable and
   * appkitExtern layers wrap a type, its name and both casts are those of the
   * type underneath.
   */
  lemma {:induction false} QualifiersTransparent(types: map<string, Def>, t: Type, exp: string)
    requires CastDefined(t)
    ensures CastToObjC(types, Unqualified(t), exp) == CastToObjC(types, t, exp)
    ensures CastToGo(types, Unqualified(t), exp) == CastToGo(types, t, exp)
    ensures NameDefined(t) ==> GoTypeName(types, Unqualified(t)) == GoTypeName(types, t)
  {
    match t
    case Const(e) => QualifiersTransparent(types, e.value, exp);
    case Strong(e) => QualifiersTransparent(types, e.value, exp);
    case Nullable(e, _) => QualifiersTransparent(types, e.value, exp);
    case AppkitExtern(e) => QualifiersTransparent(types, e.value, exp);
    case _ =>
  }

  /** A pointer adds "*" to its element's name and casts as its element does. */
  lemma PtrDelegates(types: map<string, Def>, e: Type, exp: string)
    requires NameDefined(e)
    ensures GoTypeName(types, Ptr(Some(e))) == ("*" + GoTypeName(types, e).0, GoTypeName(types, e).1)
    ensures CastDefined(e)
    ensures CastToObjC(types, Ptr(Some(e)), exp) == CastToObjC(types, e, exp)
    ensures CastToGo(types, Ptr(Some(e)), exp) == CastToGo(types, e, exp)
  {
    NameDefinedCastDefined(e);
  }

  /** An array is named "[" + size + "]" + element, and never castable in either direction. */
  lemma ArrayNeverCastable(types: map<string, Def>, size: string, e: Option<Type>, exp: string)
    ensures CastToObjC(types, Array(size, e), exp) == (exp, false)
    ensures CastToGo(types, Array(size, e), exp) == (exp, false)
    ensures e.Some? && NameDefined(e.value) ==>
      GoTypeName(types, Array(size, e)) == ("[" + size + "]" + GoTypeName(types, e.value).0, GoTypeName(types, e.value).1)
  {
  }

  /** Of all primitive types only `bool` casts to Go, through `.Bool()`. */
  lemma PrimitiveCastToGo(types: map<string, Def>, n: string, exp: string)
    ensures CastToGo(types, Primitive(n), exp).1 <==> n == "bool"
    ensures n == "bool" ==> CastToGo(types, Primitive(n), exp).0 == exp + ".Bool()"
    ensures CastToObjC(types, Primitive(n), exp) == (exp, true)
  {
  }

  /** NSString is always the Go string type and always converts to ObjC. */
  lemma NSStringAnswers(types: map<string, Def>, exp: string)
    ensures GoTypeName(types, NSString) == ("string", true)
    ensures CastToObjC(types, NSString, exp) == ("foundation.NSStringFromString(" + exp + ")", true)
  {
  }

  /** `t` mentions an unknown type somewhere its name is built from. */
  predicate MentionsUnknown(t: Type)
    requires NameDefined(t)
    decreases t, 0
  {
    match t
    case Unknown(_, _) => true
    case Ptr(e) => MentionsUnknown(e.value)
    case Array(_, e) => MentionsUnknown(e.value)
    case Const(e) => MentionsUnknown(e.value)
    case Strong(e) => MentionsUnknown(e.value)
    case Nullable(e, _) => MentionsUnknown(e.value)
    case AppkitExtern(e) => MentionsUnknown(e.value)
    case Func(ft) => FuncMentionsUnknown(ft)
    case _ => false
  }

  predicate FuncMentionsUnknown(ft: FuncType)
    requires FuncNameDefined(ft)
    decreases ft, 1
  {
    (ft.ret.Some? && MentionsUnknown(ft.ret.value)) ||
    exists i :: 0 <= i < |ft.args| && ft.args[i].typ.Some? && MentionsUnknown(ft.args[i].typ.value)
  }

  /** An unknown type anywhere inside a type makes the whole type unrepresentable. */
  lemma {:induction false} UnknownPoisons(types: map<string, Def>, t: Type)
    requires NameDefined(t) && MentionsUnknown(t)
    ensures !GoTypeName(types, t).1
    decreases t, 0
  {
    match t
    case Unknown(_, _) =>
    case Ptr(e) => UnknownPoisons(types, e.value);
    case Array(_, e) => UnknownPoisons(types, e.value);
    case Const(e) => UnknownPoisons(types, e.value);
    case Strong(e) => UnknownPoisons(types, e.value);
    case Nullable(e, _) => UnknownPoisons(types, e.value);
    case AppkitExtern(e) => UnknownPoisons(types, e.value);
    case Func(ft) => FuncUnknownPoisons(types, ft);
  }

  lemma {:induction false} FuncUnknownPoisons(types: map<string, Def>, ft: FuncType)
    requires FuncNameDefined(ft) && FuncMentionsUnknown(ft)
    ensures !GoArgs(types, ft).1
    decreases ft, 1
  {
    GoArgsOk(types, ft);
    if ft.ret.Some? && MentionsUnknown(ft.ret.value) {
      UnknownPoisons(types, ft.ret.value);
    } else {
      var i :| 0 <= i < |ft.args| && ft.args[i].typ.Some? && MentionsUnknown(ft.args[i].typ.value);
      UnknownPoisons(types, ft.args[i].typ.value);
    }
  }

  /** The text of an unknown type names `interface{}` (or its name) and carries its comment. */
  lemma UnknownTextShape(types: map<string, Def>, n: string, c: string)
    ensures !GoTypeName(types, Unknown(n, c)).1
    ensures HasPrefix(GoTypeName(types, Unknown(n, c)).0, if n != "" then n else "interface{}")
    ensures c != "" ==> HasSuffix(GoTypeName(types, Unknown(n, c)).0, " /* " + c + " */")
    ensures c == "" ==> GoTypeName(types, Unknown(n, c)).0 == (if n != "" then n else "interface{}")
  {
  }
}
