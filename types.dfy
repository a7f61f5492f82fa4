/**
 * The type algebra of the generator (generator/member_type.go,
 * generator/known_type.go): the closed set of type variants an Objective-C
 * declaration is translated into.
 *
 * A Go `Type` interface value may be nil; an element, a return type or an
 * argument type is therefore an `Option<Type>`. A reference to a struct or
 * protocol definition is `Entity(refid)`: the definition itself lives in the
 * generator's store under that refid, so two references with the same refid
 * denote the same object.
 */
module Types {
  import opened Wrappers
  import opened Strings

  datatype Type =
    | Primitive(name: string)
    | Named(name: string)
    | Ptr(elem: Option<Type>)
    | Array(size: string, elem: Option<Type>)
    | Const(elem: Option<Type>)
    | Strong(elem: Option<Type>)
    | Nullable(elem: Option<Type>, nullable: bool)
    | AppkitExtern(elem: Option<Type>)
    | Func(fn: FuncType)
    | Unknown(name: string, comment: string)
    | NSString
    | Entity(refid: string)

  datatype FuncArg = FuncArg(name: string, typ: Option<Type>)

  datatype FuncType = FuncType(ret: Option<Type>, args: seq<FuncArg>)

  /** Const, Strong, Nullable and appkitExtern embed their element. */
  predicate IsQualifier(t: Type) {
    t.Const? || t.Strong? || t.Nullable? || t.AppkitExtern?
  }

  /**
   * Asking `t` for its Go type name reaches no nil interface value (which would
   * make the Go code panic): every element on the way is present. A function
   * type's own nil return or argument types are handled by `printGoArgs`.
   */
  predicate NameDefined(t: Type)
    decreases t, 0
  {
    match t
    case Ptr(e) => e.Some? && NameDefined(e.value)
    case Array(_, e) => e.Some? && NameDefined(e.value)
    case Const(e) => e.Some? && NameDefined(e.value)
    case Strong(e) => e.Some? && NameDefined(e.value)
    case Nullable(e, _) => e.Some? && NameDefined(e.value)
    case AppkitExtern(e) => e.Some? && NameDefined(e.value)
    case Func(ft) => FuncNameDefined(ft)
    case _ => true
  }

  predicate FuncNameDefined(ft: FuncType)
    decreases ft, 1
  {
    (ft.ret.Some? ==> NameDefined(ft.ret.value)) &&
    forall i :: 0 <= i < |ft.args| && ft.args[i].typ.Some? ==> NameDefined(ft.args[i].typ.value)
  }

  /**
   * Casting `t` reaches no nil interface value: pointers and qualifiers
   * delegate their casts to the element, every other variant answers itself.
   */
  predicate CastDefined(t: Type) {
    match t
    case Ptr(e) => e.Some? && CastDefined(e.value)
    case Const(e) => e.Some? && CastDefined(e.value)
    case Strong(e) => e.Some? && CastDefined(e.value)
    case Nullable(e, _) => e.Some? && CastDefined(e.value)
    case AppkitExtern(e) => e.Some? && CastDefined(e.value)
    case _ => true
  }

  /** Whatever can be named can be cast. */
  lemma {:induction false} NameDefinedCastDefined(t: Type)
    requires NameDefined(t)
    ensures CastDefined(t)
  {
    match t
    case Ptr(e) => NameDefinedCastDefined(e.value);
    case Const(e) => NameDefinedCastDefined(e.value);
    case Strong(e) => NameDefinedCastDefined(e.value);
    case Nullable(e, _) => NameDefinedCastDefined(e.value);
    case AppkitExtern(e) => NameDefinedCastDefined(e.value);
    case _ =>
  }

  /** The type under all outer qualifier layers. */
  function Unqualified(t: Type): (r: Type)
    requires CastDefined(t)
    ensures !IsQualifier(r)
    ensures CastDefined(r)
    ensures NameDefined(t) ==> NameDefined(r)
  {
    match t
    case Const(e) => Unqualified(e.value)
    case Strong(e) => Unqualified(e.value)
    case Nullable(e, _) => Unqualified(e.value)
    case AppkitExtern(e) => Unqualified(e.value)
    case _ => t
  }

  // ---------------------------------------------------------------------------
  // %#v of a type, as it appears inside emitted comments
  // ---------------------------------------------------------------------------

  /**
   * A rendering of a (possibly nil) type in the spirit of Go's `%#v`; pointers
   * to entities print their refid where Go would print an address.
   */
  function Dump(t: Option<Type>): (r: string)
    ensures r != ""
    decreases t
  {
    match t
    case None => "<nil>"
    case Some(u) => DumpType(u)
  }

  function DumpType(t: Type): (r: string)
    ensures r != ""
    decreases t
  {
    match t
    case Primitive(n) => "generator.PrimitiveType{Name:" + Quote(n) + "}"
    case Named(n) => "generator.NamedType{Name:" + Quote(n) + "}"
    case Ptr(e) => "generator.PtrType{Elem:" + Dump(e) + "}"
    case Array(s, e) => "generator.ArrayType{Size:" + Quote(s) + ", Elem:" + Dump(e) + "}"
    case Const(e) => "generator.ConstType{Type:" + Dump(e) + "}"
    case Strong(e) => "generator.StrongType{Type:" + Dump(e) + "}"
    case Nullable(e, n) =>
      "generator.NullableType{Type:" + Dump(e) + ", Nullable:" + (if n then "true" else "false") + "}"
    case AppkitExtern(e) => "generator.appkitExtern{Type:" + Dump(e) + "}"
    case Func(ft) =>
      "&generator.FuncType{Return:" + Dump(ft.ret) + ", Args:" + NatToString(|ft.args|) + "}"
    case Unknown(n, c) => "generator.UnknownType{Name:" + Quote(n) + ", Comment:" + Quote(c) + "}"
    case NSString => "generator.NSString{}"
    case Entity(r) => "(*generator.StructType)(" + Quote(r) + ")"
  }
}
