/**
 * The signature resolver (generator/member_type.go): `getTypeByName` turns
 * the text of an Objective-C type into a `Type`, trying its rules in a fixed
 * order and taking the first that applies; `getTypeFromLinkText` and
 * `getMemberType` resolve an index type that may be a cross-reference.
 *
 * Every rule of `getTypeByName` either answers directly or recurses on a
 * strictly shorter text, and no rule produces an error, so the resolver is a
 * total function. A nil result (`None`) is the Go nil `Type` of `void`.
 */
module Resolver {
  import opened Wrappers
  import opened Strings
  import opened Doxy
  import opened Types
  import opened Entities

  // ---------------------------------------------------------------------------
  // The tables
  // ---------------------------------------------------------------------------

  /** `overrideTypes`: texts with a fixed meaning, looked up verbatim. */
  const Overrides: map<string, Type> := map[
    "" := Primitive("interface{}"),
    "void *" := Primitive("uintptr"),
    "__strong void *" := Primitive("uintptr"),
    "char *" := Array("", Some(Primitive("byte"))),
    "NSString *" := NSString
  ]

  /** `primitiveTypes`: C scalar types and their Go counterparts. */
  const Primitives: map<string, string> := map[
    "BOOL" := "bool",
    "bool" := "bool",
    "char" := "byte",
    "int8_t" := "int8",
    "int16_t" := "int16",
    "int32_t" := "int32",
    "int64_t" := "int64",
    "uint8_t" := "uint8",
    "uint16_t" := "uint16",
    "uint32_t" := "uint32",
    "uint64_t" := "uint64",
    "int" := "int",
    "long" := "int64",
    "long long" := "int64",
    "unsigned" := "uint",
    "unsigned int" := "uint",
    "unsigned short" := "uint16",
    "signed int" := "int",
    "unsigned long" := "uint64",
    "unsigned long long" := "uint64",
    "uintptr_t" := "uintptr"
  ]

  /** What a qualifier wrapper builds around the resolved element. */
  datatype WrapKind = WrapExtern | WrapNullable(nullable: bool) | WrapKeep | WrapConst | WrapStrong | WrapPtr

  /** An entry of `prefixWrappers`: a prefix, or (when the prefix is empty) a suffix. */
  datatype QualifierWrapper = QualifierWrapper(prefix: string, suffix: string, kind: WrapKind)

  /** `prefixWrappers`, in the order they are tried. */
  const QualifierWrappers: seq<QualifierWrapper> := [
    QualifierWrapper("APPKIT_EXTERN ", "", WrapExtern),
    QualifierWrapper("__nullable ", "", WrapNullable(true)),
    QualifierWrapper("nullable ", "", WrapNullable(true)),
    QualifierWrapper("__null_unspecified ", "", WrapKeep),
    QualifierWrapper("const ", "", WrapConst),
    QualifierWrapper("__strong ", "", WrapStrong),
    QualifierWrapper("", "*", WrapPtr),
    QualifierWrapper("", "_Nullable", WrapNullable(true)),
    QualifierWrapper("", "__nonnull", WrapNullable(false)),
    QualifierWrapper("", "__nullable", WrapNullable(true)),
    QualifierWrapper("", "__null_unspecified", WrapKeep)
  ]

  /** Every entry has something to strip, so stripping shortens the text. */
  lemma QualifierWrappersStrip()
    ensures forall j :: 0 <= j < |QualifierWrappers| ==>
      QualifierWrappers[j].prefix != "" || QualifierWrappers[j].suffix != ""
  {
  }

  /** The entries the lemmas below rely on: the first letters of the prefixes, the last of the suffixes. */
  lemma WrapperEntries()
    ensures |QualifierWrappers| == 11
    ensures QualifierWrappers[4] == QualifierWrapper("const ", "", WrapConst)
    ensures QualifierWrappers[6] == QualifierWrapper("", "*", WrapPtr)
    ensures forall j :: 0 <= j < 11 ==> Entry(QualifierWrappers[j], j)
  {
  }

  predicate Entry(q: QualifierWrapper, j: int) {
    if j < 6 then PrefixEntry(q, j) else SuffixEntry(q)
  }

  predicate PrefixEntry(q: QualifierWrapper, j: int) {
    q.prefix != "" && (q.prefix[0] == 'c' <==> j == 4) && q.prefix[0] != 'i' && q.prefix[0] != 'v'
  }

  predicate SuffixEntry(q: QualifierWrapper) {
    q.prefix == "" && q.suffix != "" && q.suffix[|q.suffix| - 1] != 't' && q.suffix[|q.suffix| - 1] != ']'
  }

  /** All prefix entries are tried before all suffix entries. */
  lemma PrefixesBeforeSuffixes()
    ensures forall i, j :: 0 <= i < j < |QualifierWrappers| && QualifierWrappers[j].prefix != "" ==>
      QualifierWrappers[i].prefix != ""
  {
  }

  /** The `wrap` function of an entry. */
  function Wrap(k: WrapKind, e: Option<Type>): (r: Option<Type>)
    ensures k.WrapKeep? ==> r == e
    ensures !k.WrapKeep? ==> r.Some? && (IsQualifier(r.value) || r.value.Ptr?)
  {
    match k
    case WrapExtern => Some(AppkitExtern(e))
    case WrapNullable(n) => Some(Nullable(e, n))
    case WrapKeep => e
    case WrapConst => Some(Const(e))
    case WrapStrong => Some(Strong(e))
    case WrapPtr => Some(Ptr(e))
  }

  /** The entry applies to `typ`. */
  predicate Matches(w: QualifierWrapper, typ: string) {
    if w.prefix != "" then HasPrefix(typ, w.prefix) else HasSuffix(typ, w.suffix)
  }

  /** The element text of a matching entry: the text without its prefix or suffix, trimmed. */
  function Strip(w: QualifierWrapper, typ: string): (r: string)
    requires Matches(w, typ) && (w.prefix != "" || w.suffix != "")
    ensures |r| < |typ|
  {
    TrimSpace(if w.prefix != "" then TrimPrefix(typ, w.prefix) else TrimSuffix(typ, w.suffix))
  }

  /** The first entry at or after `k` that applies to `typ`, or -1. */
  function FirstWrapper(typ: string, k: nat): (r: int)
    requires k <= |QualifierWrappers|
    ensures r == -1 || (k <= r < |QualifierWrappers| && Matches(QualifierWrappers[r], typ))
    ensures forall j :: k <= j < |QualifierWrappers| && (r == -1 || j < r) ==> !Matches(QualifierWrappers[j], typ)
    decreases |QualifierWrappers| - k
  {
    if k == |QualifierWrappers| then -1
    else if Matches(QualifierWrappers[k], typ) then k
    else FirstWrapper(typ, k + 1)
  }

  // ---------------------------------------------------------------------------
  // Arguments of a function signature
  // ---------------------------------------------------------------------------

  /** The marker between the return type and the arguments of a function-pointer signature. */
  const FuncMarker: string := "(* )("

  predicate IsIdentChar(c: char) {
    IsLetter(c) || IsDigit(c) || c == '_'
  }

  predicate AllIdent(s: string) {
    forall i :: 0 <= i < |s| ==> IsIdentChar(s[i])
  }

  /** The last position of a character that cannot be part of an identifier, or -1. */
  function LastNonIdent(a: string): (r: int)
    ensures -1 <= r < |a|
    ensures r >= 0 ==> !IsIdentChar(a[r])
    ensures forall j :: r < j < |a| ==> IsIdentChar(a[j])
  {
    if a == "" then -1
    else if !IsIdentChar(a[|a| - 1]) then |a| - 1
    else LastNonIdent(a[..|a| - 1])
  }

  /** The backward scanning loop of `getTypeByName`. */
  method ScanLastNonIdent(a: string) returns (li: int)
    ensures li == LastNonIdent(a)
  {
    li := -1;
    var i := |a| - 1;
    while i >= 0
      invariant -1 <= i < |a|
      invariant forall j :: i < j < |a| ==> IsIdentChar(a[j])
    {
      if !IsIdentChar(a[i]) {
        li := i;
        break;
      }
      i := i - 1;
    }
    LastNonIdentUnique(a, li);
  }

  lemma {:induction false} LastNonIdentUnique(a: string, li: int)
    requires -1 <= li < |a|
    requires li >= 0 ==> !IsIdentChar(a[li])
    requires forall j :: li < j < |a| ==> IsIdentChar(a[j])
    ensures li == LastNonIdent(a)
  {
  }

  /**
   * One ", "-separated argument: a trailing "[]" is set aside, the identifier
   * tail after the last non-identifier character is the name (when there is
   * such a character and something follows it), the trimmed rest is the type,
   * and "[]" goes back onto the type.
   */
  function SplitArg(arg: string): (r: (string, string))
    ensures |r.1| <= |arg|
    ensures AllIdent(r.0)
    ensures HasSuffix(arg, "[]") ==> HasSuffix(r.1, "[]")
    ensures r.0 != "" ==> HasSuffix(TrimSuffix(arg, "[]"), r.0)
  {
    var suff := if HasSuffix(arg, "[]") then "[]" else "";
    var a := TrimSuffix(arg, "[]");
    var li := LastNonIdent(a);
    if li >= 0 && li < |a| - 1 then
      var t := TrimSpace(a[..li + 1]);
      assert a[li + 1..] == a[|a| - |a[li + 1..]|..];
      (a[li + 1..], t + suff)
    else ("", a + suff)
  }

  // ---------------------------------------------------------------------------
  // getTypeByName
  // ---------------------------------------------------------------------------

  /** `typ` has the shape "R(* )(args)". */
  predicate IsSignature(typ: string) {
    HasSuffix(typ, ")") && Index(typ, FuncMarker) >= 0
  }

  /** The bounds of the argument text of a signature. */
  lemma SignatureBounds(typ: string)
    requires IsSignature(typ)
    ensures Index(typ, FuncMarker) + |FuncMarker| <= |typ| - 1
  {
    var i := Index(typ, FuncMarker);
    assert typ[i..i + 5] == FuncMarker;
    assert typ[i + 4] == typ[i..i + 5][4] == '(';
    assert typ[|typ| - 1] == typ[|typ| - 1..][0] == ')';
  }

  /** The ", "-separated argument texts of a signature. */
  function SignatureArgs(typ: string): (r: seq<string>)
    requires IsSignature(typ)
    ensures forall k :: 0 <= k < |r| ==> |r[k]| < |typ|
  {
    SignatureBounds(typ);
    var i := Index(typ, FuncMarker);
    Split(typ[i + |FuncMarker|..|typ| - 1], ", ")
  }

  /**
   * `getTypeByName`: "void" is nil; then the override table; then
   * function-pointer signatures; then the first qualifier wrapper that
   * applies; then arrays, primitives, plain names, and unknown text.
   *
   * It never answers with an entity: only cross-references do. A named type
   * is text free of " ", "(" and ":", and an unknown type carries non-empty
   * residual text that holds one of them (which no later rule could make
   * sense of).
   */
  function Resolve(typ: string): (r: Option<Type>)
    ensures r.Some? ==> LeafShaped(r.value)
    decreases |typ|, 2
  {
    if typ == "void" then None
    else if typ in Overrides then Some(Overrides[typ])
    else if IsSignature(typ) then ResolveSignature(typ)
    else if FirstWrapper(typ, 0) >= 0 then ResolveWrapped(typ, FirstWrapper(typ, 0))
    else ResolveTail(typ)
  }

  /** No entity; a named type has a plain non-empty name; an unknown type has residual text the rules cannot use. */
  predicate LeafShaped(t: Type) {
    !t.Entity? &&
    (t.Named? ==> t.name != "" && !ContainsAny(t.name, " (:")) &&
    (t.Unknown? ==> t.name == "" && t.comment != "" && ContainsAny(t.comment, " (:"))
  }

  /** A function-pointer signature: the return type, then each argument. */
  function ResolveSignature(typ: string): (r: Option<Type>)
    requires IsSignature(typ)
    ensures r.Some? && r.value.Func?
    decreases |typ|, 1
  {
    var i := Index(typ, FuncMarker);
    var segs := SignatureArgs(typ);
    Some(Func(FuncType(Resolve(typ[..i]), seq(|segs|, k requires 0 <= k < |segs| => ResolveArg(segs[k])))))
  }

  /** The element of the applying qualifier wrapper `w`, resolved and wrapped. */
  function ResolveWrapped(typ: string, w: nat): (r: Option<Type>)
    requires w < |QualifierWrappers| && Matches(QualifierWrappers[w], typ)
    ensures r.Some? ==> LeafShaped(r.value)
    decreases |typ|, 1
  {
    QualifierWrappersStrip();
    var q := QualifierWrappers[w];
    var e := Resolve(Strip(q, typ));
    WrapLeaf(q.kind, e);
    Wrap(q.kind, e)
  }

  /** Wrapping keeps the element's shape, or builds a qualifier or a pointer around it. */
  lemma WrapLeaf(k: WrapKind, e: Option<Type>)
    requires e.Some? ==> LeafShaped(e.value)
    ensures Wrap(k, e).Some? ==> LeafShaped(Wrap(k, e).value)
  {
  }

  /** The rules after the wrappers: arrays, primitives, plain names, and unknown text. */
  function ResolveTail(typ: string): (r: Option<Type>)
    ensures r.Some? && !IsQualifier(r.value) && !r.value.Ptr? && !r.value.Func? && !r.value.Entity?
    ensures r.value.Named? ==> r.value.name == typ && !ContainsAny(typ, " (:")
    ensures r.value.Unknown? ==> r.value.name == "" && r.value.comment == typ && ContainsAny(typ, " (:")
    decreases |typ|, 1
  {
    if HasSuffix(typ, "]") && LastIndexOf(typ, '[') >= 0 then
      var i := LastIndexOf(typ, '[');
      assert typ[|typ| - 1] == typ[|typ| - 1..][0] == ']';
      Some(Array(typ[i + 1..|typ| - 1], Resolve(TrimSpace(typ[..i]))))
    else if typ in Primitives then Some(Primitive(Primitives[typ]))
    else if !ContainsAny(typ, " (:") then Some(Named(typ))
    else Some(Unknown("", typ))
  }

  /** One argument of a signature, resolved. */
  function ResolveArg(arg: string): FuncArg
    decreases |arg|, 3
  {
    var r := SplitArg(arg);
    FuncArg(r.0, Resolve(r.1))
  }

  // ---------------------------------------------------------------------------
  // Properties of the resolver
  // ---------------------------------------------------------------------------

  /** "void" is the nil type, before any other rule is tried. */
  lemma ResolveVoid()
    ensures Resolve("void") == None
  {
  }

  /** An exact entry of the override table wins over every later rule. */
  lemma OverrideWins(typ: string)
    requires typ in Overrides
    ensures Resolve(typ) == Some(Overrides[typ])
  {
  }

  /** The override table, entry by entry. */
  lemma OverrideEntries()
    ensures Resolve("") == Some(Primitive("interface{}"))
    ensures Resolve("void *") == Some(Primitive("uintptr"))
    ensures Resolve("__strong void *") == Some(Primitive("uintptr"))
    ensures Resolve("char *") == Some(Array("", Some(Primitive("byte"))))
    ensures Resolve("NSString *") == Some(NSString)
  {
  }

  /** The text reaches the qualifier wrappers, and `w` is the first that applies. */
  lemma ResolveWrapperRule(typ: string, w: nat)
    requires typ != "void" && typ !in Overrides && !IsSignature(typ)
    requires w < |QualifierWrappers| && FirstWrapper(typ, 0) == w
    ensures Resolve(typ) == ResolveWrapped(typ, w)
  {
  }

  /** The text reaches the rules after the qualifier wrappers. */
  lemma ResolveTailRule(typ: string)
    requires typ != "void" && typ !in Overrides && !IsSignature(typ) && FirstWrapper(typ, 0) == -1
    ensures Resolve(typ) == ResolveTail(typ)
  {
  }

  /** The text reaches the signature rule. */
  lemma ResolveSignatureRule(typ: string)
    requires typ != "void" && typ !in Overrides && IsSignature(typ)
    ensures Resolve(typ) == ResolveSignature(typ)
  {
  }

  lemma OverrideKeys()
    ensures Overrides.Keys == {"", "void *", "__strong void *", "char *", "NSString *"}
  {
  }

  /** Every key of the override table but "" starts with 'v', '_', 'c' or 'N'. */
  lemma NotOverrideByFirst(typ: string)
    requires typ != "" && typ[0] != 'v' && typ[0] != '_' && typ[0] != 'c' && typ[0] != 'N'
    ensures typ !in Overrides
  {
    OverrideKeys();
    assert "void *"[0] == 'v' && "__strong void *"[0] == '_' && "char *"[0] == 'c' && "NSString *"[0] == 'N';
  }

  /** No entry applies to the text. */
  predicate NoPrefixWrapper(typ: string) {
    forall j :: 0 <= j < |QualifierWrappers| && QualifierWrappers[j].prefix != "" ==>
      !HasPrefix(typ, QualifierWrappers[j].prefix)
  }

  /**
   * "const T" is Const of whatever T resolves to, whatever T is, as long as
   * it is not a signature: the prefix is tried before every suffix, so
   * "const T *" is const-first.
   */
  lemma {:induction false} ConstFirst(s: string)
    requires !HasSuffix(s, ")")
    ensures Resolve("const " + s) == Some(Const(Resolve(TrimSpace(s))))
  {
    var typ := "const " + s;
    assert typ[..6] == "const ";
    assert !HasSuffix(typ, ")") by {
      if s == "" {
        assert typ == "const ";
      } else {
        assert typ[|typ| - 1] == s[|s| - 1];
        assert typ[|typ| - 1..] == s[|s| - 1..];
      }
    }
    ConstRule(typ);
    assert TrimPrefix(typ, "const ") == s;
  }

  /** The const rule on a text with the prefix. */
  lemma ConstRule(typ: string)
    requires HasPrefix(typ, "const ") && !HasSuffix(typ, ")")
    ensures Resolve(typ) == Some(Const(Resolve(TrimSpace(TrimPrefix(typ, "const ")))))
  {
    ConstReachesWrappers(typ);
    ConstFirstWrapper(typ);
    ResolveWrapperRule(typ, 4);
    ConstWrapped(typ);
  }

  /** A text with the "const " prefix is neither "void" nor an override key. */
  lemma ConstReachesWrappers(typ: string)
    requires HasPrefix(typ, "const ")
    ensures typ != "void" && typ !in Overrides
  {
    assert typ[0] == 'c' && typ[1] == 'o';
    OverrideKeys();
    assert typ != "void" by { assert "void"[0] == 'v'; }
    assert typ != "void *" && typ != "__strong void *" && typ != "NSString *";
    assert typ != "char *" by { assert "char *"[1] == 'h'; }
  }

  /** The const entry is the first to apply to a text with its prefix. */
  lemma ConstFirstWrapper(typ: string)
    requires HasPrefix(typ, "const ")
    ensures FirstWrapper(typ, 0) == 4
  {
    WrapperEntries();
    forall j | 0 <= j < 4
      ensures !Matches(QualifierWrappers[j], typ)
    {
      var p := QualifierWrappers[j].prefix;
      assert Entry(QualifierWrappers[j], j);
      if |p| <= |typ| {
        assert typ[..|p|][0] == typ[0] == 'c';
      }
    }
    assert Matches(QualifierWrappers[4], typ);
  }

  /** The const entry strips the prefix and builds a `Const`. */
  lemma ConstWrapped(typ: string)
    requires HasPrefix(typ, "const ")
    ensures ResolveWrapped(typ, 4) == Some(Const(Resolve(TrimSpace(TrimPrefix(typ, "const ")))))
  {
    assert QualifierWrappers[4] == QualifierWrapper("const ", "", WrapConst);
    assert Strip(QualifierWrappers[4], typ) == TrimSpace(TrimPrefix(typ, "const "));
  }

  /**
   * "T*" (or "T *") is a pointer to whatever T resolves to, when the text has
   * no override, is not a signature and carries no qualifier prefix.
   */
  lemma {:induction false} PointerSuffix(s: string)
    requires s + "*" !in Overrides && s + "*" != "void"
    requires NoPrefixWrapper(s + "*")
    ensures Resolve(s + "*") == Some(Ptr(Resolve(TrimSpace(s))))
  {
    var typ := s + "*";
    PointerNoSignature(s);
    PointerFirstWrapper(s);
    ResolveWrapperRule(typ, 6);
    PointerWrapped(s);
  }

  /** A text ending in '*' is no signature. */
  lemma PointerNoSignature(s: string)
    ensures !IsSignature(s + "*")
  {
    var typ := s + "*";
    assert typ[|typ| - 1..] == "*";
  }

  /** Past the prefixes, the '*' entry is the first to apply. */
  lemma PointerFirstWrapper(s: string)
    requires NoPrefixWrapper(s + "*")
    ensures FirstWrapper(s + "*", 0) == 6
  {
    var typ := s + "*";
    WrapperEntries();
    forall j | 0 <= j < 6
      ensures !Matches(QualifierWrappers[j], typ)
    {
      assert Entry(QualifierWrappers[j], j);
    }
    assert typ[|typ| - 1..] == "*";
    assert Matches(QualifierWrappers[6], typ);
  }

  /** The '*' entry strips the suffix and builds a `Ptr`. */
  lemma PointerWrapped(s: string)
    ensures Matches(QualifierWrappers[6], s + "*")
    ensures ResolveWrapped(s + "*", 6) == Some(Ptr(Resolve(TrimSpace(s))))
  {
    var typ := s + "*";
    assert QualifierWrappers[6] == QualifierWrapper("", "*", WrapPtr);
    assert typ[|typ| - 1..] == "*";
    assert TrimSuffix(typ, "*") == s;
    assert Strip(QualifierWrappers[6], typ) == TrimSpace(s);
  }

  /**
   * `T[n]` is an array of `n` elements of what the trimmed `T` resolves to,
   * when no qualifier prefix applies: no override and no suffix entry ends
   * in ']', so the text reaches the array rule.
   */
  lemma {:induction false} ArraySuffix(s: string, size: string)
    requires '[' !in size
    requires NoPrefixWrapper(s + "[" + size + "]")
    ensures Resolve(s + "[" + size + "]") == Some(Array(size, Resolve(TrimSpace(s))))
  {
    var typ := s + "[" + size + "]";
    ArrayReachesTail(s, size);
    ResolveTailRule(typ);
    ArrayTail(s, size);
  }

  lemma ArrayReachesTail(s: string, size: string)
    requires NoPrefixWrapper(s + "[" + size + "]")
    ensures var typ := s + "[" + size + "]";
      typ != "void" && typ !in Overrides && !IsSignature(typ) && FirstWrapper(typ, 0) == -1
  {
    var typ := s + "[" + size + "]";
    assert typ[|typ| - 1] == ']';
    assert typ[|typ| - 1..] == "]";
    OverrideKeys();
    WrapperEntries();
    forall j | 0 <= j < |QualifierWrappers|
      ensures !Matches(QualifierWrappers[j], typ)
    {
      var q := QualifierWrappers[j];
      assert Entry(q, j);
      if j >= 6 && |q.suffix| <= |typ| {
        assert typ[|typ| - |q.suffix|..][|q.suffix| - 1] == ']';
      }
    }
  }

  /** The '[' before the size is the last one, so the array rule cuts the text there. */
  lemma ArrayTail(s: string, size: string)
    requires '[' !in size
    ensures ResolveTail(s + "[" + size + "]") == Some(Array(size, Resolve(TrimSpace(s))))
  {
    var typ := s + "[" + size + "]";
    assert typ[|typ| - 1..] == "]";
    assert typ[|s|] == '[';
    forall j | |s| < j < |typ|
      ensures typ[j] != '['
    {
      if j < |typ| - 1 {
        assert typ[j] == size[j - |s| - 1];
      }
    }
    var i := LastIndexOf(typ, '[');
    assert i == |s|;
    assert typ[..i] == s;
    assert typ[i + 1..|typ| - 1] == size;
  }

  /** "int *" is a pointer to the primitive int. */
  lemma IntPointer()
    ensures Resolve("int *") == Some(Ptr(Some(Primitive("int"))))
  {
    assert "int " + "*" == "int *";
    IntPointerPreconditions();
    PointerSuffix("int ");
    ResolveIntRule();
  }

  lemma IntPointerPreconditions()
    ensures "int *" !in Overrides && "int *" != "void"
    ensures NoPrefixWrapper("int *")
    ensures TrimSpace("int ") == "int"
  {
    assert "int *"[0] == 'i';
    NotOverrideByFirst("int *");
    IntNoPrefix();
    IntTrim();
  }

  lemma IntNoPrefix()
    ensures NoPrefixWrapper("int *")
  {
    WrapperEntries();
    forall j | 0 <= j < |QualifierWrappers| && QualifierWrappers[j].prefix != ""
      ensures !HasPrefix("int *", QualifierWrappers[j].prefix)
    {
      assert Entry(QualifierWrappers[j], j);
    }
  }

  lemma IntTrim()
    ensures TrimSpace("int ") == "int"
  {
    assert TrimLeftSpace("int ") == "int ";
    assert "int "[..3] == "int";
    assert TrimRightSpace("int") == "int";
  }

  /** "int" is the primitive int. */
  lemma ResolveIntRule()
    ensures Resolve("int") == Some(Primitive("int"))
  {
    IntReachesTail();
    ResolveTailRule("int");
    IntTail();
  }

  /** "int" has no override, is no signature, and no wrapper applies to it. */
  lemma IntReachesTail()
    ensures "int" != "void" && "int" !in Overrides && !IsSignature("int") && FirstWrapper("int", 0) == -1
  {
    NotOverrideByFirst("int");
    assert !HasSuffix("int", ")");
    IntNoWrapper();
  }

  lemma IntNoWrapper()
    ensures FirstWrapper("int", 0) == -1
  {
    var typ := "int";
    WrapperEntries();
    forall j | 0 <= j < |QualifierWrappers|
      ensures !Matches(QualifierWrappers[j], typ)
    {
      var q := QualifierWrappers[j];
      assert Entry(q, j);
      if j >= 6 {
        assert q.suffix[|q.suffix| - 1] != 't';
        if |q.suffix| <= |typ| {
          assert typ[|typ| - |q.suffix|..][|q.suffix| - 1] == 't';
        }
      }
    }
  }

  /** After the wrappers, "int" is found in the primitive table. */
  lemma IntTail()
    ensures ResolveTail("int") == Some(Primitive("int"))
  {
    assert !HasSuffix("int", "]");
    assert Primitives["int"] == "int";
  }

  /** "const int *" is const-first: a constant pointer to int. */
  lemma ConstIntPointer()
    ensures Resolve("const int *") == Some(Const(Some(Ptr(Some(Primitive("int"))))))
  {
    assert "const " + "int *" == "const int *";
    assert "int *"[4..] == "*";
    assert !HasSuffix("int *", ")");
    assert TrimSpace("int *") == "int *" by {
      TrimSpaceTrimmed("int *");
    }
    ConstFirst("int *");
    IntPointer();
  }

  /**
   * `void*` (no space: no override applies) is a pointer to the nil type; the
   * Go code would panic on asking it for its name. Such types are what
   * `NameDefined` excludes.
   */
  lemma VoidPointerWithoutSpace()
    ensures Resolve("void*") == Some(Ptr(None))
    ensures !NameDefined(Ptr(None))
  {
    VoidPointerResolves();
  }

  lemma VoidPointerResolves()
    ensures Resolve("void*") == Some(Ptr(None))
  {
    assert "void*" == "void" + "*";
    VoidPointerReachesWrappers();
    PointerSuffix("void");
    VoidTrimmed();
  }

  lemma VoidTrimmed()
    ensures Resolve(TrimSpace("void")) == None
  {
    TrimSpaceTrimmed("void");
  }

  lemma VoidPointerReachesWrappers()
    ensures "void*" !in Overrides && "void*" != "void"
    ensures NoPrefixWrapper("void*")
  {
    OverrideKeys();
    assert "void*" != "void *" by { assert "void*"[4] != "void *"[4]; }
    WrapperEntries();
    forall j | 0 <= j < |QualifierWrappers| && QualifierWrappers[j].prefix != ""
      ensures !HasPrefix("void*", QualifierWrappers[j].prefix)
    {
      assert Entry(QualifierWrappers[j], j);
    }
  }

  /**
   * A signature "R(* )(a1, a2, ...)" is a function type returning what R
   * resolves to, with one argument per ", "-separated segment.
   */
  lemma SignatureShape(typ: string)
    requires typ != "void" && typ !in Overrides && IsSignature(typ)
    ensures var segs := SignatureArgs(typ);
      Resolve(typ).Some? && Resolve(typ).value.Func? &&
      Resolve(typ).value.fn.ret == Resolve(typ[..Index(typ, FuncMarker)]) &&
      |Resolve(typ).value.fn.args| == |segs| &&
      forall k :: 0 <= k < |segs| ==> Resolve(typ).value.fn.args[k] == ResolveArg(segs[k])
  {
  }

  /**
   * Empty parentheses still make one argument: splitting "" yields one empty
   * segment, and "" resolves through the override table to `interface{}`.
   */
  lemma EmptyParameterList()
    ensures Resolve("void(* )()") == Some(Func(FuncType(None, [FuncArg("", Some(Primitive("interface{}")))])))
  {
    var typ := "void(* )()";
    EmptySignatureIndex();
    OverrideKeys();
    ResolveSignatureRule(typ);
    EmptySignatureArgs();
    var segs := SignatureArgs(typ);
    EmptyArgument();
    assert typ[..4] == "void";
    var args := seq(|segs|, k requires 0 <= k < |segs| => ResolveArg(segs[k]));
    assert args == [FuncArg("", Some(Primitive("interface{}")))];
  }

  /** The marker of "void(* )()" is at 4, so the text is a signature. */
  lemma EmptySignatureIndex()
    ensures Index("void(* )()", FuncMarker) == 4 && IsSignature("void(* )()")
  {
    var typ := "void(* )()";
    assert typ[|typ| - 1..] == ")";
    assert OccursAt(typ, FuncMarker, 4) by {
      assert typ[4..9] == FuncMarker;
    }
    forall j | 0 <= j < 4
      ensures !OccursAt(typ, FuncMarker, j)
    {
      assert typ[j] != '(';
      assert typ[j..j + 5][0] == typ[j];
    }
  }

  /** The argument text of "void(* )()" is empty, and splitting it gives one empty segment. */
  lemma EmptySignatureArgs()
    requires IsSignature("void(* )()")
    ensures SignatureArgs("void(* )()") == [""]
  {
    EmptySignatureIndex();
    var typ := "void(* )()";
    assert typ[9..9] == "";
    assert Split("", ", ") == [""] by {
      assert IndexFrom("", ", ", 0) == -1;
    }
  }

  /** An empty argument has no name and resolves through the override table. */
  lemma EmptyArgument()
    ensures ResolveArg("") == FuncArg("", Some(Primitive("interface{}")))
  {
    assert SplitArg("") == ("", "");
  }

  // ---------------------------------------------------------------------------
  // getTypeFromLinkText and getMemberType
  // ---------------------------------------------------------------------------

  /** The store after a reference to `ref`: a placeholder is inserted for an unknown refid. */
  function AddPlaceholder(types: map<string, Def>, ref: string): (r: map<string, Def>)
    ensures r.Keys == types.Keys + {ref}
    ensures forall k :: k in types ==> r[k] == types[k]
    ensures ref !in types ==> r[ref] == Placeholder(ref)
  {
    if ref in types then types else types[ref := Placeholder(ref)]
  }

  /**
   * The type `getTypeFromLinkText` answers: a single cross-reference is the
   * entity under that refid, several are not understood, and plain text is
   * resolved by name. It does not depend on the store: a missing refid is
   * answered with the placeholder that `LinkStore` inserts under it.
   */
  function LinkType(lt: Option<LinkedText>): Option<Type> {
    match lt
    case None => Some(Unknown("", ""))
    case Some(l) => RefType(l, l.text)
  }

  /** `getMemberType`: as `LinkType`, but plain text is the type followed by the argument string. */
  function MemberType(m: MemberDef): Option<Type> {
    match m.typ
    case None => Some(Unknown("", ""))
    case Some(l) => RefType(l, TrimSpace(l.text + " " + m.argsstring))
  }

  function RefType(lt: LinkedText, fallback: string): Option<Type> {
    if |lt.refs| == 1 then Some(Entity(lt.refs[0]))
    else if |lt.refs| != 0 then Some(Unknown("", "ref type"))
    else Resolve(fallback)
  }

  /**
   * The store after `getTypeFromLinkText` or `getMemberType` (which treat the
   * store alike): a placeholder struct for a single unknown cross-reference.
   */
  function LinkStore(types: map<string, Def>, lt: Option<LinkedText>): map<string, Def> {
    if lt.Some? && |lt.value.refs| == 1 then AddPlaceholder(types, lt.value.refs[0]) else types
  }

  /** The refid a link text adds to the store, if any. */
  predicate Links(lt: Option<LinkedText>, ref: string) {
    lt.Some? && |lt.value.refs| == 1 && lt.value.refs[0] == ref
  }

  /**
   * A single cross-reference yields an entity reference to that refid, which
   * is then in the store; an entry already there is kept as it is.
   */
  lemma LinkTypeSingle(types: map<string, Def>, lt: LinkedText)
    requires |lt.refs| == 1
    ensures LinkType(Some(lt)) == Some(Entity(lt.refs[0]))
    ensures lt.refs[0] in LinkStore(types, Some(lt))
    ensures lt.refs[0] in types ==> LinkStore(types, Some(lt)) == types
  {
  }

  /** Every entity a link text or member type answers is in the store afterwards. */
  lemma LinkedEntityStored(types: map<string, Def>, m: MemberDef)
    ensures LinkType(m.typ).Some? && LinkType(m.typ).value.Entity? ==>
      LinkType(m.typ).value.refid in LinkStore(types, m.typ)
    ensures MemberType(m).Some? && MemberType(m).value.Entity? ==>
      MemberType(m).value.refid in LinkStore(types, m.typ)
  {
  }

  /** Only a placeholder for a missing refid is ever added; nothing stored changes. */
  lemma LinkStoreOnlyPlaceholders(types: map<string, Def>, lt: Option<LinkedText>)
    ensures var st := LinkStore(types, lt);
      types.Keys <= st.Keys &&
      (forall k :: k in types ==> st[k] == types[k]) &&
      (forall k :: k in st && k !in types ==> Links(lt, k) && st[k] == Placeholder(k))
  {
  }

  /** Resolving the same link text again leaves the store as it is. */
  lemma LinkStoreIdempotent(types: map<string, Def>, lt: Option<LinkedText>)
    ensures LinkStore(LinkStore(types, lt), lt) == LinkStore(types, lt)
  {
  }

  /** Several references mixed with text are not understood, and leave the store alone. */
  lemma RefTypeSeveral(types: map<string, Def>, lt: LinkedText, fallback: string)
    requires |lt.refs| > 1
    ensures RefType(lt, fallback) == Some(Unknown("", "ref type"))
    ensures LinkStore(types, Some(lt)) == types
  {
  }

  /** Plain text without references goes through the resolver, with the argument string for members. */
  lemma PlainTextResolved(m: MemberDef)
    requires m.typ.Some? && m.typ.value.refs == []
    ensures LinkType(m.typ) == Resolve(m.typ.value.text)
    ensures MemberType(m) == Resolve(TrimSpace(m.typ.value.text + " " + m.argsstring))
  {
  }
}
