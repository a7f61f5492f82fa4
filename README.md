# go-apple wrapper generator, modelled in Dafny

The `generator` package of go-apple reads the XML index that Doxygen writes
for Apple's Objective-C headers and prints Go wrappers for what it found.
This project models that package and proves properties of the model.

The package does four things:

- It resolves C/Objective-C type texts to a small type algebra: primitives,
  named types, qualifiers, pointers, arrays, function pointers, references
  to entities, and unknown types. Each type answers three questions: its Go
  type name, how to cast a Go expression to Objective-C, and how to cast back.
- It keeps an entity store: structs and classes, protocols, files and free
  functions, keyed by Doxygen refid.
- It loads that store from the Doxygen compounds, then attaches every
  free function that has a receiver to the struct of that name.
- It prints Go wrappers: a struct type with its constructor, converter,
  setters and methods; a protocol's interface, its Go implementation and its
  class registration; and the free functions, in sorted order.

Modules:

| module | models |
|---|---|
| `Wrappers` | nil values (`Option`) and error returns (`Result`) |
| `Doxy` | the decoded Doxygen records the loader reads (input values only) |
| `Strings` | the Go standard-library string operations the package calls (`strings.Index`, `Split`, `TrimSpace`, `strconv.Itoa`, `%q`, ...) |
| `Types` | the type algebra |
| `Names` | `toGoName`, `ensureGoName` and `entToBaseNode` |
| `Pos` | source locations |
| `Entities` | structs, protocols, functions and the definition store |
| `Resolver` | `getTypeByName`, `getTypeFromLinkText` and `getMemberType` |
| `TypeOps` | `GoTypeName`, `CastToObjC` and `CastToGo` of every type, and `printGoArgs` |
| `Loader` | the loading and attaching steps, each as a function on the store |
| `Emitter` | the printers |
| `Sorting` | `sort.Strings` |
| `Gen` | the `Generator` object: three tables updated in place by its methods |

The loader functions specify the generator's methods. Each
`Gen.Generator` method carries an `ensures` stating that its new tables
equal the corresponding `Loader` function applied to its old tables. The
lemmas in `Loader` then say what those functions do. Printers are methods with loops; each is
proved equal to a specification function, and the lemmas in `Emitter`
and `TypeOps` state what the printed text contains.

The model follows these details of the code:

- A receiver is the last word before `::` in a definition. No protocol marker is trimmed from it (file.go:71-76).
- Every property gets a setter. The property's `Writable` flag is never consulted (struct.go:118-139).
- Override lookup matches the exact text, with no trimming (member_type.go:274-276).
- `const T *` is const-first: the `const ` prefix entry is tried before the `*` suffix entry (member_type.go:229-267).
- `attachMethods` appends to `Methods` directly, with no duplicate check (file.go:112-125).

## Model

| member | source | states |
|---|---|---|
| `Resolver.Resolve` | generator/member_type.go:269-369 | every resolved type is a leaf-shaped algebra value: no entity reference; a named type has a non-empty name free of space, paren and colon; an unknown type keeps the text that contains one of them |
| `Resolver.ResolveVoid` | generator/member_type.go:270-272 | `void` resolves to a nil type |
| `Resolver.OverrideWins` | generator/member_type.go:274-276 | a text in the override table resolves to exactly its override, before any other rule |
| `Resolver.OverrideEntries` | generator/member_type.go:15-22 | the five overrides: empty text is `interface{}`, `void *` and `__strong void *` are `uintptr`, `char *` is a byte array, `NSString *` is the known NSString type |
| `Resolver.WrapperEntries` | generator/member_type.go:229-267 | the qualifier table has eleven entries; entry 4 is the `const ` prefix and entry 6 the `*` suffix; the first six are prefixes and the rest suffixes |
| `Resolver.QualifierWrappersStrip` | generator/member_type.go:229-267 | every wrapper entry has a non-empty prefix or suffix, so stripping it shortens the text and resolution terminates |
| `Resolver.PrefixesBeforeSuffixes` | generator/member_type.go:229-267 | all prefix entries are tried before any suffix entry |
| `Resolver.Wrap` | generator/member_type.go:321-342 | a keep-entry returns the element unchanged; any other entry yields a qualifier or pointer around it |
| `Resolver.FirstWrapper` | generator/member_type.go:344-350 | the index found is the first matching wrapper entry from `k` on; no earlier entry matches; -1 means none matches |
| `Resolver.ResolveWrapperRule` | generator/member_type.go:344-350 | a text that is not void, not an override and not a signature resolves through the first matching wrapper |
| `Resolver.ResolveTailRule` | generator/member_type.go:351-368 | a text no earlier rule matches resolves by the array, primitive, named or unknown rules |
| `Resolver.ResolveSignatureRule` | generator/member_type.go:277-318 | a text ending in `)` that contains `(* )(` resolves as a function pointer |
| `Resolver.ResolveSignature` | generator/member_type.go:277-318 | a signature always resolves to a function type |
| `Resolver.ResolveWrapped` | generator/member_type.go:321-342 | a wrapped element resolves to a leaf-shaped type, as `Resolve` does |
| `Resolver.ResolveTail` | generator/member_type.go:351-368 | the last rules never yield a qualifier, pointer, function or entity; a named type carries the whole text, which then has no space, paren or colon; an unknown type carries the whole text, which has one of them, as its comment |
| `Resolver.ArraySuffix` | generator/member_type.go:351-361 | `T[n]` with no qualifier prefix is an array of size `n` of what the trimmed `T` resolves to: no override or suffix entry intercepts it |
| `Resolver.OverrideKeys` | generator/member_type.go:15-22 | the override table's keys are exactly the five listed texts |
| `Resolver.NotOverrideByFirst` | generator/member_type.go:15-22 | a text whose first character starts no override key is not an override |
| `Resolver.ConstFirst` | generator/member_type.go:321-342 | `const s` resolves to Const of what the trimmed `s` resolves to, for every non-signature `s`, including `s` ending in `*` |
| `Resolver.ConstRule` | generator/member_type.go:321-342 | a text with the `const ` prefix resolves to Const of its trimmed remainder |
| `Resolver.ConstWrapped` | generator/member_type.go:321-342 | stripping the `const ` entry and trimming yields Const of the element's resolution |
| `Resolver.PointerSuffix` | generator/member_type.go:321-342 | `s*` with no prefix entry matching resolves to a pointer to what the trimmed `s` resolves to |
| `Resolver.PointerWrapped` | generator/member_type.go:321-342 | the `*` suffix entry matches `s*` and strips to a pointer to the trimmed `s` |
| `Resolver.IntPointer` | generator/member_type.go:321-368 | `int *` resolves to a pointer to the primitive `int` |
| `Resolver.ConstIntPointer` | generator/member_type.go:321-368 | `const int *` resolves to Const of a pointer to `int`: the prefix applies first |
| `Resolver.VoidPointerWithoutSpace` | generator/member_type.go:321-342 | `void*` is not the `void *` override: it resolves to a pointer to nil, on which Go's `GoTypeName` would panic (the lemma states `!NameDefined`) |
| `Resolver.LastNonIdent` | generator/member_type.go:295-301 | the result is the last position holding a non-identifier character, or -1; every later character is a letter (Go's `unicode.IsLetter` below U+0100), digit or underscore |
| `Resolver.ScanLastNonIdent` | generator/member_type.go:295-301 | the backwards scan loop returns exactly the last non-identifier position |
| `Resolver.LastNonIdentUnique` | generator/member_type.go:295-301 | any position meeting the last-non-identifier conditions is that position |
| `Resolver.SplitArg` | generator/member_type.go:289-316 | the argument name is all identifier characters and ends the argument text once `[]` is removed; a `[]` suffix stays on the type text |
| `Resolver.SignatureArgs` | generator/member_type.go:280 | every argument segment of a signature is shorter than the signature, so each resolves to a smaller problem |
| `Resolver.SignatureShape` | generator/member_type.go:277-318 | a signature resolves to a function whose return type is the resolution of the text before `(* )(` and whose i-th argument is the resolution of the i-th comma-separated segment |
| `Resolver.EmptyParameterList` | generator/member_type.go:277-318 | `void(* )()` is a function returning nil with one unnamed `interface{}` argument, since splitting empty text gives one empty segment |
| `Resolver.AddPlaceholder` | generator/member_type.go:371-388 | the store gains the refid; a missing refid gets a nameless placeholder struct; existing entries are untouched |
| `Resolver.LinkTypeSingle` | generator/member_type.go:371-388 | a link text with a single reference yields an entity reference to that refid, which is then stored; a stored entry stays as it was |
| `Resolver.LinkedEntityStored` | generator/member_type.go:371-408 | every entity reference that link resolution returns points into the resulting store |
| `Resolver.LinkStoreOnlyPlaceholders` | generator/member_type.go:371-388 | link resolution removes and alters nothing in the store; the only new entry is the placeholder for the referenced refid |
| `Resolver.LinkStoreIdempotent` | generator/member_type.go:371-388 | resolving the same link text twice leaves the store as resolving it once |
| `Resolver.RefTypeSeveral` | generator/member_type.go:371-388 | several references give the unknown type `ref type`, and the store is unchanged |
| `Resolver.PlainTextResolved` | generator/member_type.go:390-408 | link text without references resolves its text; a member resolves its type text joined with its argument string by a space, trimmed |
| `Types.NameDefinedCastDefined` | generator/types.go:18-26 | a type whose Go name can be asked without a nil dereference can also be cast without one |
| `Types.Unqualified` | generator/member_type.go:85-101 | stripping the qualifiers leaves a non-qualifier that is still castable, and still nameable if the original was |
| `Types.Dump` | generator/struct.go:123 | the stand-in for a `%#v` dump of a type is never empty |
| `TypeOps.QualifiersTransparent` | generator/member_type.go:85-101 | const, strong, nullable and extern qualifiers answer every query exactly as the type they wrap |
| `TypeOps.PtrDelegates` | generator/member_type.go:107-118 | a pointer's Go name is `*` before its element's name, with the element's success flag; both casts are the element's casts |
| `TypeOps.ArrayNeverCastable` | generator/member_type.go:125-136 | both casts of an array fail and return the expression unchanged; its Go name is `[size]` before its element's name |
| `TypeOps.PrimitiveCastToGo` | generator/member_type.go:56-67 | a primitive converts to Go only when it is `bool`, through `.Bool()`; its cast to Objective-C is the expression itself |
| `TypeOps.NSStringAnswers` | generator/known_type.go:5-11 | NSString is the Go type `string` and casts to Objective-C through `foundation.NSStringFromString` |
| `TypeOps.UnknownTextShape` | generator/member_type.go:210-219 | an unknown type never succeeds; its text is its name or `interface{}`, followed by its comment in `/* */` when there is one |
| `TypeOps.UnknownPoisons` | generator/member_type.go:210-219 | any type that contains an unknown type somewhere has no Go type name |
| `TypeOps.FuncUnknownPoisons` | generator/member_type.go:163-203 | a signature that mentions an unknown type anywhere cannot be printed |
| `TypeOps.ScanNames` | generator/member_type.go:165-171 | the scan reports whether some argument of the signature has a name |
| `TypeOps.PrintArg` | generator/member_type.go:172-193 | one argument's piece: separator, name or stand-in, and Go type, with that type's success flag |
| `TypeOps.PrintArgs` | generator/member_type.go:172-193 | the argument loop prints all pieces in order and succeeds only if every piece succeeds |
| `TypeOps.PrintRet` | generator/member_type.go:195-201 | the return part is empty for a nil return and is the return's Go name otherwise |
| `TypeOps.PrintGoArgs` | generator/member_type.go:163-203 | the printed signature, with its success flag, is the specified one |
| `TypeOps.ArgsUpToOk` | generator/member_type.go:172-193 | the first n argument pieces succeed exactly when each of those arguments has a type with a Go name |
| `TypeOps.GoArgsOk` | generator/member_type.go:163-203 | a signature prints successfully exactly when every argument type and the return type, if any, have Go names |
| `TypeOps.ArgNamesAllOrNone` | generator/member_type.go:165-193 | once one argument is named, every argument is printed with a name, and `arg<i>` stands in for a missing one; otherwise none is named |
| `TypeOps.GoArgsShape` | generator/member_type.go:163-203 | the printed signature starts with the parenthesised argument list and, with no return type, ends there |
| `Names.Sanitize` | generator/types.go:34-37 | the name replacer maps character for character, turning `:` and `-` into `_` and keeping the rest |
| `Names.SanitizeClean` | generator/types.go:34-37 | a sanitised name contains no `:` and no `-` |
| `Names.SanitizeIdempotent` | generator/types.go:34-37 | sanitising twice is sanitising once |
| `Names.ToGoName` | generator/types.go:39-58 | the Go name is empty exactly when the name is |
| `Names.ExportedNameShape` | generator/types.go:43-45 | an exported name is the sanitised name with its first character upper-cased; keywords are not consulted |
| `Names.UnexportedNameShape` | generator/types.go:43-57 | an unexported name is the sanitised name with its first character lower-cased, and `type`, `select` and `range` are replaced by `typ`, `sel` and `rng` |
| `Names.ToGoNameClean` | generator/types.go:39-58 | a Go name never contains `:` or `-` |
| `Names.ToGoNameIdempotent` | generator/types.go:39-58 | converting a Go name again changes nothing |
| `Names.EnsureGoName` | generator/types.go:70-78 | succeeds exactly for a named node; only the Go name can change, and it then holds the stored or sanitised name; a nameless node is left alone |
| `Names.EnsureGoNameIdempotent` | generator/types.go:70-78 | a second call changes nothing and reports the same |
| `Names.EnsureGoNameKeeps` | generator/types.go:70-78 | an explicitly set Go name is never overwritten |
| `Names.EnsureGoNameInvisible` | generator/types.go:70-78 | filling the Go name in lazily cannot change the name the printers use |
| `Names.EntToBaseNode` | generator/types.go:80-88 | the node takes its refid and name from the index entry, protection and locations from the compound, and starts with no Go name |
| `Pos.LocationString` | generator/pos.go:15-23 | a location prints as empty text exactly when it is nil |
| `Pos.LocationStringFields` | generator/pos.go:15-23 | split at `:`, a printed location gives back its file and line, and its column when that is above 1 |
| `Pos.LocationStringInjective` | generator/pos.go:15-23 | two locations with columns above 1 and colon-free file names print equal only when they are equal |
| `Pos.AsLocation` | generator/pos.go:31-40 | nil exactly when the file is empty; otherwise file, line and column are copied |
| `Pos.AsLineRange` | generator/pos.go:42-51 | nil exactly when the body file is empty or the body end is negative; otherwise the body file and lines are copied |
| `Pos.AsLocationPrintsEmpty` | generator/pos.go:15-40 | a converted location prints as empty text exactly when its file is empty |
| `Strings.TrimPrefix` | generator/member_type.go:326 | removes the prefix when present, so prefix plus result is the text, and otherwise returns the text |
| `Strings.TrimSuffix` | generator/member_type.go:331 | removes the suffix when present, so result plus suffix is the text, and otherwise returns the text |
| `Strings.TrimSpace` | generator/member_type.go:406 | the result is the middle `s[i..j]` of the text, everything before `i` and from `j` on is white space (Go's `unicode.IsSpace` set), and the result has no white space at either end |
| `Strings.TrimSpaceTrimmed` | generator/member_type.go:333 | trimming text without surrounding white space changes nothing |
| `Strings.TrimSpaceBlank` | generator/member_type.go:406 | a trimmed type text followed by one space trims back to itself, as a member with an empty argument string does |
| `Strings.Index` | generator/member_type.go:278 | the result is the first position where the substring occurs, or -1 when it occurs nowhere |
| `Strings.LastIndexOf` | generator/file.go:73 | the result is the last position holding the character, or -1; no later position holds it |
| `Strings.Split` | generator/member_type.go:280 | splitting with a non-empty separator gives at least one segment, none longer than the text |
| `Strings.JoinSplit` | generator/member_type.go:280 | joining the segments with the separator gives back the text |
| `Strings.SplitSegmentsFree` | generator/member_type.go:280 | no segment contains the separator |
| `Strings.ToUpper` | generator/types.go:45 | maps an ASCII lower-case letter to its upper-case counterpart (code minus 32) and leaves every other character |
| `Strings.ToLower` | generator/types.go:47 | maps an ASCII upper-case letter to its lower-case counterpart (code plus 32) and leaves every other character |
| `Strings.ReplaceChar` | generator/struct.go:84 | the same length, with every occurrence of one character replaced and the rest kept |
| `Strings.IntToString` | generator/pos.go:20 | decimal text: non-empty, digits and minus signs only |
| `Strings.ParseIntToString` | generator/pos.go:20 | the decimal text of an integer parses back to that integer |
| `Strings.LessIrreflexive` | generator/generator.go:76 | no string sorts before itself |
| `Strings.LessTransitive` | generator/generator.go:76 | the string order is transitive |
| `Strings.LessTotal` | generator/generator.go:76 | any two different strings are ordered one way or the other |
| `Strings.LessAsymmetric` | generator/generator.go:76 | no two strings sort before each other |
| `Sorting.Insert` | generator/generator.go:76 | inserting into a sorted sequence keeps it sorted and adds exactly that one element |
| `Sorting.SortStrings` | generator/generator.go:76 | the result is sorted and is a permutation of the input |
| `Sorting.SortedUnique` | generator/generator.go:76 | two sorted permutations of the same strings are equal, so the input order cannot show in the output |
| `Sorting.PermutationDistinct` | generator/generator.go:73-76 | a permutation of distinct keys is distinct |
| `Sorting.SortedDistinct` | generator/generator.go:73-76 | sorted distinct keys are strictly increasing |
| `Entities.Placeholder` | generator/member_type.go:377-384 | a forward reference creates a nameless struct with the refid and no members |
| `Entities.Lookup` | generator/member_type.go:377-384 | a stored refid gives its definition, and a missing one gives its placeholder |
| `Entities.StructAddAttribute` | generator/struct.go:31-33 | appends the attribute at the end and changes nothing else |
| `Entities.StructAddProperty` | generator/struct.go:35-37 | appends the property at the end and changes nothing else |
| `Entities.StructAddMethod` | generator/struct.go:39-47 | a method whose name is taken leaves the struct as it was, so the first method wins; otherwise it is appended; afterwards the name is present |
| `Entities.FindMethodNamed` | generator/struct.go:40-45 | the search loop reports whether some method has the name |
| `Entities.StructAddMethodDistinct` | generator/struct.go:39-47 | adding keeps method names distinct |
| `Entities.ProtocolAddMethod` | generator/protocol.go:25-27 | appends the method and changes nothing else |
| `Entities.ProtocolAddProperty` | generator/protocol.go:29-31 | appends the property and changes nothing else |
| `Entities.AppendMethod` | generator/file.go:122 | the struct gains the function at the end of its methods |
| `Entities.DefGoTypeName` | generator/struct.go:49-54 | a struct or protocol has a Go type name exactly when it is named, and the name is its Go name |
| `Entities.DefCastToObjC` | generator/struct.go:56-62 | a named struct or protocol casts to Objective-C as the expression itself; an unnamed one fails |
| `Entities.DefCastToGo` | generator/struct.go:64-73 | a named struct converts through `As<GoName>(...)`, a named protocol is the expression itself, and an unnamed one fails |
| `Entities.PlaceholderFails` | generator/struct.go:49-73 | a placeholder answers no query, so an unloaded reference is never printed as a type |
| `Entities.ProtocolCastsInverse` | generator/protocol.go:33-52 | for a named protocol, casting to Go and back to Objective-C returns the expression |
| `Entities.GoMethNameIsExported` | generator/struct.go:79-86 | a struct method's Go name is its selector's exported name: replacing the trailing colon first does not change it |
| `Entities.MethodNamesOfColonSelector` | generator/protocol.go:118 | for a selector ending in `:`, the struct method name is the protocol method name followed by `_` |
| `Entities.MethodNamesAgree` | generator/protocol.go:118 | without a trailing colon, struct and protocol name a method alike |
| `Entities.MethodNamesClean` | generator/struct.go:79-86 | method names in Go never contain `:` or `-` |
| `Loader.Receiver` | generator/file.go:71-76 | without `::` there is no receiver; otherwise it is the last space-free word of the text before `::` |
| `Loader.MemberFunction` | generator/file.go:77-103 | the function takes the member's name and receiver and is keyed by receiver, `::` and name |
| `Loader.LoadFuncsKeys` | generator/file.go:54-106 | a function section adds exactly the keys of its function members, keeps the other functions and leaves the files alone |
| `Loader.LoadFuncsLastWins` | generator/file.go:77-103 | when two function members share a key, the later one is stored |
| `Loader.LoadFuncsOnlyPlaceholders` | generator/file.go:54-106 | loading functions changes no stored definition and adds only placeholders |
| `Loader.MemberStoreOnlyPlaceholders` | generator/file.go:78-103 | resolving one member's types adds only placeholders |
| `Loader.ParamsStoreOnlyPlaceholders` | generator/file.go:89-103 | resolving parameters adds only placeholders, each for a refid that a parameter names |
| `Loader.ExternUnwrapped` | generator/file.go:83-87 | an extern return type is stored without its extern wrapper, and the function is marked extern; other returns are kept as they are |
| `Loader.ArgsFollowParams` | generator/file.go:89-103 | one argument per parameter, in order, with its declared name; an array parameter becomes an array of its type |
| `Loader.AddAttribute` | generator/struct.go:256-282 | adding one attribute keeps every header, adds only structs, and keeps the host a struct |
| `Loader.AddAttributes` | generator/struct.go:256-282 | an attribute section keeps every definition's kind and header |
| `Loader.AddProperty` | generator/struct.go:283-307 | adding one property keeps every header and the host |
| `Loader.AddProperties` | generator/struct.go:283-307 | a property section keeps every definition's kind and header |
| `Loader.AddAttributesAppends` | generator/struct.go:256-282 | the section's members are appended, in order, as attributes of the host, and nothing else of the host changes |
| `Loader.AddPropertiesAppends` | generator/struct.go:283-307 | the section's members are appended, in order, as properties of the host |
| `Loader.StaticKinds` | generator/struct.go:265 | an attribute is static exactly in the three static section kinds |
| `Loader.ProtocolRejectsAttributes` | generator/struct.go:256-262 | an attribute section on a protocol fails with `*generator.ProtocolType cannot host attributes` and leaves the store as it was |
| `Loader.ProtocolSectionStep` | generator/struct.go:256-317 | one section on a protocol keeps it a protocol and fails exactly for an attribute section |
| `Loader.LoadSection` | generator/struct.go:254-317 | loading a section keeps every definition's header and adds only structs |
| `Loader.LoadSections` | generator/struct.go:250-320 | loading all sections keeps every header and adds only structs |
| `Loader.StructSectionsLoad` | generator/struct.go:250-320 | the sections of a struct load without error |
| `Loader.ProtocolSectionsFail` | generator/struct.go:250-320 | the sections of a protocol fail exactly when one is an attribute section, with that message |
| `Loader.LoadStructResult` | generator/struct.go:227-248 | a decoded struct entry loads without error; the refid holds a struct with the entry's header and class flag; a placeholder is replaced; other definitions keep their headers |
| `Loader.LoadProtocolResult` | generator/protocol.go:241-262 | a decoded protocol entry stores a protocol named without its ` -p` suffix, and fails exactly when it has an attribute section |
| `Loader.LoadFileResult` | generator/file.go:27-52 | a file loads exactly when its refid is new, adding its node; a duplicate fails with `duplicated file definition` and changes nothing |
| `Loader.FileSectionsFiles` | generator/file.go:41-50 | a file's function sections do not change the file table |
| `Loader.FileSectionsGrows` | generator/file.go:41-50 | a file's function sections keep every definition's header and add only structs |
| `Loader.LoadEntriesAppend` | generator/generator.go:35-52 | loading two runs of entries is loading the first, then, if it succeeded, the second |
| `Loader.FirstErrorStops` | generator/generator.go:35-52 | the first failing entry ends the load with its error and later entries are not loaded |
| `Loader.IgnoredEntries` | generator/generator.go:35-52 | entries that are neither structs, classes, interfaces nor files, protocols among them, change nothing |
| `Loader.LoadEntryAllStructs` | generator/generator.go:35-52 | an entry never brings a protocol into a store of structs |
| `Loader.OnlyStructsStored` | generator/generator.go:35-52 | since protocol entries are not dispatched, a store loaded from the index holds only structs |
| `Loader.Named` | generator/file.go:117 | naming a function changes only its Go name, and not the Go name it shows |
| `Loader.AttachOne` | generator/file.go:113-123 | attaching one function keeps the files and the keys of both tables |
| `Loader.Attach` | generator/file.go:112-125 | attaching in any order keeps the files and the keys of both tables |
| `Loader.AttachSnoc` | generator/file.go:113-123 | attaching one more function is one more step after the others |
| `Loader.AttachFuncsClosedForm` | generator/file.go:112-125 | after attaching, every visited function with a receiver has its Go name ensured, and every other function is unchanged |
| `Loader.AttachTypesClosedForm` | generator/file.go:112-125 | after attaching, each struct's methods are followed by the functions attached to it, in visiting order; protocols are unchanged |
| `Loader.AttachedToPermutation` | generator/file.go:113 | visiting the same functions in another order attaches the same multiset of functions to each struct |
| `Loader.OrdersPermute` | generator/file.go:113 | two visiting orders of the same keys are permutations of each other |
| `Loader.AttachOrderIrrelevant` | generator/file.go:112-125 | the map order changes nothing but the order of each struct's methods: functions, files, keys and the rest of every definition agree |
| `Loader.AttachOrderFuncs` | generator/file.go:112-125 | the function table after attaching does not depend on the map order |
| `Loader.AttachOrderAt` | generator/file.go:112-125 | for one definition, a different map order gives the same definition up to the order of its methods |
| `Emitter.PrintParamList` | generator/struct.go:179-191 | the parameter loop prints the specified `name type` list, separated by commas |
| `Emitter.CheckArgNames` | generator/struct.go:144-158 | the check passes exactly when every argument type has a Go name |
| `Emitter.SendArgsOk` | generator/struct.go:144-158 | the send arguments succeed exactly when every argument casts to Objective-C |
| `Emitter.BuildSend` | generator/struct.go:151-158 | reports whether every argument casts and builds the `o.SendMsg` call from the selector and the casts |
| `Emitter.PrintStructMethod` | generator/struct.go:141-192 | one struct method's text is the specified one |
| `Emitter.PrintProperty` | generator/struct.go:118-139 | one property's text is the specified one |
| `Emitter.PrintProperties` | generator/struct.go:118-139 | the property loop prints the specified texts in order |
| `Emitter.PrintStructMethods` | generator/struct.go:141-192 | the method loop prints the specified texts in order |
| `Emitter.PrintStructWrapper` | generator/struct.go:88-194 | the struct wrapper text and its flag are the specified ones |
| `Emitter.StructMethodSkipped` | generator/struct.go:144-158 | a method prints nothing exactly when some argument has no Go name or no cast; otherwise it starts with its receiver and Go method name |
| `Emitter.StructReturnAdvisories` | generator/struct.go:163-177 | the call is returned exactly when the return type has a name and a Go cast; the return type appears exactly when it has a name; a FIXME comment appears exactly when it has none; otherwise the call is a bare statement |
| `Emitter.StructConverterDefined` | generator/struct.go:64-116 | the `As<Name>` a struct reference casts to Go through is defined by that struct's own wrapper |
| `Emitter.StructWrapperShape` | generator/struct.go:89-116 | a named struct's wrapper succeeds and opens with its comment, type, constructor and converter |
| `Emitter.PropertyTextIgnoresAccess` | generator/struct.go:118-139 | a property's text ignores its readable and writable flags: it is a setter or a TODO advisory |
| `Emitter.FirstUnusable` | generator/protocol.go:88-99 | the first unusable argument found lies in the scanned prefix |
| `Emitter.FirstUnusableMeans` | generator/protocol.go:88-99 | the result is the first argument without a name or cast, and none means every argument is usable |
| `Emitter.FindUnusable` | generator/protocol.go:88-99 | the scan loop finds the specified first unusable argument |
| `Emitter.FirstUnusableStays` | generator/protocol.go:88-99 | once an unusable argument is found, scanning further finds the same one |
| `Emitter.PrintInterfaceMethod` | generator/protocol.go:86-131 | one interface method's text is the specified one |
| `Emitter.PrintGoInterface` | generator/protocol.go:67-134 | the interface text is the specified one and printing it succeeds |
| `Emitter.PrintGoCasts` | generator/protocol.go:169-199 | the cast loop prints the specified Go conversions of the arguments |
| `Emitter.PrintObjectList` | generator/protocol.go:169-199 | the loop prints the specified `objc.Object` parameter list |
| `Emitter.PrintImplMethod` | generator/protocol.go:148-199 | an exposed method prints its forwarding method; any other prints nothing |
| `Emitter.PrintRegMethod` | generator/protocol.go:220-235 | an exposed method prints its registration line; any other prints nothing |
| `Emitter.PrintGoClassReg` | generator/protocol.go:207-239 | the class registration text is the specified one and printing it succeeds |
| `Emitter.PrintGoImpl` | generator/protocol.go:136-205 | the implementation text is the specified one and printing it succeeds |
| `Emitter.PrintProtocolWrapper` | generator/protocol.go:54-65 | the protocol wrapper text and its flag are the specified ones |
| `Emitter.PickedIsKept` | generator/protocol.go:148-235 | the filtered method loop prints exactly the texts of the kept methods, in order |
| `Emitter.KeptMembers` | generator/protocol.go:148-235 | a method is kept exactly when it is among those scanned and passes the filter |
| `Emitter.ExposedMethodsMembers` | generator/protocol.go:148-235 | the exposed methods are exactly the scanned methods whose arguments and return are usable |
| `Emitter.RegisteredAreImplemented` | generator/protocol.go:136-239 | the implementation and the registration walk the same exposed methods in the same order |
| `Emitter.RegistrationNamesImplementation` | generator/protocol.go:169-235 | each registration binds the selector to the forwarding method that the implementation defines under the same name |
| `Emitter.UnusableMethodsOnlyMentioned` | generator/protocol.go:88-99 | an unusable method gets only a TODO line in the interface, or nothing when it has no name, and neither an implementation nor a registration |
| `Emitter.ExposedMethodDeclared` | generator/protocol.go:118-130 | every exposed method is declared in the interface under its Go name |
| `Emitter.PrintGoDef` | generator/file.go:20-25 | a free function's text and flag are the specified ones |
| `Emitter.FuncDefOk` | generator/file.go:20-25 | a free function prints successfully exactly when all its argument types and its return type have Go names |
| `Emitter.FuncDefShape` | generator/file.go:20-25 | the printed function starts with `func`, its name and its parenthesised arguments |
| `Gen.Generator.constructor` | generator/generator.go:14-20 | a new generator has three empty tables |
| `Gen.Generator.StoreRef` | generator/member_type.go:377-384 | the store gains a placeholder for an unknown refid; the other tables are unchanged |
| `Gen.Generator.TypeFromLinkText` | generator/member_type.go:371-388 | returns the link text's type and updates the store as the link resolution specifies |
| `Gen.Generator.MemberTypeOf` | generator/member_type.go:390-408 | returns the member's type and updates the store as member resolution specifies |
| `Gen.Generator.LoadFuncs` | generator/file.go:54-106 | the generator's tables become those of loading the function section |
| `Gen.Generator.LoadMember` | generator/file.go:56-104 | the tables become those of loading one member |
| `Gen.Generator.LoadParams` | generator/file.go:89-103 | returns one argument per parameter and updates the store as parameter resolution specifies |
| `Gen.Generator.LoadAttributes` | generator/struct.go:256-282 | the store becomes that of adding the section's attributes; files and functions are unchanged |
| `Gen.Generator.LoadAttribute` | generator/struct.go:263-280 | the store becomes that of adding one attribute |
| `Gen.Generator.LoadProperties` | generator/struct.go:283-307 | the store becomes that of adding the section's properties; files and functions are unchanged |
| `Gen.Generator.LoadProperty` | generator/struct.go:285-305 | the store becomes that of adding one property |
| `Gen.Generator.LoadDoxyObject` | generator/struct.go:250-320 | the tables and the error are those of loading the sections |
| `Gen.Generator.LoadDoxyStruct` | generator/struct.go:227-248 | the tables and the error are those of loading a struct entry |
| `Gen.Generator.LoadDoxyProtocol` | generator/protocol.go:241-262 | the tables and the error are those of loading a protocol entry |
| `Gen.Generator.LoadDoxyFile` | generator/file.go:27-52 | the tables and the error are those of loading a file entry |
| `Gen.Generator.AttachMethods` | generator/file.go:112-125 | the functions are visited once each in some order, and the tables become those of attaching in that order |
| `Gen.Generator.AttachMethod` | generator/file.go:113-123 | the tables become those of attaching one function |
| `Gen.Generator.LoadEntries` | generator/generator.go:35-52 | the tables and the error are those of loading the entries in order up to the first error |
| `Gen.Generator.LoadEntry` | generator/generator.go:36-51 | the tables and the error are those of loading one entry |
| `Gen.Generator.LoadDoxygen` | generator/generator.go:30-57 | on a load error the error is returned with the tables at that point; otherwise there is no error, and the functions are attached in some visiting order |
| `Gen.Generator.TypeByName` | generator/struct.go:322-333 | a definition is found only when its Go type name is the one asked for, and nothing is found only when no definition has that name |
| `Gen.Generator.FuncNames` | generator/generator.go:73-75 | the collected names are the function keys, each exactly once |
| `Gen.Generator.PrintFuncs` | generator/generator.go:77-82 | the emit loop prints the printable definitions of the named functions in the given order |
| `Gen.Generator.PrintGo` | generator/generator.go:59-83 | the output is the free functions' definitions in strictly increasing key order, covering each key exactly once |
| `Gen.SortedOrder` | generator/generator.go:73-76 | sorting the collected keys gives every key exactly once, in strictly increasing order |
| `Gen.SortedOrderUnique` | generator/generator.go:73-76 | there is only one strictly increasing order of the keys, so the output does not depend on map order |

## Left out

- I/O: every `io.Writer` is modelled as returned text. Opening and decoding the Doxygen XML (`doxy.OpenXML`, `Decode`) becomes input values: each `Doxy.Entry` carries its decoded compound or the decoding error, and `LoadDoxygen` takes the index's decoding result as a parameter.
- Logging (`log.Printf`, including the redeclaration message of `addMethod`) has no effect on results and is left out.
- `%#v` dumps of types are replaced by the stand-in `Types.Dump`. Only the advisories' fixed text around them is modelled exactly.
- `%q` is modelled by `Strings.Quote`, which escapes only `"` and `\`. Go's escaping of control and non-ASCII characters is not modelled.
- Resolver.LastNonIdent: type texts are modelled as character sequences, not UTF-8 bytes. Go classifies each byte of the argument text on its own (member_type.go:295-297); the model classifies each character with the same letter class, `unicode.IsLetter` below U+0100. The two agree on ASCII text; a character that UTF-8 encodes in several bytes is not split into its bytes, so its name boundary can differ from Go's.
- Resolver.ScanLastNonIdent: the same character-for-byte modelling as `LastNonIdent`; Go's byte indexing of multi-byte characters is not modelled.
- Resolver.SplitArg: the same character-for-byte modelling; for an argument holding a multi-byte UTF-8 character the name and type split can differ from Go's.
- Strings.TrimSpace: works on characters, taken as Go's decoded runes, with the full `unicode.IsSpace` set. Invalid UTF-8, which Go's `TrimSpace` decodes to U+FFFD, is not modelled.
- Names.ToGoName: upper- and lower-casing of the first character are ASCII only. Go's `unicode.ToUpper` and `unicode.ToLower` also map other letters.
- `StructByName` is not part of this model: the source calls it, but it is not among the source files. The model takes it as a parameter mapping a receiver name to a refid. A refid that is missing, or that holds a protocol, attaches nothing.
- Go's map iteration order is not modelled. Where a loop ranges over a map, the model takes the visiting order as a ghost order, and `AttachOrderIrrelevant` and `SortedOrderUnique` show that the result does not depend on it.
- Gen.Generator.TypeByName: returns some definition with the asked-for Go name. Which one Go returns when several share the name depends on map order, which is not modelled.
- `sort.Strings` is modelled by an insertion sort on a sequence. Only its result, a sorted permutation, matters.
- The commented-out loop over the type definitions in `PrintGo` is not modelled, because it is not part of the program.
- `FunctionByName` (file.go:108-110) is a plain map lookup. In the model, `funcs` is a field that callers read directly.
- `getName` of structs and protocols (struct.go:27-29, protocol.go:21-23) is a field read, modelled by `Entities.BaseOf`.
- A nil `Type` inside a qualifier, pointer or argument would make Go panic. The printers require `TypeDefined`, `SigDefined` or `NameDefined` of their inputs instead of modelling the panic.
- The error paths of `getTypeByName` and `loadFuncs` are not modelled, because they cannot happen. No leaf resolver returns an error, so `Resolver.Resolve` and `Loader.LoadFuncs` are total.
- The `objc` runtime package and the `cmd/objc-gen` command are not part of this model.
- generator.go:85-132 redeclares `BaseNode`, `ensureGoName` and `entToBaseNode`. Its `ensureGoName` replaces only `:`. The model follows types.go, whose version sanitises `:` and `-`.
- `NSString` defines no `CastToGo` in known_type.go, so a return of type `NSString *` can never be converted. The model treats its cast to Go as failing.
- `loadDoxyObject` calls `loadFuncs` with the host as an extra argument (struct.go:312), but `loadFuncs` takes only the members (file.go:54). The model follows file.go: a function section of a struct or protocol goes into the function table, and a method reaches a struct only through `attachMethods`. `StructType.addMethod` and `ProtocolType.addMethod` are modelled (`Entities.StructAddMethod`, `Entities.ProtocolAddMethod`), but the loader does not call them.
- Aliasing is not modelled. A definition is identified by its refid, and `Entity(refid)` always sees the current entry. In Go, `loadDoxyStruct` and `loadDoxyProtocol` update a stored definition of their own kind in place, so both behave alike there. When a definition of the other kind replaces a stored one, as a protocol replacing a placeholder struct would, Go's earlier references keep the old object. Neither case arises from `LoadDoxygen`, which never dispatches protocol entries.
